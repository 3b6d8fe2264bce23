/**
 The skid-mark buffer: a bounded FIFO of fading marks, oldest first.
 */
module SkidMarks {

  /** A trail point left behind a drifting car, with its opacity. */
  datatype SkidMark = SkidMark(x: real, y: real, alpha: real)

  /** Capacity of the buffer. */
  const MaxSkidMarks: nat := 200
  /** Opacity a mark loses every frame. */
  const FadeStep: real := 0.01

  /** a occurs in b in order, possibly with gaps. */
  ghost predicate Subsequence<T>(a: seq<T>, b: seq<T>)
    decreases |b|
  {
    || |a| == 0
    || (&& |b| > 0
        && ((a[0] == b[0] && Subsequence(a[1..], b[1..])) || Subsequence(a, b[1..])))
  }

  /** Appending a mark, then dropping the oldest if the buffer overflowed.
      The new mark comes last; below capacity nothing is dropped; at
      capacity exactly the oldest mark goes and the others keep their order;
      a buffer within capacity stays within capacity. */
  function Push(marks: seq<SkidMark>, m: SkidMark): (r: seq<SkidMark>)
    ensures |r| > 0 && r[|r| - 1] == m
    ensures |marks| < MaxSkidMarks ==> r == marks + [m]
    ensures |marks| >= MaxSkidMarks ==> r == marks[1..] + [m]
    ensures |marks| <= MaxSkidMarks ==> |r| <= MaxSkidMarks
  {
    var pushed := marks + [m];
    if |pushed| > MaxSkidMarks then pushed[1..] else pushed
  }

  /** One frame of fading for a single mark. */
  function Dim(m: SkidMark): SkidMark {
    m.(alpha := m.alpha - FadeStep)
  }

  /** The decay pass over every mark: same marks, same places, each one
      FadeStep dimmer. */
  function DimAll(marks: seq<SkidMark>): (r: seq<SkidMark>)
    ensures |r| == |marks|
    ensures forall i :: 0 <= i < |marks| ==>
      r[i].x == marks[i].x && r[i].y == marks[i].y && r[i].alpha == marks[i].alpha - FadeStep
  {
    seq(|marks|, i requires 0 <= i < |marks| => Dim(marks[i]))
  }

  /** How many marks are brighter than t. */
  ghost function CountAbove(marks: seq<SkidMark>, t: real): nat
    decreases |marks|
  {
    if |marks| == 0 then 0
    else (if marks[0].alpha > t then 1 else 0) + CountAbove(marks[1..], t)
  }

  lemma {:induction false} SubsequenceMembers<T>(a: seq<T>, b: seq<T>)
    requires Subsequence(a, b)
    ensures forall j :: 0 <= j < |a| ==> a[j] in b
    decreases |b|
  {
    if |a| > 0 {
      if a[0] == b[0] && Subsequence(a[1..], b[1..]) {
        SubsequenceMembers(a[1..], b[1..]);
        assert forall j :: 1 <= j < |a| ==> a[j] == a[1..][j - 1];
      } else {
        SubsequenceMembers(a, b[1..]);
      }
    }
  }

  /** The filter pass: keeps only marks with positive opacity, in their
      original order. */
  function KeepVisible(marks: seq<SkidMark>): (r: seq<SkidMark>)
    ensures |r| <= |marks|
    ensures |r| == CountAbove(marks, 0.0)
    ensures forall j :: 0 <= j < |r| ==> r[j].alpha > 0.0
    ensures Subsequence(r, marks)
  {
    if |marks| == 0 then []
    else
      var rest := KeepVisible(marks[1..]);
      if marks[0].alpha > 0.0 then
        var r := [marks[0]] + rest;
        assert r[1..] == rest;
        r
      else rest
  }

  /** The filter drops no visible mark. */
  lemma {:induction false} KeepVisibleKeepsVisible(marks: seq<SkidMark>)
    ensures forall i :: 0 <= i < |marks| && marks[i].alpha > 0.0 ==> marks[i] in KeepVisible(marks)
    decreases |marks|
  {
    if |marks| > 0 {
      var tail := marks[1..];
      KeepVisibleKeepsVisible(tail);
      forall i | 1 <= i < |marks| && marks[i].alpha > 0.0
        ensures marks[i] in KeepVisible(marks)
      {
        assert marks[i] == tail[i - 1];
        assert marks[i] in KeepVisible(tail);
      }
    }
  }

  /** The filter keeps every visible mark as often as it occurs, and no
      other: duplicates are not merged. */
  lemma {:induction false} KeepVisibleMultiplicity(marks: seq<SkidMark>)
    ensures forall v: SkidMark :: v.alpha > 0.0 ==> multiset(KeepVisible(marks))[v] == multiset(marks)[v]
    ensures forall v: SkidMark :: v.alpha <= 0.0 ==> multiset(KeepVisible(marks))[v] == 0
    decreases |marks|
  {
    if |marks| > 0 {
      var tail := marks[1..];
      KeepVisibleMultiplicity(tail);
      assert marks == [marks[0]] + tail;
      assert multiset(marks) == multiset([marks[0]]) + multiset(tail);
      if marks[0].alpha > 0.0 {
        assert KeepVisible(marks) == [marks[0]] + KeepVisible(tail);
        assert multiset(KeepVisible(marks)) == multiset([marks[0]]) + multiset(KeepVisible(tail));
      } else {
        assert KeepVisible(marks) == KeepVisible(tail);
      }
    }
  }

  /** Dimming lowers every opacity by FadeStep, so the marks brighter than
      FadeStep are exactly those still visible after the decay pass. */
  lemma {:induction false} DimAllCount(marks: seq<SkidMark>)
    ensures CountAbove(DimAll(marks), 0.0) == CountAbove(marks, FadeStep)
    decreases |marks|
  {
    if |marks| > 0 {
      assert DimAll(marks)[1..] == DimAll(marks[1..]);
      DimAllCount(marks[1..]);
    }
  }

  /** The filter keeps the newest mark when it is visible, still last. */
  lemma {:induction false} KeepVisibleKeepsNewest(marks: seq<SkidMark>)
    requires |marks| > 0 && marks[|marks| - 1].alpha > 0.0
    ensures var r := KeepVisible(marks); |r| > 0 && r[|r| - 1] == marks[|marks| - 1]
    decreases |marks|
  {
    if |marks| > 1 {
      var tail := marks[1..];
      assert tail[|tail| - 1] == marks[|marks| - 1];
      KeepVisibleKeepsNewest(tail);
    }
  }

  /** The filter returns a buffer of visible marks whole. */
  lemma {:induction false} KeepVisibleAllVisible(marks: seq<SkidMark>)
    requires forall i :: 0 <= i < |marks| ==> marks[i].alpha > 0.0
    ensures KeepVisible(marks) == marks
    decreases |marks|
  {
    if |marks| > 0 {
      var tail := marks[1..];
      assert forall i :: 0 <= i < |tail| ==> tail[i] == marks[i + 1];
      KeepVisibleAllVisible(tail);
      assert [marks[0]] + tail == marks;
    }
  }

  /** One frame of fading: every mark dims by FadeStep and those that reach
      zero opacity are removed. Every survivor is still visible, survivors
      keep their relative order, nothing is added, and a newest mark that
      stays visible is still the newest. */
  function Fade(marks: seq<SkidMark>): (r: seq<SkidMark>)
    ensures |r| <= |marks|
    ensures forall j :: 0 <= j < |r| ==> r[j].alpha > 0.0
    ensures Subsequence(r, DimAll(marks))
    ensures |marks| > 0 && marks[|marks| - 1].alpha > FadeStep ==>
              |r| > 0 && r[|r| - 1] == Dim(marks[|marks| - 1])
  {
    var dimmed := DimAll(marks);
    if |marks| > 0 && marks[|marks| - 1].alpha > FadeStep then
      assert dimmed[|dimmed| - 1] == Dim(marks[|marks| - 1]);
      KeepVisibleKeepsNewest(dimmed);
      KeepVisible(dimmed)
    else
      KeepVisible(dimmed)
  }

  /** What survives a fade: every survivor is some earlier mark dimmed by
      exactly FadeStep, and every mark brighter than FadeStep survives. */
  lemma FadeSurvivors(marks: seq<SkidMark>)
    ensures var r := Fade(marks);
      && (forall j :: 0 <= j < |r| ==> exists i :: 0 <= i < |marks| && r[j] == Dim(marks[i]))
      && (forall i :: 0 <= i < |marks| && marks[i].alpha > FadeStep ==> Dim(marks[i]) in r)
  {
    var dimmed := DimAll(marks);
    var r := Fade(marks);
    assert r == KeepVisible(dimmed);
    SubsequenceMembers(r, dimmed);
    KeepVisibleKeepsVisible(dimmed);
    forall j | 0 <= j < |r|
      ensures exists i :: 0 <= i < |marks| && r[j] == Dim(marks[i])
    {
      var i :| 0 <= i < |dimmed| && dimmed[i] == r[j];
      assert r[j] == Dim(marks[i]);
    }
    forall i | 0 <= i < |marks| && marks[i].alpha > FadeStep
      ensures Dim(marks[i]) in r
    {
      assert dimmed[i] == Dim(marks[i]);
    }
  }

  /** A fade keeps exactly as many marks as were brighter than FadeStep. */
  lemma FadeCount(marks: seq<SkidMark>)
    ensures |Fade(marks)| == CountAbove(marks, FadeStep)
  {
    DimAllCount(marks);
  }

  /** Repeated fading, n frames. */
  ghost function FadeTimes(marks: seq<SkidMark>, n: nat): seq<SkidMark>
    decreases n
  {
    if n == 0 then marks else FadeTimes(Fade(marks), n - 1)
  }

  lemma {:induction false} FadeTimesEmpty(n: nat)
    ensures FadeTimes([], n) == []
  {
    if n > 0 {
      assert Fade([]) == [];
      FadeTimesEmpty(n - 1);
    }
  }

  /** A lone mark either dims by one step or is removed. */
  lemma FadeOne(m: SkidMark)
    ensures Dim(m).alpha > 0.0 ==> Fade([m]) == [Dim(m)]
    ensures Dim(m).alpha <= 0.0 ==> Fade([m]) == []
  {
    assert DimAll([m]) == [Dim(m)];
    assert [Dim(m)][1..] == [];
  }

  lemma {:induction false} FadeTimesSingle(m: SkidMark, j: nat, n: nat)
    requires j > 0 && m.alpha == FadeStep * (j as real)
    ensures n < j ==> FadeTimes([m], n) == [m.(alpha := FadeStep * ((j - n) as real))]
    ensures n >= j ==> FadeTimes([m], n) == []
    decreases n
  {
    if n > 0 {
      FadeOne(m);
      assert Dim(m).alpha == FadeStep * ((j - 1) as real);
      if j > 1 {
        FadeTimesSingle(Dim(m), j - 1, n - 1);
      } else {
        FadeTimesEmpty(n - 1);
      }
    }
  }

  /** Under exact arithmetic, a mark laid down at full opacity survives 99
      fades at opacity 1 - n/100 and is gone after the 100th. */
  lemma MarkLifetime(m: SkidMark, n: nat)
    requires m.alpha == 1.0
    ensures n < 100 ==> FadeTimes([m], n) == [m.(alpha := 1.0 - FadeStep * (n as real))]
    ensures n >= 100 ==> FadeTimes([m], n) == []
  {
    assert m.alpha == FadeStep * (100 as real);
    FadeTimesSingle(m, 100, n);
    if n < 100 {
      assert FadeStep * ((100 - n) as real) == 1.0 - FadeStep * (n as real);
    }
  }

  /** Every mark is no brighter than its age allows: counting from the
      newest, the k-th mark (k = 1 for the newest) has opacity at most
      1 - (k - lag) * FadeStep. */
  ghost predicate Aged(marks: seq<SkidMark>, lag: int) {
    forall i :: 0 <= i < |marks| ==>
      marks[i].alpha <= 1.0 - FadeStep * ((|marks| - i - lag) as real)
  }

  /** The shape of the buffer at the end of every frame: all marks visible,
      and each no brighter than its age allows. */
  ghost predicate Fading(marks: seq<SkidMark>) {
    && (forall i :: 0 <= i < |marks| ==> marks[i].alpha > 0.0)
    && Aged(marks, 0)
  }

  /** A buffer of that shape holds fewer than 100 marks, so it never
      reaches capacity. */
  lemma FadingIsShort(marks: seq<SkidMark>)
    requires Fading(marks)
    ensures |marks| < 100
  {
    if |marks| > 0 {
      assert 0.0 < marks[0].alpha <= 1.0 - FadeStep * (|marks| as real);
    }
  }

  lemma PushAged(marks: seq<SkidMark>, m: SkidMark)
    requires Aged(marks, 0) && m.alpha <= 1.0
    ensures Aged(Push(marks, m), 1)
  {
    var pushed := marks + [m];
    assert Aged(pushed, 1) by {
      forall i | 0 <= i < |pushed|
        ensures pushed[i].alpha <= 1.0 - FadeStep * ((|pushed| - i - 1) as real)
      {
        if i < |marks| {
          assert pushed[i] == marks[i];
        }
      }
    }
    if |pushed| > MaxSkidMarks {
      var shifted := pushed[1..];
      forall i | 0 <= i < |shifted|
        ensures shifted[i].alpha <= 1.0 - FadeStep * ((|shifted| - i - 1) as real)
      {
        assert shifted[i] == pushed[i + 1];
      }
    }
  }

  lemma DimAllAged(marks: seq<SkidMark>)
    requires Aged(marks, 1)
    ensures Aged(DimAll(marks), 0)
  {
    var d := DimAll(marks);
    forall i | 0 <= i < |d|
      ensures d[i].alpha <= 1.0 - FadeStep * ((|d| - i) as real)
    {
      assert d[i].alpha == marks[i].alpha - FadeStep;
    }
  }

  lemma {:induction false} KeepVisibleAged(marks: seq<SkidMark>)
    requires Aged(marks, 0)
    ensures Aged(KeepVisible(marks), 0)
    decreases |marks|
  {
    if |marks| > 0 {
      var tail := marks[1..];
      assert Aged(tail, 0) by {
        forall i | 0 <= i < |tail|
          ensures tail[i].alpha <= 1.0 - FadeStep * ((|tail| - i) as real)
        {
          assert tail[i] == marks[i + 1];
        }
      }
      KeepVisibleAged(tail);
      var rest := KeepVisible(tail);
      if marks[0].alpha > 0.0 {
        var r := [marks[0]] + rest;
        assert KeepVisible(marks) == r;
        forall i | 0 <= i < |r|
          ensures r[i].alpha <= 1.0 - FadeStep * ((|r| - i) as real)
        {
          if i > 0 {
            assert r[i] == rest[i - 1];
          }
        }
      } else {
        assert KeepVisible(marks) == rest;
      }
    }
  }

  /** One frame of the buffer, with or without a new full-opacity mark,
      keeps the end-of-frame shape. */
  lemma FrameKeepsFading(marks: seq<SkidMark>, m: SkidMark, emit: bool)
    requires Fading(marks) && m.alpha == 1.0
    ensures Fading(Fade(if emit then Push(marks, m) else marks))
  {
    var before := if emit then Push(marks, m) else marks;
    if emit {
      PushAged(marks, m);
    } else {
      forall i | 0 <= i < |marks|
        ensures marks[i].alpha <= 1.0 - FadeStep * ((|marks| - i - 1) as real)
      {
      }
    }
    DimAllAged(before);
    KeepVisibleAged(DimAll(before));
  }
}
