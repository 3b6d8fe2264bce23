/**
 Angle normalisation: the two loops that bring the heading/motion angle
 difference into [-pi, pi] by whole turns.
 */
module Angles {

  /** k whole turns, in radians. */
  function Turns(k: int, pi: real): real {
    (k as real) * 2.0 * pi
  }

  /** Two angles name the same direction: they differ by whole turns. */
  ghost predicate Coterminal(a: real, b: real, pi: real) {
    exists k: int :: a - b == Turns(k, pi)
  }

  lemma CoterminalShift(a: real, b: real, pi: real, j: int)
    requires Coterminal(a, b, pi)
    ensures Coterminal(a, b + Turns(j, pi), pi)
  {
    var k :| a - b == Turns(k, pi);
    assert a - (b + Turns(j, pi)) == Turns(k - j, pi);
  }

  lemma CoterminalTrans(a: real, b: real, c: real, pi: real)
    requires Coterminal(a, b, pi) && Coterminal(b, c, pi)
    ensures Coterminal(a, c, pi)
  {
    var k :| a - b == Turns(k, pi);
    var j :| b - c == Turns(j, pi);
    assert a - c == Turns(k + j, pi);
  }

  /** How many more times the first loop's body runs. */
  function ExcessTurns(d: real, pi: real): nat
    requires pi > 0.0
  {
    if d > pi then ((d - pi) / (2.0 * pi)).Floor + 1 else 0
  }

  /** How many more times the second loop's body runs. */
  function DeficitTurns(d: real, pi: real): nat
    requires pi > 0.0
  {
    if d < -pi then ((-pi - d) / (2.0 * pi)).Floor + 1 else 0
  }

  lemma FloorStep(x: real)
    ensures (x - 1.0).Floor == x.Floor - 1
  {
  }

  lemma DivShift(a: real, t: real)
    requires t > 0.0
    ensures (a - t) / t == a / t - 1.0
  {
    var q := a / t;
    var p := (a - t) / t;
    assert q * t == a;
    assert p * t == a - t;
    var e := p - q + 1.0;
    assert e * t == 0.0;
    if e != 0.0 {
      assert false;
    }
  }

  lemma ExcessTurnsDecrease(d: real, pi: real)
    requires pi > 0.0 && d > pi
    ensures ExcessTurns(d - 2.0 * pi, pi) < ExcessTurns(d, pi)
  {
    var t := 2.0 * pi;
    DivShift(d - pi, t);
    assert d - t - pi == (d - pi) - t;
    FloorStep((d - pi) / t);
  }

  lemma DeficitTurnsDecrease(d: real, pi: real)
    requires pi > 0.0 && d < -pi
    ensures DeficitTurns(d + 2.0 * pi, pi) < DeficitTurns(d, pi)
  {
    var t := 2.0 * pi;
    DivShift(-pi - d, t);
    assert -pi - (d + t) == (-pi - d) - t;
    FloorStep((-pi - d) / t);
  }

  /** The first loop: subtract a turn while the angle exceeds pi. */
  function WrapDown(d: real, pi: real): (r: real)
    requires pi > 0.0
    ensures r <= pi
    ensures d <= pi ==> r == d
    ensures d > pi ==> -pi < r
    ensures Coterminal(r, d, pi)
    decreases ExcessTurns(d, pi)
  {
    if d > pi then
      ExcessTurnsDecrease(d, pi);
      var r := WrapDown(d - 2.0 * pi, pi);
      CoterminalShift(r, d - 2.0 * pi, pi, 1);
      r
    else
      assert d - d == Turns(0, pi);
      d
  }

  /** The second loop: add a turn while the angle is below -pi. */
  function WrapUp(d: real, pi: real): (r: real)
    requires pi > 0.0
    ensures -pi <= r
    ensures d >= -pi ==> r == d
    ensures d < -pi ==> r < pi
    ensures Coterminal(r, d, pi)
    decreases DeficitTurns(d, pi)
  {
    if d < -pi then
      DeficitTurnsDecrease(d, pi);
      var r := WrapUp(d + 2.0 * pi, pi);
      CoterminalShift(r, d + 2.0 * pi, pi, -1);
      r
    else
      assert d - d == Turns(0, pi);
      d
  }

  /** Both loops in sequence, as the physics step runs them. The result lies
      in the closed interval [-pi, pi], names the same direction as the input,
      and an input already in range is left alone. */
  function NormalizeAngle(d: real, pi: real): (r: real)
    requires pi > 0.0
    ensures -pi <= r <= pi
    ensures Coterminal(r, d, pi)
    ensures -pi <= d <= pi ==> r == d
  {
    var down := WrapDown(d, pi);
    var r := WrapUp(down, pi);
    CoterminalTrans(r, down, d, pi);
    r
  }

  /** A whole number of turns no longer than one turn is -1, 0 or 1 turns. */
  lemma SmallTurns(k: int, pi: real)
    requires pi > 0.0
    requires -2.0 * pi <= Turns(k, pi) <= 2.0 * pi
    ensures -1 <= k <= 1
  {
    assert Turns(k, pi) == (k as real) * (2.0 * pi);
  }

  /** The normalised difference depends only on the direction of its input:
      two inputs naming the same direction normalise to the same value,
      except that a direction of exactly half a turn may come out as pi or
      as -pi. */
  lemma NormalizeDependsOnDirectionOnly(d1: real, d2: real, pi: real)
    requires pi > 0.0
    requires Coterminal(d1, d2, pi)
    ensures var r1, r2 := NormalizeAngle(d1, pi), NormalizeAngle(d2, pi);
      r1 == r2 || (r1 == pi && r2 == -pi) || (r1 == -pi && r2 == pi)
  {
    var r1, r2 := NormalizeAngle(d1, pi), NormalizeAngle(d2, pi);
    CoterminalTrans(r1, d1, d2, pi);
    CoterminalSymmetric(r2, d2, pi);
    CoterminalTrans(r1, d2, r2, pi);
    CoterminalInRange(r1, r2, pi);
  }

  lemma CoterminalSymmetric(a: real, b: real, pi: real)
    requires Coterminal(a, b, pi)
    ensures Coterminal(b, a, pi)
  {
    var k :| a - b == Turns(k, pi);
    assert b - a == Turns(-k, pi);
  }

  /** Within [-pi, pi] two angles naming the same direction are equal, or
      are the two ends of the interval. */
  lemma CoterminalInRange(r1: real, r2: real, pi: real)
    requires pi > 0.0
    requires -pi <= r1 <= pi && -pi <= r2 <= pi
    requires Coterminal(r1, r2, pi)
    ensures r1 == r2 || (r1 == pi && r2 == -pi) || (r1 == -pi && r2 == pi)
  {
    var n :| r1 - r2 == Turns(n, pi);
    SmallTurns(n, pi);
  }
}
