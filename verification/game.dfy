/**
 The game state and the operations the browser drives: the input handlers,
 the per-frame physics step, the frame guard of the animation loop and the
 reset on first interaction.
 */
module Game {
  import opened Host
  import opened InputTracker
  import opened Vehicle
  import opened SkidMarks

  /** Everything the script keeps in its globals, apart from the canvas. */
  datatype GameState = GameState(
    car: Car,
    score: nat,
    input: Input,
    lastTime: real,
    gameStarted: bool,
    skidMarks: seq<SkidMark>)

  /** The state once the script has loaded: the first resize has set up a
      car, and the game waits for the first press. */
  function Boot(canvas: Canvas, num: Numerics): (r: GameState)
    ensures !r.gameStarted && r.score == 0 && r.skidMarks == [] && r.input == Released
    ensures r.car == SetupCar(canvas, num)
  {
    GameState(SetupCar(canvas, num), 0, Released, 0.0, false, [])
  }

  /** A fresh game: new car, zero score, nothing held, no skid marks, and
      the frame clock resynchronised to now. Whether the game has started
      is left as it was. */
  function ResetGame(s: GameState, canvas: Canvas, now: real, num: Numerics): (r: GameState)
    ensures r.gameStarted == s.gameStarted
    ensures r.score == 0 && r.skidMarks == [] && r.lastTime == now
    ensures !r.input.left && !r.input.right
    ensures StandardTuning(r.car) && r.car.speed == 0.0 && r.car.velocity == Vec(0.0, 0.0)
    ensures !r.car.isDrifting && r.car.angle == -num.pi / 2.0
    ensures r.car.x == canvas.width / 2.0 && r.car.y == canvas.height / 2.0
    ensures canvas.width >= 20.0 && canvas.height >= 40.0 ==> InBounds(r.car, canvas)
  {
    s.(car := SetupCar(canvas, num), score := 0, input := Released, skidMarks := [], lastTime := now)
  }

  /** A press at horizontal offset touchX. The first press starts the game
      with a reset; every press then holds exactly the pressed half. */
  function HandleInputStart(s: GameState, touchX: real, now: real, canvas: Canvas, num: Numerics): (r: GameState)
    ensures r.gameStarted
    ensures r.input.left != r.input.right
    ensures r.input.left <==> touchX < canvas.width / 2.0
    ensures s.gameStarted ==> r == s.(input := r.input)
    ensures !s.gameStarted ==>
              r.car == SetupCar(canvas, num) && r.score == 0 && r.skidMarks == [] && r.lastTime == now
  {
    var base := if s.gameStarted then s else ResetGame(s.(gameStarted := true), canvas, now, num);
    base.(input := Press(touchX, canvas.width))
  }

  /** A release, or the mouse leaving the canvas: nothing is held, and
      nothing else changes. */
  function HandleInputEnd(s: GameState): (r: GameState)
    ensures !r.input.left && !r.input.right
    ensures r.(input := s.input) == s
  {
    s.(input := Released)
  }

  /** The mark a drifting car lays at its rear, at full opacity. */
  function NewMark(c: Car, num: Numerics): (r: SkidMark)
    ensures r.alpha == 1.0 && Vec(r.x, r.y) == RearPoint(c, num)
  {
    var p := RearPoint(c, num);
    SkidMark(p.x, p.y, 1.0)
  }

  /** One physics step over deltaTime milliseconds. Before the game starts
      it does nothing. Otherwise it turns by the held flag, accelerates up
      to the cap, scores one point exactly on a drifting frame, keeps a car
      that fits inside the canvas, lays a mark only on a drifting frame and
      keeps the buffer within capacity; the input, the clock and the tuning
      constants are untouched. */
  function Update(s: GameState, deltaTime: real, canvas: Canvas, num: Numerics): (r: GameState)
    requires num.Valid()
    ensures !s.gameStarted ==> r == s
    ensures r.gameStarted == s.gameStarted && r.input == s.input && r.lastTime == s.lastTime
    ensures SameTuning(r.car, s.car)
    ensures s.gameStarted ==> r.car == Physics(s.car, s.input, deltaTime, canvas, num).car
    ensures s.gameStarted && s.input.left && !s.input.right ==> r.car.angle == s.car.angle - s.car.turnSpeed
    ensures s.gameStarted && s.input.right && !s.input.left ==> r.car.angle == s.car.angle + s.car.turnSpeed
    ensures s.gameStarted && s.input.left == s.input.right ==> r.car.angle == s.car.angle
    ensures s.gameStarted ==> r.car.speed <= r.car.maxSpeed
    ensures s.gameStarted && s.car.speed + s.car.acceleration <= s.car.maxSpeed ==>
              r.car.speed == s.car.speed + s.car.acceleration
    ensures s.gameStarted && s.car.speed + s.car.acceleration > s.car.maxSpeed ==>
              r.car.speed == s.car.maxSpeed
    ensures s.gameStarted ==>
              var m := Observe(Kinematics(s.car, s.input, deltaTime, num), num);
              (r.car.isDrifting <==> Abs(m.angleDiff) > DriftAngle && m.magnitude > DriftSpeed)
    ensures s.gameStarted ==> r.score == if r.car.isDrifting then s.score + 1 else s.score
    ensures r.score >= s.score
    ensures s.gameStarted && canvas.width >= s.car.width && canvas.height >= s.car.height ==>
              InBounds(r.car, canvas)
    ensures s.gameStarted && !r.car.isDrifting ==> r.skidMarks == Fade(s.skidMarks)
    ensures s.gameStarted && r.car.isDrifting ==>
              && |r.skidMarks| > 0
              && r.skidMarks[|r.skidMarks| - 1] == Dim(NewMark(r.car, num))
    ensures s.gameStarted && r.car.isDrifting ==>
              r.skidMarks == Fade(Push(s.skidMarks, NewMark(r.car, num)))
    ensures |s.skidMarks| <= MaxSkidMarks ==> |r.skidMarks| <= MaxSkidMarks
    ensures s.gameStarted ==> forall j :: 0 <= j < |r.skidMarks| ==> r.skidMarks[j].alpha > 0.0
  {
    if !s.gameStarted then s
    else
      var step := Physics(s.car, s.input, deltaTime, canvas, num);
      var drifting := step.car.isDrifting;
      var emitted := if drifting && step.speedMagnitude > 1.0
                     then Push(s.skidMarks, NewMark(step.car, num))
                     else s.skidMarks;
      s.(car := step.car,
         score := if drifting then s.score + 1 else s.score,
         skidMarks := Fade(emitted))
  }

  /** The physics step neither reads nor writes the clock, so moving the
      clock before the step, as the frame callback does, or after it gives
      the same state. */
  lemma UpdateIgnoresClock(s: GameState, deltaTime: real, timestamp: real, canvas: Canvas, num: Numerics)
    requires num.Valid()
    ensures Update(s.(lastTime := timestamp), deltaTime, canvas, num)
         == Update(s, deltaTime, canvas, num).(lastTime := timestamp)
  {
    var timed := s.(lastTime := timestamp);
    assert timed.car == s.car && timed.input == s.input && timed.skidMarks == s.skidMarks;
  }

  /** One animation-frame callback at the given timestamp. Before the game
      starts it does nothing. Otherwise the clock always moves to the
      timestamp, and the physics step runs only when time has advanced; a
      frame whose elapsed time is not positive changes nothing else. The
      clock is written after the step, which by UpdateIgnoresClock is the
      same as writing it first. Every frame keeps the invariant Valid. */
  function GameLoop(s: GameState, timestamp: real, canvas: Canvas, num: Numerics): (r: GameState)
    requires num.Valid()
    ensures !s.gameStarted ==> r == s
    ensures s.gameStarted ==> r.lastTime == timestamp
    ensures s.gameStarted && timestamp - s.lastTime <= 0.0 ==> r == s.(lastTime := timestamp)
    ensures s.gameStarted && timestamp - s.lastTime > 0.0 ==>
              r == Update(s, timestamp - s.lastTime, canvas, num).(lastTime := timestamp)
    ensures Valid(s) ==> Valid(r)
  {
    if !s.gameStarted then s
    else
      var deltaTime := timestamp - s.lastTime;
      ClockKeepsValid(s, timestamp);
      if deltaTime > 0.0 then
        var stepped := Update(s, deltaTime, canvas, num);
        UpdateKeepsValid(s, deltaTime, canvas, num);
        ClockKeepsValid(stepped, timestamp);
        stepped.(lastTime := timestamp)
      else s.(lastTime := timestamp)
  }

  /** The events the script listens to, each with what the handler reads:
      a press (mouse down or touch start) with its horizontal offset, the
      clock at that moment and the canvas size; a release (mouse up, mouse
      leave, touch end or touch cancel); an animation frame with its
      timestamp and the canvas size. */
  datatype Event =
    | InputStart(touchX: real, now: real, canvas: Canvas)
    | InputEnd
    | AnimationFrame(timestamp: real, canvas: Canvas)

  /** The handler each event is wired to. Only a press starts the game,
      nothing stops it, and before the start nothing but the flags changes. */
  function Dispatch(s: GameState, e: Event, num: Numerics): (r: GameState)
    requires num.Valid()
    ensures s.gameStarted ==> r.gameStarted
    ensures e.InputStart? ==> r.gameStarted && r.input.left != r.input.right
    ensures e.InputEnd? ==> r == s.(input := Released)
    ensures e.AnimationFrame? ==> r.gameStarted == s.gameStarted && r.input == s.input
    ensures !s.gameStarted && !e.InputStart? ==> r == s.(input := r.input)
  {
    match e
    case InputStart(touchX, now, canvas) => HandleInputStart(s, touchX, now, canvas, num)
    case InputEnd => HandleInputEnd(s)
    case AnimationFrame(timestamp, canvas) => GameLoop(s, timestamp, canvas, num)
  }

  /** A sequence of events handled in order. A started game stays started;
      until the first press the car, the score, the marks and the clock stay
      as they were. */
  function Run(s: GameState, events: seq<Event>, num: Numerics): (r: GameState)
    requires num.Valid()
    ensures |events| == 0 ==> r == s
    ensures s.gameStarted ==> r.gameStarted
    ensures !s.gameStarted && (forall i :: 0 <= i < |events| ==> !events[i].InputStart?) ==>
              r == s.(input := r.input)
    decreases |events|
  {
    if |events| == 0 then s else Run(Dispatch(s, events[0], num), events[1..], num)
  }

  /** What holds between any two events: the flags are exclusive, the car
      keeps its tuning and its speed cap, the skid buffer has its end-of-frame
      shape, and nothing has been scored or laid before the game starts. */
  ghost predicate Valid(s: GameState) {
    && Exclusive(s.input)
    && StandardTuning(s.car)
    && s.car.speed <= s.car.maxSpeed
    && Fading(s.skidMarks)
    && (!s.gameStarted ==> s.score == 0 && s.skidMarks == [])
  }

  lemma BootValid(canvas: Canvas, num: Numerics)
    ensures Valid(Boot(canvas, num))
  {
  }

  /** The physics step keeps the invariant. */
  lemma UpdateKeepsValid(s: GameState, deltaTime: real, canvas: Canvas, num: Numerics)
    requires num.Valid()
    ensures Valid(s) ==> Valid(Update(s, deltaTime, canvas, num))
  {
    if s.gameStarted && Valid(s) {
      var step := Physics(s.car, s.input, deltaTime, canvas, num);
      FrameKeepsFading(s.skidMarks, NewMark(step.car, num), step.car.isDrifting && step.speedMagnitude > 1.0);
    }
  }

  lemma InputStartKeepsValid(s: GameState, touchX: real, now: real, canvas: Canvas, num: Numerics)
    requires num.Valid() && Valid(s)
    ensures Valid(HandleInputStart(s, touchX, now, canvas, num))
  {
    var r := HandleInputStart(s, touchX, now, canvas, num);
    if s.gameStarted {
      assert r.skidMarks == s.skidMarks && r.car == s.car;
    } else {
      assert r.skidMarks == [] && r.car == SetupCar(canvas, num);
    }
  }

  lemma ClockKeepsValid(s: GameState, timestamp: real)
    ensures Valid(s) ==> Valid(s.(lastTime := timestamp))
  {
    var timed := s.(lastTime := timestamp);
    assert timed.car == s.car && timed.input == s.input && timed.skidMarks == s.skidMarks;
  }

  /** Every handler keeps the invariant. */
  lemma DispatchKeepsValid(s: GameState, e: Event, num: Numerics)
    requires num.Valid() && Valid(s)
    ensures Valid(Dispatch(s, e, num))
  {
    match e
    case InputStart(touchX, now, canvas) =>
      InputStartKeepsValid(s, touchX, now, canvas, num);
    case InputEnd =>
      assert HandleInputEnd(s).skidMarks == s.skidMarks;
    case AnimationFrame(timestamp, canvas) =>
      assert Valid(GameLoop(s, timestamp, canvas, num));
  }

  /** Handling two batches of events one after the other is handling their
      concatenation. */
  lemma {:induction false} RunConcat(s: GameState, a: seq<Event>, b: seq<Event>, num: Numerics)
    requires num.Valid()
    ensures Run(s, a + b, num) == Run(Run(s, a, num), b, num)
    decreases |a|
  {
    if |a| == 0 {
      assert a + b == b;
    } else {
      assert (a + b)[0] == a[0] && (a + b)[1..] == a[1..] + b;
      RunConcat(Dispatch(s, a[0], num), a[1..], b, num);
    }
  }

  /** The invariant holds after any sequence of events. */
  lemma {:induction false} RunKeepsValid(s: GameState, events: seq<Event>, num: Numerics)
    requires num.Valid() && Valid(s)
    ensures Valid(Run(s, events, num))
    decreases |events|
  {
    if |events| > 0 {
      DispatchKeepsValid(s, events[0], num);
      RunKeepsValid(Dispatch(s, events[0], num), events[1..], num);
    }
  }

  /** No handler lowers the score: the reset on the first press only ever
      finds a score of zero. */
  lemma DispatchKeepsScore(s: GameState, e: Event, num: Numerics)
    requires num.Valid() && Valid(s)
    ensures Dispatch(s, e, num).score >= s.score
  {
  }

  /** The score never decreases over any sequence of events. */
  lemma {:induction false} RunKeepsScore(s: GameState, events: seq<Event>, num: Numerics)
    requires num.Valid() && Valid(s)
    ensures Run(s, events, num).score >= s.score
    decreases |events|
  {
    if |events| > 0 {
      var next := Dispatch(s, events[0], num);
      DispatchKeepsScore(s, events[0], num);
      DispatchKeepsValid(s, events[0], num);
      RunKeepsScore(next, events[1..], num);
    }
  }

  /** From the loaded page, whatever events arrive, the skid buffer holds
      fewer than 100 marks: the capacity of 200 is never reached, and the
      drop-oldest branch of Push never runs. */
  lemma SkidBufferNeverFull(canvas: Canvas, events: seq<Event>, num: Numerics)
    requires num.Valid()
    ensures |Run(Boot(canvas, num), events, num).skidMarks| < 100
  {
    BootValid(canvas, num);
    RunKeepsValid(Boot(canvas, num), events, num);
    FadingIsShort(Run(Boot(canvas, num), events, num).skidMarks);
  }

  /** The flags are exclusive after any sequence of events from the loaded
      page, and the car keeps its speed cap. */
  lemma RunKeepsInputExclusive(canvas: Canvas, events: seq<Event>, num: Numerics)
    requires num.Valid()
    ensures var s := Run(Boot(canvas, num), events, num);
      Exclusive(s.input) && s.car.speed <= 4.0
  {
    BootValid(canvas, num);
    RunKeepsValid(Boot(canvas, num), events, num);
  }
}
