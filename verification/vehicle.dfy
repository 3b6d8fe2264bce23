/**
 The vehicle model and the stages of the per-frame physics step that act on
 it: steering, acceleration, forward force and friction, drift detection and
 slip, integration, and the boundary clamp with its soft bounce.
 */
module Vehicle {
  import opened Host
  import opened Angles
  import opened InputTracker

  /** A velocity or a point in canvas pixels. */
  datatype Vec = Vec(x: real, y: real)

  /** The car: kinematic state plus its tuning constants. */
  datatype Car = Car(
    x: real,
    y: real,
    width: real,
    height: real,
    angle: real,
    speed: real,
    velocity: Vec,
    acceleration: real,
    maxSpeed: real,
    turnSpeed: real,
    friction: real,
    driftAmount: real,
    color: string,
    isDrifting: bool)

  /** Duration of one frame at 60 frames per second, in milliseconds. */
  const ReferenceFrame: real := 16.67
  /** Smallest angle difference, in radians, that counts as a drift. */
  const DriftAngle: real := 0.5
  /** Smallest speed magnitude, in pixels per frame, that counts as a drift. */
  const DriftSpeed: real := 1.5
  /** Factor applied to a velocity component when the car hits an edge. */
  const Restitution: real := -0.5

  /** A fresh car: centred on the canvas, pointing up, at rest, with the
      standard tuning; it lies inside any canvas of at least 20x40. */
  function SetupCar(canvas: Canvas, num: Numerics): (r: Car)
    ensures r.x == canvas.width / 2.0 && r.y == canvas.height / 2.0
    ensures r.angle == -num.pi / 2.0 && r.speed == 0.0 && r.velocity == Vec(0.0, 0.0)
    ensures !r.isDrifting && StandardTuning(r)
    ensures canvas.width >= r.width && canvas.height >= r.height ==> InBounds(r, canvas)
  {
    Car(
      x := canvas.width / 2.0,
      y := canvas.height / 2.0,
      width := 20.0,
      height := 40.0,
      angle := -num.pi / 2.0,
      speed := 0.0,
      velocity := Vec(0.0, 0.0),
      acceleration := 0.08,
      maxSpeed := 4.0,
      turnSpeed := 0.06,
      friction := 0.97,
      driftAmount := 0.9,
      color := "#ff4444",
      isDrifting := false)
  }

  /** The tuning constants of a car set up by SetupCar. */
  predicate StandardTuning(c: Car) {
    && c.width == 20.0 && c.height == 40.0
    && c.acceleration == 0.08 && c.maxSpeed == 4.0 && c.turnSpeed == 0.06
    && c.friction == 0.97 && c.driftAmount == 0.9 && c.color == "#ff4444"
  }

  /** The physics step never touches the tuning constants. */
  predicate SameTuning(a: Car, b: Car) {
    && a.width == b.width && a.height == b.height
    && a.acceleration == b.acceleration && a.maxSpeed == b.maxSpeed
    && a.turnSpeed == b.turnSpeed && a.friction == b.friction
    && a.driftAmount == b.driftAmount && a.color == b.color
  }

  /** The car lies inside the canvas: its bounding box, unrotated, touches
      no edge from outside. */
  predicate InBounds(c: Car, canvas: Canvas) {
    && c.width / 2.0 <= c.x <= canvas.width - c.width / 2.0
    && c.height / 2.0 <= c.y <= canvas.height - c.height / 2.0
  }

  /** Turning: the left flag turns counter-clockwise, the right flag
      clockwise, and both together cancel. */
  function Steer(angle: real, turnSpeed: real, input: Input): (r: real)
    ensures input.left && !input.right ==> r == angle - turnSpeed
    ensures input.right && !input.left ==> r == angle + turnSpeed
    ensures input.left == input.right ==> r == angle
  {
    var afterLeft := if input.left then angle - turnSpeed else angle;
    if input.right then afterLeft + turnSpeed else afterLeft
  }

  /** Acceleration: speed grows by the acceleration every frame, capped at
      the maximum speed. */
  function Accelerate(speed: real, acceleration: real, maxSpeed: real): (r: real)
    ensures r <= maxSpeed
    ensures speed + acceleration <= maxSpeed ==> r == speed + acceleration
    ensures speed + acceleration > maxSpeed ==> r == maxSpeed
    ensures speed <= maxSpeed && acceleration >= 0.0 ==> speed <= r
  {
    var raised := speed + acceleration;
    if raised > maxSpeed then maxSpeed else raised
  }

  /** The speed after n frames from rest, with the acceleration applied
      each frame. */
  ghost function SpeedAfter(n: nat, acceleration: real, maxSpeed: real): real {
    if n == 0 then 0.0
    else Accelerate(SpeedAfter(n - 1, acceleration, maxSpeed), acceleration, maxSpeed)
  }

  function Min(a: real, b: real): real {
    if a <= b then a else b
  }

  /** The speed after n frames without a cap: n accelerations added up. */
  ghost function Ramp(n: nat, acceleration: real): real {
    if n == 0 then 0.0 else Ramp(n - 1, acceleration) + acceleration
  }

  /** Adding the acceleration n times is multiplying it by n. */
  lemma {:induction false} RampIsProduct(n: nat, acceleration: real)
    ensures Ramp(n, acceleration) == (n as real) * acceleration
  {
    if n > 0 {
      RampIsProduct(n - 1, acceleration);
      assert (n as real) * acceleration == ((n - 1) as real) * acceleration + acceleration;
    }
  }

  /** The capped speed is the uncapped ramp, cut off at the maximum. */
  lemma {:induction false} SpeedFollowsRamp(n: nat, acceleration: real, maxSpeed: real)
    requires acceleration > 0.0 && maxSpeed >= 0.0
    ensures SpeedAfter(n, acceleration, maxSpeed) == Min(Ramp(n, acceleration), maxSpeed)
  {
    if n > 0 {
      SpeedFollowsRamp(n - 1, acceleration, maxSpeed);
    }
  }

  /** From rest, the speed ramps up linearly by the acceleration each frame
      until it reaches the maximum speed, and then stays there. */
  lemma {:induction false} SpeedRampsToMax(n: nat, acceleration: real, maxSpeed: real)
    requires acceleration > 0.0 && maxSpeed >= 0.0
    ensures SpeedAfter(n, acceleration, maxSpeed) == Min((n as real) * acceleration, maxSpeed)
  {
    SpeedFollowsRamp(n, acceleration, maxSpeed);
    RampIsProduct(n, acceleration);
  }

  /** Forward force, scaled by the elapsed time against a reference frame,
      then friction. A car whose speed is zero gets no force: its velocity
      only decays by the friction factor. */
  function Propel(v: Vec, angle: real, speed: real, deltaTime: real, friction: real, num: Numerics): (r: Vec)
    ensures speed == 0.0 ==> r == Vec(v.x * friction, v.y * friction)
  {
    var scale := deltaTime / ReferenceFrame;
    var forwardX := num.cos(angle) * speed;
    var forwardY := num.sin(angle) * speed;
    Vec((v.x + forwardX * scale) * friction, (v.y + forwardY * scale) * friction)
  }

  /** Turning, acceleration, forward force and friction, in that order. */
  function Kinematics(c: Car, input: Input, deltaTime: real, num: Numerics): (r: Car)
    ensures SameTuning(r, c)
    ensures r.x == c.x && r.y == c.y && r.isDrifting == c.isDrifting
    ensures r.angle == Steer(c.angle, c.turnSpeed, input)
    ensures r.speed == Accelerate(c.speed, c.acceleration, c.maxSpeed)
  {
    var angle := Steer(c.angle, c.turnSpeed, input);
    var speed := Accelerate(c.speed, c.acceleration, c.maxSpeed);
    c.(angle := angle, speed := speed,
       velocity := Propel(c.velocity, angle, speed, deltaTime, c.friction, num))
  }

  /** What the drift detector measures: the direction of motion, the speed
      magnitude and the normalised heading-minus-motion angle. */
  datatype Motion = Motion(direction: real, magnitude: real, angleDiff: real)

  /** The measurement, with the angle difference brought into [-pi, pi]
      without changing the direction it names. */
  function Observe(c: Car, num: Numerics): (m: Motion)
    requires num.Valid()
    ensures -num.pi <= m.angleDiff <= num.pi
    ensures Coterminal(m.angleDiff, c.angle - m.direction, num.pi)
  {
    var direction := num.atan2(c.velocity.y, c.velocity.x);
    var magnitude := num.sqrt(c.velocity.x * c.velocity.x + c.velocity.y * c.velocity.y);
    Motion(direction, magnitude, NormalizeAngle(c.angle - direction, num.pi))
  }

  /** The drift test: pointing far enough from the direction of motion
      while moving fast enough. */
  predicate Drifting(m: Motion) {
    Abs(m.angleDiff) > DriftAngle && m.magnitude > DriftSpeed
  }

  /** The slip reconstruction: the velocity rebuilt from its forward part
      and its damped sideways part. */
  function Slip(m: Motion, driftAmount: real, num: Numerics): Vec {
    var forward := num.cos(m.angleDiff) * m.magnitude;
    var sideways := num.sin(m.angleDiff) * m.magnitude * driftAmount;
    Vec(num.cos(m.direction) * forward - num.sin(m.direction) * sideways,
        num.sin(m.direction) * forward + num.cos(m.direction) * sideways)
  }

  /** Drift detection and slip. The flag holds exactly when the angle
      difference exceeds 0.5 rad in magnitude and the speed exceeds 1.5;
      only a drifting car has its velocity rebuilt, and nothing else about
      the car changes. */
  function Drift(c: Car, m: Motion, num: Numerics): (r: Car)
    ensures r.isDrifting <==> Abs(m.angleDiff) > DriftAngle && m.magnitude > DriftSpeed
    ensures !r.isDrifting ==> r == c.(isDrifting := false)
    ensures r.(velocity := c.velocity, isDrifting := c.isDrifting) == c
  {
    if Drifting(m) then c.(isDrifting := true, velocity := Slip(m, c.driftAmount, num))
    else c.(isDrifting := false)
  }

  /** Integration: the position advances by one frame of velocity. */
  function Move(c: Car): (r: Car)
    ensures r.x - c.x == c.velocity.x && r.y - c.y == c.velocity.y
    ensures r.(x := c.x, y := c.y) == c
  {
    c.(x := c.x + c.velocity.x, y := c.y + c.velocity.y)
  }

  /** One axis of the car: its coordinate and velocity component. */
  datatype Axis = Axis(pos: real, vel: real)

  /** The two edge checks of one axis, low edge first. When the car fits
      (2 * half <= extent) the result is within [half, extent - half]; an
      axis on which neither check fires is untouched; an axis on which one
      fires is pinned to that edge with its velocity reversed and halved;
      a bounce never speeds the car up. */
  function Bounce(a: Axis, half: real, extent: real): (r: Axis)
    ensures 2.0 * half <= extent ==> half <= r.pos <= extent - half
    ensures half <= a.pos && a.pos + half <= extent ==> r == a
    ensures a.pos < half && 2.0 * half <= extent ==> r == Axis(half, -0.5 * a.vel)
    ensures half <= a.pos && a.pos + half > extent ==> r == Axis(extent - half, -0.5 * a.vel)
    ensures r.vel == a.vel || r.vel == -0.5 * a.vel || r.vel == 0.25 * a.vel
    ensures Abs(r.vel) <= Abs(a.vel)
  {
    var low := if a.pos - half < 0.0 then Axis(half, a.vel * Restitution) else a;
    if low.pos + half > extent then Axis(extent - half, low.vel * Restitution) else low
  }

  /** The four boundary checks: horizontal against half the width,
      vertical against half the height, each axis independently. A car that
      fits the canvas ends up inside it, and a velocity component changes
      only on an axis where a check fired. */
  function Clamp(c: Car, canvas: Canvas): (r: Car)
    ensures canvas.width >= c.width && canvas.height >= c.height ==> InBounds(r, canvas)
    ensures c.width / 2.0 <= c.x <= canvas.width - c.width / 2.0 ==>
              r.x == c.x && r.velocity.x == c.velocity.x
    ensures c.height / 2.0 <= c.y <= canvas.height - c.height / 2.0 ==>
              r.y == c.y && r.velocity.y == c.velocity.y
    ensures r.(x := c.x, y := c.y, velocity := c.velocity) == c
  {
    var horizontal := Bounce(Axis(c.x, c.velocity.x), c.width / 2.0, canvas.width);
    var vertical := Bounce(Axis(c.y, c.velocity.y), c.height / 2.0, canvas.height);
    c.(x := horizontal.pos, y := vertical.pos, velocity := Vec(horizontal.vel, vertical.vel))
  }

  /** A car after one physics step, with the speed magnitude the drift
      detector measured. */
  datatype Step = Step(car: Car, speedMagnitude: real)

  /** The car part of one physics step: kinematics, drift detection and
      slip, integration and the boundary clamp. It turns by the held flag,
      accelerates up to the cap, flags a drift exactly when the measured
      angle difference and speed exceed their thresholds, and leaves a car
      that fits inside the canvas; the tuning is untouched. */
  function Physics(c: Car, input: Input, deltaTime: real, canvas: Canvas, num: Numerics): (r: Step)
    requires num.Valid()
    ensures SameTuning(r.car, c)
    ensures r.car.angle == Steer(c.angle, c.turnSpeed, input)
    ensures r.car.speed == Accelerate(c.speed, c.acceleration, c.maxSpeed)
    ensures var m := Observe(Kinematics(c, input, deltaTime, num), num);
              && r.speedMagnitude == m.magnitude
              && (r.car.isDrifting <==> Abs(m.angleDiff) > DriftAngle && m.magnitude > DriftSpeed)
    ensures canvas.width >= c.width && canvas.height >= c.height ==> InBounds(r.car, canvas)
  {
    var moving := Kinematics(c, input, deltaTime, num);
    var m := Observe(moving, num);
    var drifted := Drift(moving, m, num);
    Step(Clamp(Move(drifted), canvas), m.magnitude)
  }

  /** The point half a car length behind the centre, along the heading. */
  function RearPoint(c: Car, num: Numerics): Vec {
    Vec(c.x + num.cos(c.angle + num.pi) * (c.height / 2.0),
        c.y + num.sin(c.angle + num.pi) * (c.height / 2.0))
  }
}
