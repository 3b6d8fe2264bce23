# Drifting game: a verified model of its frame logic

The game is a single-screen driving toy. A car accelerates on its own. The
player steers it by holding the left or right half of the screen, and scores
one point for every frame in which the car drifts, meaning its heading points
well away from its direction of motion while it moves fast enough. A drifting
car leaves skid marks. These fade out and are kept in a FIFO buffer of at
most 200 marks.

This project models the discrete core of `script.js` as pure Dafny functions
over an immutable `GameState`:

- `InputTracker`: the two steering flags, set by a press on one half of the
  canvas and cleared by a release.
- `Angles`: the two normalisation loops that bring the heading-minus-motion
  angle into [-pi, pi]. Each loop is a recursive function whose termination
  is proved.
- `Vehicle`: the car record, with steering, capped acceleration, forward
  force with friction, drift detection and slip, integration, and the
  boundary clamp with its soft bounce.
- `SkidMarks`: the bounded buffer (push with drop-oldest, decay, filter) and
  what it promises about capacity, order and opacity.
- `Game`: the state record, the reset, the input handlers, the physics step
  `Update`, and the frame guard `GameLoop`. It also holds the wiring of
  browser events to handlers (`Dispatch`, `Run`) and an invariant that every
  handler keeps.

The host supplies pi, cos, sin, atan2 and sqrt. They are fields of the
`Numerics` parameter and stay uninterpreted: the model relies only on
pi > 0. The canvas size is passed with each call and each event, so a
resize between events is covered. The press position, `performance.now()`
at reset and the animation-frame timestamp are also inputs. Opacities and
coordinates are reals. The score is a natural number, because it starts at
0 and only ever grows by 1.

Three properties of the code that are easy to miss:

- The normalised angle lies in the closed interval [-pi, pi], and both ends
  can occur. An input of exactly -pi passes both loops unchanged, and an
  input of 3*pi comes out as pi.
- A mark loses 0.01 opacity per frame, starting in the frame that lays it.
  With at most one new mark per frame, the buffer never holds more than 99
  marks (`Game.SkidBufferNeverFull`). It does not fill up to 200 under
  continuous drifting, and the drop-oldest branch at script.js:161-163
  never runs. This holds under exact arithmetic.
- In the skid-emission test, the condition `speedMagnitude > 1` adds
  nothing: a drifting car already has a magnitude above 1.5. `Game.Update`
  states that a mark is laid exactly on drifting frames.

## Model

| member | source | states |
|---|---|---|
| `InputTracker.Press` | script.js:63-69 | After a press exactly one flag is set; left is set iff the press is left of the canvas midline, right iff it is not |
| `Game.HandleInputStart` | script.js:52-71 | Every press leaves the game started with exactly the pressed half held. A press during a game changes only the flags. The first press resets the car, the score, the skid marks and the clock |
| `Game.HandleInputEnd` | script.js:73-77 | A release leaves both flags clear and changes nothing else |
| `Vehicle.SetupCar` | script.js:28-45 | A fresh car sits at the centre of the canvas, points up (-pi/2), is at rest with zero velocity, is not drifting, has the standard 20x40 tuning, and lies inside any canvas at least its own size |
| `Game.ResetGame` | script.js:216-223 | A reset gives a fresh car from the setup: centred on the canvas, pointing up (-pi/2), at rest, not drifting, with the standard tuning. It zeroes the score, clears the flags and the skid marks, sets the clock to now, and the car starts inside a canvas of at least 20x40 |
| `Game.Boot` | script.js:7-13 | The page loads with the game not started, score 0, no flags held, no marks, and the car from the setup (created by the first resize, script.js:238) |
| `Game.BootValid` | script.js:7-13 | The state when the page has loaded (car set up by the first resize, score 0, no flags, no marks, game not started) satisfies the invariant |
| `Angles.WrapDown` | script.js:123 | The first loop ends at or below pi, changes the angle only by whole turns, leaves an angle at or below pi alone, and never overshoots below -pi |
| `Angles.WrapUp` | script.js:124 | The second loop ends at or above -pi, changes the angle only by whole turns, leaves an angle at or above -pi alone, and never overshoots above pi |
| `Angles.NormalizeAngle` | script.js:121-124 | The two loops together end in [-pi, pi], differ from the input by an integer multiple of 2*pi, and leave an input already in range unchanged |
| `Angles.NormalizeDependsOnDirectionOnly` | script.js:121-124 | Two inputs that differ by whole turns normalise to the same value, except that a half-turn direction may come out as pi or as -pi |
| `Angles.CoterminalInRange` | script.js:121-124 | Two angles in [-pi, pi] that name the same direction are equal or are the two ends pi and -pi |
| `Vehicle.Steer` | script.js:84-91 | Holding left turns by -turnSpeed, holding right by +turnSpeed, and holding both or neither leaves the heading unchanged |
| `Vehicle.Accelerate` | script.js:96-99 | The new speed never exceeds maxSpeed. It equals old speed + acceleration when that sum is within the cap and maxSpeed otherwise, and it does not fall when the acceleration is non-negative |
| `Vehicle.SpeedRampsToMax` | script.js:96-99 | After n frames from rest the speed is exactly min(n * acceleration, maxSpeed) |
| `Vehicle.Propel` | script.js:102-113 | At zero speed the forward force vanishes and the velocity is only scaled by the friction factor |
| `Vehicle.Kinematics` | script.js:84-113 | Turning, acceleration, force and friction change only heading, speed and velocity; the position, the drift flag and the tuning stay as they were |
| `Vehicle.Physics` | script.js:84-150 | The car part of a frame turns by the held flag, accelerates up to the cap, sets the drift flag iff the measured angle and speed thresholds are exceeded, reports the measured speed, keeps a fitting car inside the canvas, and leaves the tuning alone |
| `Vehicle.Observe` | script.js:117-124 | The measured angle difference lies in [-pi, pi] and names the same direction as heading minus direction of motion |
| `Vehicle.Drift` | script.js:127-137 | The drift flag holds iff the angle difference exceeds 0.5 in magnitude and the speed magnitude exceeds 1.5. A non-drifting car is unchanged apart from the cleared flag, and drifting changes only the velocity |
| `Vehicle.Bounce` | script.js:147-150 | On one axis, a car that fits ends within [half, extent - half]. An axis where no check fires is untouched; one check firing pins the car to that edge with velocity times -0.5; a bounce never increases the speed along the axis |
| `Vehicle.Clamp` | script.js:147-150 | A car no larger than the canvas ends inside it. A velocity component changes only on an axis whose check fired, and nothing but position and velocity changes |
| `Vehicle.Move` | script.js:142-143 | The position advances by exactly the velocity, and nothing else about the car changes |
| `SkidMarks.Push` | script.js:158-163 | The new mark is appended last. Below capacity nothing is dropped; at capacity exactly the oldest mark is dropped and the rest keep their order; a buffer within 200 marks stays within 200 |
| `SkidMarks.DimAll` | script.js:167 | The decay pass keeps every mark in its place and position and lowers each opacity by exactly 0.01 |
| `SkidMarks.KeepVisible` | script.js:168 | The filter returns exactly as many marks as have positive opacity, only such marks, in their original relative order |
| `SkidMarks.KeepVisibleKeepsVisible` | script.js:168 | Every mark with positive opacity survives the filter |
| `SkidMarks.KeepVisibleMultiplicity` | script.js:168 | Each mark with positive opacity occurs in the result exactly as often as in the input, and no other mark occurs: duplicates are neither merged nor dropped |
| `SkidMarks.KeepVisibleKeepsNewest` | script.js:168 | A visible newest mark is still the newest after the filter |
| `SkidMarks.KeepVisibleAllVisible` | script.js:168 | A buffer of visible marks passes the filter whole |
| `SkidMarks.DimAllCount` | script.js:167-168 | The marks still visible after the decay pass are exactly as many as the marks brighter than 0.01 before it |
| `SkidMarks.Fade` | script.js:167-168 | After decay and filter, every surviving mark has positive opacity, survivors keep their relative order among the dimmed marks, no mark is added, and a newest mark that stays visible is still the newest |
| `SkidMarks.FadeSurvivors` | script.js:167-168 | Every survivor of a fade equals some earlier mark with 0.01 less opacity, and every mark with opacity above 0.01 survives |
| `SkidMarks.FadeCount` | script.js:167-168 | A fade keeps exactly as many marks as had opacity above 0.01 |
| `SkidMarks.MarkLifetime` | script.js:167-168 | Under exact arithmetic, a mark laid at opacity 1.0 is present after n < 100 fades with opacity 1 - n/100, and gone after 100 fades |
| `SkidMarks.FadingIsShort` | script.js:167-168 | A buffer in which every mark is visible and no mark is brighter than its age allows holds fewer than 100 marks |
| `SkidMarks.FrameKeepsFading` | script.js:154-168 | One frame of the buffer, with or without a new full-opacity mark, keeps that shape |
| `Game.NewMark` | script.js:154-158 | A new mark has full opacity and sits at the rear point of the car |
| `Game.Update` | script.js:79-169 | Before the game starts the step does nothing. Otherwise it turns by the held flag and accelerates up to the cap. The drift flag holds iff the angle and speed thresholds are exceeded, and the score rises by exactly 1 on drifting frames and never falls. A car that fits ends inside the canvas. On a drifting frame the buffer is the old one with a new mark at the car's rear pushed and then faded, the new mark last; otherwise the buffer is only faded. The buffer stays within 200 marks, every remaining mark is visible, and input, clock and tuning are untouched |
| `Game.GameLoop` | script.js:202-214 | Before the game starts a frame changes nothing. Afterwards the clock always moves to the timestamp. With non-positive elapsed time nothing else changes; otherwise exactly one physics step runs over the elapsed time. Every frame keeps the invariant |
| `Game.UpdateIgnoresClock` | script.js:205-209 | The physics step neither reads nor writes the clock, so updating the clock before the step, as the callback does, gives the same state as updating it after |
| `Game.Dispatch` | script.js:225-232 | Presses go to the start handler and leave the game started with one flag held; a release or the mouse leaving clears both flags and changes nothing else; a frame keeps flags and start state. Nothing stops a started game, and before the start only the flags change |
| `Game.Run` | script.js:225-232 | No events change nothing; a started game stays started; with no press among the events an unstarted game keeps its car, score, marks and clock |
| `Game.RunConcat` | script.js:225-232 | Handling two batches of events in turn is the same as handling their concatenation |
| `Game.UpdateKeepsValid` | script.js:79-169 | The physics step keeps the invariant: exclusive flags, standard tuning, speed cap, and the end-of-frame shape of the skid buffer |
| `Game.DispatchKeepsValid` | script.js:225-232 | Every event handler keeps the invariant |
| `Game.RunKeepsValid` | script.js:225-232 | The invariant holds after any sequence of presses, releases and animation frames |
| `Game.DispatchKeepsScore` | script.js:216-219 | No handler lowers the score: the reset on the first press only ever finds a score of zero |
| `Game.RunKeepsScore` | script.js:47-50 | The score never decreases over any sequence of events |
| `Game.SkidBufferNeverFull` | script.js:160-163 | From the loaded page, after any events, the buffer holds fewer than 100 marks, so the capacity of 200 is never reached |
| `Game.RunKeepsInputExclusive` | script.js:63-75 | From the loaded page, after any events, the two flags are never both set and the speed stays at most 4 |

## Left out

- `draw` (script.js:171-200) is pure canvas rendering and holds no state.
- DOM lookups, `preventDefault`, `requestAnimationFrame` and the registration of the listeners are host I/O and scheduling. The listeners' wiring is modelled by `Game.Dispatch`, and the timestamps and press position are inputs.
- `resizeCanvas` (script.js:16-26) depends on layout queries. The canvas size is a parameter of every call and event. After the first resize the car always exists, so later resizes change only that size.
- The score display (`Math.floor` into the page in `updateScore`) is output only.
- Vehicle.Propel: states only the zero-speed case, because the forward force is built from cos and sin, which are left uninterpreted.
- Vehicle.Observe: states nothing about the direction or the magnitude, because they come from atan2 and sqrt.
- Game.Update: states position and velocity only through the boundary clamp. The slip reconstruction (`Vehicle.Slip`) and the skid-mark position (`Vehicle.RearPoint`) are modelled, but nothing is claimed about their values, since they depend on cos, sin, atan2 and sqrt.
- No claim that a car at rest is not drifting: that needs sqrt(0) = 0, and sqrt is uninterpreted.
- IEEE-754 doubles are not modelled; all arithmetic is exact. This affects three things. How many frames a mark survives under repeated `alpha -= 0.01` can differ by a frame in doubles. So can the bound of 99 marks. And for an astronomically large angle, subtracting 2*pi in doubles leaves the value unchanged, so the loops would not terminate.
- The local `turning` flag in `update` is never read, so it is not modelled.
