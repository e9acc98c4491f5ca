# DCmotor control, modelled in Dafny

A model of the non-blocking brushed DC motor controller of `Carlo47/DCmotor-control`
(MicroPython on an ESP8266 with an L298N dual H-bridge). A motor has a PWM enable
output and two direction pins. The class `DCmotor` (`lib/dcMotor.py`) sets direction
and speed at once (`rotate`, `reverseRotation`, `run`, `brake`). It also offers three
timed operations (`runFor`, `waitFor`, `accelerate`) that the caller polls on every
tick. Each call does a bounded amount of work and reports completion with a boolean.
The demo program `main.py` chains these into two cooperative tasks, each a phase
machine over an integer.

Files and modules:

- `duty_map.dfy`, module `DutyMap`: the speed-to-duty function `map` in exact real
  arithmetic, with `trunc` rounding toward zero. Also its closed integer form for the
  only call the motor makes, `map(speed, 0, 100, 0, 1023)`.
- `motor_model.dfy`, module `MotorModel`: one motor's fields as a value `MotorState`.
  Every operation is a function on it; a timed operation returns the new state and
  its completion flag.
- `motor_traces.dfy`, module `MotorTraces`: polling one timed operation from an armed
  motor on a sequence of ticks. It covers the duration of a cycle, what each call
  reports, and where a ramp ends.
- `motors.dfy`, module `Motors`: class `DCMotor` with the source's fields. Its methods
  update them step by step, as the source does. Each is proved to produce exactly the
  `MotorModel` state.
- `tasks.dfy`, module `Tasks`: `taskA` and `taskB` of `main.py`. Each is a function
  giving the effect of one call and the log of motor operations it made, with their
  arguments and the completion each reported. Replaying that log with the
  `MotorModel` operations gives back the motor state the call leaves. Classes
  `TaskA` and `TaskB` hold the motor and the phase (the globals `stateA`, `stateB`)
  and are proved to match those functions.

Modelling decisions:

- The clock `ticks_ms()` becomes a parameter `now`. The two reads of the clock in one
  call (for example in `runFor`, lib/dcMotor.py:65 and :69) are the same tick.
- Pin levels are booleans (`true` = high). Every operation keeps the two direction
  pins from being high together (`MotorModel.ValidState`): `rotate` and `run` drive
  exactly one of them, `brake` drives both low, and `reverseRotation` leaves them as
  they were. The PWM duty register is the integer field
  `duty`. Rotation codes are `CW = 1` and `CCW = 0`. `rotate` with any value other
  than `CW` selects `CCW`, as the source does.
- Integers are unbounded. Elapsed time is the plain difference `now - msPrevious`, as
  the source computes it (no `ticks_diff`).
- In `Motors.DCMotor.Accelerate` the clock parameter comes before `msWait`, so that
  `msWait` keeps the source's default of 10 ms.
- Behaviour of the code that a reader might not expect, which the model keeps:
  - The code subtracts clock values with plain `-`, so counter wraparound is not
    handled.
  - A constant-speed `accelerate` leaves `_firstRun` false (lib/dcMotor.py:123). It
    does not rearm the way the other completions do.
  - `trunc(v + 0.5)` rounds half up only for `v >= -0.5`.
    `DutyMap.NegativeEndpointNotExact` shows a negative lower output bound that is
    not reproduced.
- Speeds are not clamped, and `map` has no guard for `inMin == inMax`; the code has
  neither. The division by `inMax - inMin` is a `requires` of `DutyMap.Map`, since the
  source would raise an exception there.
- Out-of-range duties do occur in the demo's ramps. A ramp completes on the first call
  that finds the ramp speed one step past the target, and that call has already run the
  motor at that speed. So the demo's `accelerate(0, 100, 60)` ends by writing duty
  1033, above the 10-bit maximum of 1023. Its `accelerate(50, 0, 100)` ends by writing
  duty -9 (`MotorTraces.DemoRampsOvershoot`). In `main.py` the next operation
  overwrites that duty within the same call.

## Model

| member | source | states |
|---|---|---|
| `DutyMap.Trunc` | lib/dcMotor.py:35 | `trunc` rounds toward zero: for x >= 0 the result is the largest integer not above x; for x < 0 it is the smallest integer not below x |
| `DutyMap.Map` | lib/dcMotor.py:32-35 | the source's slope-intercept computation `trunc(m*x + q + 0.5)`, with slope m and intercept `q = outMax - m*inMax`, equals `trunc(v + 0.5)` where v is the point-slope line `outMin + m*(x - inMin)` through (inMin, outMin) at x |
| `DutyMap.TruncMonotone` | lib/dcMotor.py:35 | truncation is monotone non-decreasing |
| `DutyMap.TruncHalfAbove` | lib/dcMotor.py:35 | `trunc(n + 0.5) = n` for every non-negative integer n |
| `DutyMap.MapAtInMin` | lib/dcMotor.py:32-35 | `map(inMin, …) = outMin` whenever outMin >= 0 |
| `DutyMap.MapAtInMax` | lib/dcMotor.py:32-35 | `map(inMax, …) = outMax` whenever outMax >= 0 |
| `DutyMap.MapMonotone` | lib/dcMotor.py:32-35 | with inMin < inMax and outMin <= outMax, x <= y implies `map(x) <= map(y)` |
| `DutyMap.MapWithinRange` | lib/dcMotor.py:32-35 | an input inside inMin..inMax maps inside a non-negative outMin..outMax |
| `DutyMap.MapPercentFormula` | lib/dcMotor.py:57 | `map(speed, 0, 100, 0, 1023)` equals `(1023*speed + 50) / 100` truncated toward zero, for every integer speed |
| `DutyMap.PercentMapProperties` | lib/dcMotor.py:57 | speed 0 gives duty 0, 100 gives 1023 and 50 gives 512; every speed in 0..100 gives a duty in 0..1023; the mapping is monotone |
| `DutyMap.PercentMapUnclamped` | lib/dcMotor.py:57 | unclamped speeds pass through: 101 gives duty 1033 and -1 gives -9 |
| `DutyMap.NegativeEndpointNotExact` | lib/dcMotor.py:35 | with output range -3..0, input 0 maps to -2, not -3: `trunc(v+0.5)` is not round-half-up below -0.5 |
| `MotorModel.DutyMaxIs1023` | lib/dcMotor.py:47 | `(1 << PWMRESOLUTIONBITS) - 1` with 10 bits is 1023 |
| `MotorModel.Initial` | lib/dcMotor.py:39-52 | the constructed motor has pin1 high and pin2 low (the CW pattern), rotation CW, duty 0, bounds 0..1023, and is armed (`_firstRun`) |
| `MotorModel.Rotate` | lib/dcMotor.py:131-139 | `rotate(CW)` sets pin1 high, pin2 low and rotation CW; any other value sets pin1 low, pin2 high and rotation CCW; duty, bounds and timing fields are unchanged |
| `MotorModel.Reverse` | lib/dcMotor.py:143-144 | a CW/CCW rotation is flipped to the other one; pins, duty, bounds and timing fields are unchanged |
| `MotorModel.ReverseTakesEffectOnNextRun` | lib/dcMotor.py:143-144 | reversing leaves the pins as they were; the following `run` drives the opposite pin pattern |
| `MotorModel.Brake` | lib/dcMotor.py:149-152 | both pins low and duty 0; rotation, bounds and timing fields are unchanged |
| `MotorModel.Run` | lib/dcMotor.py:56-59 | duty becomes `map(speed, 0, 100, dutyMin, dutyMax)`; the pins show the exclusive pattern of the stored rotation, which is unchanged; on a valid motor a speed in 0..100 gives a duty in 0..1023 |
| `MotorModel.DutyWithinRange` | lib/dcMotor.py:56-57 | on a valid motor every speed in 0..100 gives a duty within 0..1023 |
| `MotorModel.RampMode` | lib/dcMotor.py:96-101 | the ramp is accelerating exactly when speedFrom < speedTo, decelerating exactly when speedFrom > speedTo, constant exactly when they are equal |
| `MotorModel.RunFor` | lib/dcMotor.py:63-72 | the first call of a cycle anchors at `now`; the call returns true exactly when `now - anchor > msToRun` (strictly), and `_firstRun` equals the result; on true the motor is braked; on false at a speed >= 0 the motor runs at that speed's duty with the rotation's pins; on false at a negative speed pins and duty are untouched |
| `MotorModel.WaitFor` | lib/dcMotor.py:76-83 | only the first call of a cycle brakes and anchors at `now`; later calls touch neither pins, duty nor anchor; the result is true exactly when `now - anchor > msToWait`, and `_firstRun` equals the result |
| `MotorModel.Accelerate` | lib/dcMotor.py:91-125 | every call runs at the ramp speed `sp` (speedFrom on the first call); rising: completes exactly when sp > speedTo, otherwise sp rises by exactly 1 and the anchor moves to `now` only when `now - anchor > msWait`; falling mirrors this; constant: completes at once; `_firstRun` is set afterwards exactly on a non-constant completion |
| `MotorTraces.RunForContinues` | lib/dcMotor.py:63-72 | polling runFor in a cycle that is under way: calls before the completing one saw at most msToRun ms since the anchor; the completing one saw more, and leaves the motor braked and rearmed |
| `MotorTraces.RunForCycle` | lib/dcMotor.py:63-72 | polling runFor from an armed motor: every call returns false while at most msToRun ms have passed since the first call. The first call that sees strictly more returns true and leaves the motor braked and rearmed. Until then a non-negative speed keeps the motor running at that speed |
| `MotorTraces.WaitForContinues` | lib/dcMotor.py:76-83 | polling waitFor in a cycle that is under way never touches pins or duty, and it completes exactly at the first call past msToWait |
| `MotorTraces.WaitForCycle` | lib/dcMotor.py:76-83 | polling waitFor from an armed motor: the motor is braked from the first call on; false while at most msToWait ms have passed, then true once, rearmed |
| `MotorTraces.RampUpContinues` | lib/dcMotor.py:104-112 | a rising ramp that is under way keeps sp within speedFrom..speedTo+1; its anchor `msPrevious` lies at least `(sp - speedFrom) * (msWait + 1)` ms after the ramp's start t0 (a cumulative bound); it completes only when sp = speedTo+1, at least `(speedTo - speedFrom + 1) * (msWait + 1)` ms after t0 |
| `MotorTraces.RampUp` | lib/dcMotor.py:91-112 | a rising ramp polled on non-decreasing ticks completes only when sp = speedTo+1, after running at that speed. This happens no earlier than `(speedTo - speedFrom + 1) * (msWait + 1)` ms after the first call, and it rearms |
| `MotorTraces.RampDownContinues` | lib/dcMotor.py:113-121 | a falling ramp that is under way keeps sp within speedTo-1..speedFrom; its anchor `msPrevious` lies at least `(speedFrom - sp) * (msWait + 1)` ms after the ramp's start t0 (a cumulative bound); it completes only when sp = speedTo-1, at least `(speedFrom - speedTo + 1) * (msWait + 1)` ms after t0 |
| `MotorTraces.RampDown` | lib/dcMotor.py:91-121 | a falling ramp completes only when sp = speedTo-1, after running at that speed. This happens no earlier than `(speedFrom - speedTo + 1) * (msWait + 1)` ms after the first call, and it rearms |
| `MotorTraces.DemoRampsOvershoot` | main.py:89-95 | the completing call of `accelerate(0, 100, _)` writes duty 1033, and that of `accelerate(50, 0, _)` writes duty -9 |
| `MotorTraces.ConstantRampDoesNotRearm` | lib/dcMotor.py:122-124 | `accelerate(v, v, _)` completes on its first call after running once at v and leaves the motor disarmed; a following runFor does not re-anchor and measures time from the accelerate call |
| `Motors.DCMotor.constructor` | lib/dcMotor.py:39-52 | the new object holds the given id and the initial state of `MotorModel.Initial` |
| `Motors.DCMotor.Run` | lib/dcMotor.py:56-59 | the fields become `MotorModel.Run` of the old fields |
| `Motors.DCMotor.RunFor` | lib/dcMotor.py:63-72 | the fields and the returned flag are those of `MotorModel.RunFor` |
| `Motors.DCMotor.WaitFor` | lib/dcMotor.py:76-83 | the fields and the returned flag are those of `MotorModel.WaitFor` |
| `Motors.DCMotor.Accelerate` | lib/dcMotor.py:91-125 | the fields and the returned flag are those of `MotorModel.Accelerate` |
| `Motors.DCMotor.Rotate` | lib/dcMotor.py:131-139 | the fields become `MotorModel.Rotate` of the old fields |
| `Motors.DCMotor.ReverseRotation` | lib/dcMotor.py:143-144 | the fields become `MotorModel.Reverse` of the old fields |
| `Motors.DCMotor.Brake` | lib/dcMotor.py:149-152 | the fields become `MotorModel.Brake` of the old fields |
| `Motors.DCMotor.Id` | lib/dcMotor.py:156-157 | returns the identifier given at construction |
| `Tasks.TaskAStep` | main.py:66-74 | the phase stays in {0, 1}. A call in phase 0 first polls `runFor(speed, msRun)`, logged with the result `MotorModel.RunFor` gives, and moves to 1 only when that was true; a call in phase 1 first polls `waitFor(msStop)` with the result `MotorModel.WaitFor` gives. The log is one of the listed sequences: after runFor completes, the same call polls `waitFor(msStop)`, which brakes and anchors at `now`. reverseRotation is called exactly when waitFor returned true, and the phase is then 0; a phase-1 call stays in phase 1 when waitFor returned false and moves to 0 only with the log `[waitFor true, reverseRotation]`. The rotation flips exactly when reverseRotation is called |
| `Tasks.TaskAStepReplays` | main.py:66-74 | replaying the log of one taskA call with the `MotorModel` operations, from the old motor state, reproduces every logged completion and ends in the motor state the call leaves: no motor operation happens outside the log |
| `Tasks.TaskBStep` | main.py:86-101 | the phase stays in 0..3. The first operation of a call is the phase's own one, with the docstring's arguments (`accelerate(0, 100, 60)`, `runFor(50, 2000)`, `accelerate(50, 0, 100)`, `waitFor(5000)`), logged with the result the `MotorModel` operation gives, and the phase changes exactly when it returned true. A call in phase 3 makes only that waitFor and leaves the motor `MotorModel.WaitFor` gives. After the deceleration completes, the call brakes, reverses, and then polls `waitFor(5000)` in the same call |
| `Tasks.TaskBStepUnfolds` | main.py:86-101 | a taskB call whose phase operation completes continues exactly as a call entered in the next phase, with brake() and reverseRotation() in between after the deceleration; one whose operation does not complete makes no other call |
| `Tasks.TaskBStepReplays` | main.py:86-101 | the log of one taskB call is the cascade of main.py: each phase's operation, continuing to the next phase only on completion and ending after phase 3; replaying it with the `MotorModel` operations from the old motor state reproduces every logged completion and ends in the motor state the call leaves |
| `Tasks.TaskBAdvancesOnePhase` | main.py:86-101 | from any state taskB can be in, one call keeps the phase or moves it one step along 0 -> 1 -> 2 -> 3 -> 0. The call that moves 2 -> 3 leaves the motor braked, with waitFor(5000) anchored at `now` |
| `Tasks.TaskBStartsInvariant` | main.py:58 | a freshly constructed motor with phase 0 satisfies taskB's invariant |
| `Tasks.TaskA.constructor` | main.py:57 | the task starts in phase 0 on the given motor |
| `Tasks.TaskA.Poll` | main.py:66-74 | phase and motor fields become those of `TaskAStep`; the phase stays in {0, 1} |
| `Tasks.TaskB.constructor` | main.py:58 | the task starts in phase 0 on the given armed motor |
| `Tasks.TaskB.Poll` | main.py:86-101 | phase and motor fields become those of `TaskBStep`; the phase stays or advances by one step of the cycle |

## Left out

- PWM and pin construction (`machine.Pin`, `machine.PWM`), the PWM frequency and the
  pin numbers (lib/dcMotor.py:22, 41-43; main.py:54-55). These are hardware bindings.
  The outputs they drive are plain fields.
- `ticks_ms()` and counter wraparound. The clock is a parameter. The source subtracts
  with plain `-`, so no wraparound-safety is claimed.
- Floating point. `map` is computed on exact reals. ESP8266 MicroPython uses
  single-precision floats, and the model makes no claim at that level.
- `map` with non-integer arguments. Every call site passes integers.
- The LED blink (main.py:48-51, 105), the `while True` polling loop (main.py:104-107)
  and the wiring docstring. These are I/O and scheduling plumbing.
- `Motors.DCMotor.Id`: the identifier is a string here. In the source it is whatever
  object the caller passes.
- In main.py the motor is a module global passed to `taskA`/`taskB`, and the phase is
  a separate global. The model binds each task's motor and phase into one object.
- Every motor operation made within one `taskA` or `taskB` call sees the same clock
  value `now`. In main.py each motor method reads `ticks_ms()` itself, so for example
  the `accelerate` at main.py:95 and the `waitFor` at main.py:100 of the same call may
  see different ticks. "Anchored at `now`" in `Tasks.TaskAStep` and
  `Tasks.TaskBAdvancesOnePhase` therefore means the tick of the task call, not a
  clock read of its own.
