/**
 * What one `DCmotor` of lib/dcMotor.py does, as functions on a value that
 * holds every field of the object: the two direction pins, the PWM duty, the
 * stored rotation, the duty bounds and the bookkeeping shared by the timed
 * operations. The class in module Motors is proved to do exactly this.
 * The clock is the parameter `now`; every read of it in one call is the same tick.
 */
module MotorModel {
  import opened DutyMap

  /** Direction codes. */
  const CCW: int := 0
  const CW: int := 1

  /** Width of the PWM duty register in bits. */
  const PWM_RESOLUTION_BITS: nat := 10

  /** Ramp directions stored in `accelMode`. */
  const ACCELERATING: int := 0
  const DECELERATING: int := 1
  const CONSTANT: int := 2

  /** 2 to the power n, the value of `1 << n`. */
  function Pow2(n: nat): (r: nat)
  {
    if n == 0 then 1 else 2 * Pow2(n - 1)
  }

  /** Largest duty for the resolution: (1 << PWM_RESOLUTION_BITS) - 1. */
  const DUTY_MAX: int := Pow2(PWM_RESOLUTION_BITS) - 1

  lemma DutyMaxIs1023()
    ensures DUTY_MAX == 1023
  {
    assert Pow2(10) == 1024;
  }

  predicate IsDirection(d: int)
  {
    d == CW || d == CCW
  }

  /** The fields of one motor. Pin levels are `true` for high. */
  datatype MotorState = MotorState(
    pin1: bool,
    pin2: bool,
    duty: int,
    rotation: int,
    dutyMin: int,
    dutyMax: int,
    firstRun: bool,
    msPrevious: int,
    accelMode: int,
    sp: int)

  /**
   * What every motor satisfies between calls; in particular the two
   * direction pins are never high together.
   */
  predicate ValidState(s: MotorState)
  {
    && IsDirection(s.rotation)
    && !(s.pin1 && s.pin2)
    && s.dutyMin == 0
    && s.dutyMax == DUTY_MAX
    && (s.accelMode == ACCELERATING || s.accelMode == DECELERATING || s.accelMode == CONSTANT)
  }

  /** The direction pins show the exclusive pattern of the stored rotation. */
  predicate Drives(s: MotorState)
  {
    s.pin1 == (s.rotation == CW) && s.pin2 == (s.rotation != CW)
  }

  /** Both direction pins low and no duty: the motor terminals are shorted. */
  predicate Braked(s: MotorState)
  {
    !s.pin1 && !s.pin2 && s.duty == 0
  }

  /** Timing fields are equal: pins, duty and rotation may differ. */
  predicate SameTiming(s: MotorState, t: MotorState)
  {
    s.firstRun == t.firstRun && s.msPrevious == t.msPrevious && s.accelMode == t.accelMode && s.sp == t.sp
  }

  /** The duty bounds are equal. */
  predicate SameBounds(s: MotorState, t: MotorState)
  {
    s.dutyMin == t.dutyMin && s.dutyMax == t.dutyMax
  }

  /** The duty a call `run(speed)` writes. */
  function DutyFor(s: MotorState, speed: int): (duty: int)
  {
    Map(speed, 0, 100, s.dutyMin, s.dutyMax)
  }

  /** The state `__init__` leaves: CW pin pattern, duty 0, armed for a timed operation. */
  function Initial(): (s: MotorState)
    ensures ValidState(s) && Drives(s)
    ensures s.rotation == CW && s.pin1 && !s.pin2 && s.duty == 0
    ensures s.firstRun
  {
    MotorState(true, false, 0, CW, 0, DUTY_MAX, true, 0, ACCELERATING, 0)
  }

  /** rotate(direction): CW for the code CW, CCW for any other value; duty untouched. */
  function Rotate(s: MotorState, direction: int): (r: MotorState)
    ensures Drives(r) && IsDirection(r.rotation)
    ensures direction == CW ==> r.pin1 && !r.pin2 && r.rotation == CW
    ensures direction != CW ==> !r.pin1 && r.pin2 && r.rotation == CCW
    ensures r.duty == s.duty && SameTiming(r, s) && SameBounds(r, s)
    ensures ValidState(s) ==> ValidState(r)
  {
    if direction == CW then s.(pin1 := true, pin2 := false, rotation := CW)
    else s.(pin1 := false, pin2 := true, rotation := CCW)
  }

  /** reverseRotation(): flips the stored rotation; touches no pin and no duty. */
  function Reverse(s: MotorState): (r: MotorState)
    ensures IsDirection(s.rotation) ==> IsDirection(r.rotation) && r.rotation != s.rotation
    ensures r.pin1 == s.pin1 && r.pin2 == s.pin2 && r.duty == s.duty && SameTiming(r, s) && SameBounds(r, s)
    ensures ValidState(s) ==> ValidState(r)
  {
    s.(rotation := if s.rotation == CCW then CW else CCW)
  }

  /** reverseRotation() alone leaves the pins as they were; the next run() drives the other way. */
  lemma ReverseTakesEffectOnNextRun(s: MotorState, speed: int)
    requires IsDirection(s.rotation) && Drives(s)
    ensures Reverse(s).pin1 == s.pin1 && Reverse(s).pin2 == s.pin2
    ensures Run(Reverse(s), speed).pin1 == s.pin2 && Run(Reverse(s), speed).pin2 == s.pin1
  {
  }

  /** brake(): both pins low, duty 0; rotation and timing untouched. */
  function Brake(s: MotorState): (r: MotorState)
    ensures Braked(r)
    ensures r.rotation == s.rotation && SameTiming(r, s) && SameBounds(r, s)
    ensures ValidState(s) ==> ValidState(r)
  {
    s.(pin1 := false, pin2 := false, duty := 0)
  }

  /** run(speed): writes the mapped duty, then re-asserts the pins of the stored rotation. */
  function Run(s: MotorState, speed: int): (r: MotorState)
    ensures r.duty == DutyFor(s, speed) && Drives(r)
    ensures IsDirection(s.rotation) ==> r.rotation == s.rotation
    ensures SameTiming(r, s) && SameBounds(r, s)
    ensures ValidState(s) ==> ValidState(r)
    ensures ValidState(s) && 0 <= speed <= 100 ==> 0 <= r.duty <= DUTY_MAX
  {
    DutyWithinRange(s, speed);
    Rotate(s.(duty := DutyFor(s, speed)), s.rotation)
  }

  /** On a valid motor every speed of 0..100 gives a duty the 10-bit register holds. */
  lemma DutyWithinRange(s: MotorState, speed: int)
    ensures ValidState(s) && 0 <= speed <= 100 ==> 0 <= DutyFor(s, speed) <= DUTY_MAX
  {
    if ValidState(s) && 0 <= speed <= 100 {
      MapWithinRange(speed, 0, 100, s.dutyMin, s.dutyMax);
    }
  }

  /** A polled operation's result: the new state and whether it reported completion. */
  datatype Step = Step(motor: MotorState, done: bool)

  /** How `accelerate` classifies a ramp on its first call. */
  function RampMode(speedFrom: int, speedTo: int): (mode: int)
    ensures mode == ACCELERATING <==> speedFrom < speedTo
    ensures mode == DECELERATING <==> speedFrom > speedTo
    ensures mode == CONSTANT <==> speedFrom == speedTo
  {
    if speedFrom < speedTo then ACCELERATING
    else if speedFrom > speedTo then DECELERATING
    else CONSTANT
  }

  /**
   * One call runFor(speed, msToRun) at tick `now`. The first call of a cycle
   * anchors the time; a negative speed leaves the outputs alone; the call
   * reports completion, brakes and rearms once strictly more than msToRun
   * milliseconds have passed since the anchor.
   */
  function RunFor(s: MotorState, speed: int, msToRun: int, now: int): (r: Step)
    ensures r.motor.msPrevious == (if s.firstRun then now else s.msPrevious)
    ensures r.done <==> now - r.motor.msPrevious > msToRun
    ensures r.motor.firstRun == r.done
    ensures r.done ==> Braked(r.motor)
    ensures !r.done && speed >= 0 ==> r.motor.duty == DutyFor(s, speed) && Drives(r.motor)
    ensures !r.done && speed < 0 ==> r.motor.pin1 == s.pin1 && r.motor.pin2 == s.pin2 && r.motor.duty == s.duty
    ensures IsDirection(s.rotation) ==> r.motor.rotation == s.rotation
    ensures r.motor.accelMode == s.accelMode && r.motor.sp == s.sp && SameBounds(r.motor, s)
    ensures ValidState(s) ==> ValidState(r.motor)
  {
    var anchored := if s.firstRun then s.(msPrevious := now, firstRun := false) else s;
    var driven := if speed >= 0 then Run(anchored, speed) else anchored;
    if now - driven.msPrevious > msToRun then Step(Brake(driven).(firstRun := true), true)
    else Step(driven, false)
  }

  /**
   * One call waitFor(msToWait) at tick `now`. Only the first call of a cycle
   * brakes and anchors; later calls leave pins and duty alone. It reports
   * completion and rearms once strictly more than msToWait milliseconds have passed.
   */
  function WaitFor(s: MotorState, msToWait: int, now: int): (r: Step)
    ensures s.firstRun ==> Braked(r.motor) && r.motor.msPrevious == now
    ensures !s.firstRun ==> r.motor.pin1 == s.pin1 && r.motor.pin2 == s.pin2 && r.motor.duty == s.duty
                            && r.motor.msPrevious == s.msPrevious
    ensures r.done <==> now - r.motor.msPrevious > msToWait
    ensures r.motor.firstRun == r.done
    ensures r.motor.rotation == s.rotation && r.motor.accelMode == s.accelMode && r.motor.sp == s.sp
    ensures SameBounds(r.motor, s)
    ensures ValidState(s) ==> ValidState(r.motor)
  {
    var anchored := if s.firstRun then Brake(s).(msPrevious := now, firstRun := false) else s;
    if now - anchored.msPrevious > msToWait then Step(anchored.(firstRun := true), true)
    else Step(anchored, false)
  }

  /**
   * One call accelerate(speedFrom, speedTo, msWait) at tick `now`. The first
   * call of a cycle loads the ramp speed `sp`, anchors the time and classifies
   * the ramp. Every call then runs at `sp`. A rising ramp steps `sp` up by one
   * each time strictly more than msWait milliseconds have passed (re-anchoring
   * at the step) while sp <= speedTo, and reports completion on the first call
   * that finds sp > speedTo; a falling ramp mirrors this. A constant ramp
   * reports completion at once and does not rearm.
   */
  function Accelerate(s: MotorState, speedFrom: int, speedTo: int, msWait: int, now: int): (r: Step)
    ensures var sp := if s.firstRun then speedFrom else s.sp;
            && r.motor.duty == DutyFor(s, sp) && Drives(r.motor)
            && r.motor.accelMode == (if s.firstRun then RampMode(speedFrom, speedTo) else s.accelMode)
    ensures var sp := if s.firstRun then speedFrom else s.sp;
            var anchor := if s.firstRun then now else s.msPrevious;
            var mode := r.motor.accelMode;
            && (mode == ACCELERATING ==>
                  && (r.done <==> sp > speedTo)
                  && (!r.done && now - anchor > msWait ==> r.motor.sp == sp + 1 && r.motor.msPrevious == now)
                  && (!(!r.done && now - anchor > msWait) ==> r.motor.sp == sp && r.motor.msPrevious == anchor))
            && (mode == DECELERATING ==>
                  && (r.done <==> sp < speedTo)
                  && (!r.done && now - anchor > msWait ==> r.motor.sp == sp - 1 && r.motor.msPrevious == now)
                  && (!(!r.done && now - anchor > msWait) ==> r.motor.sp == sp && r.motor.msPrevious == anchor))
            && (mode == CONSTANT ==> r.done && r.motor.sp == sp && r.motor.msPrevious == anchor)
            && (mode != ACCELERATING && mode != DECELERATING && mode != CONSTANT ==> !r.done)
    ensures r.motor.firstRun == (r.done && r.motor.accelMode != CONSTANT)
    ensures IsDirection(s.rotation) ==> r.motor.rotation == s.rotation
    ensures SameBounds(r.motor, s)
    ensures ValidState(s) ==> ValidState(r.motor)
  {
    var started :=
      if s.firstRun then s.(sp := speedFrom, msPrevious := now, accelMode := RampMode(speedFrom, speedTo), firstRun := false)
      else s;
    var driven := Run(started, started.sp);
    if driven.accelMode == ACCELERATING then
      if driven.sp <= speedTo then
        if now - driven.msPrevious > msWait then Step(driven.(msPrevious := now, sp := driven.sp + 1), false)
        else Step(driven, false)
      else Step(driven.(firstRun := true), true)
    else if driven.accelMode == DECELERATING then
      if driven.sp >= speedTo then
        if now - driven.msPrevious > msWait then Step(driven.(msPrevious := now, sp := driven.sp - 1), false)
        else Step(driven, false)
      else Step(driven.(firstRun := true), true)
    else if driven.accelMode == CONSTANT then Step(driven.(firstRun := false), true)
    else Step(driven, false)
  }

  /** The three timed operations, with their arguments. */
  datatype TimedOp =
    | RunForOp(speed: int, msToRun: int)
    | WaitForOp(msToWait: int)
    | AccelerateOp(speedFrom: int, speedTo: int, msWait: int)

  /** One call of a timed operation at tick `now`. */
  function Perform(s: MotorState, op: TimedOp, now: int): (r: Step)
  {
    match op
    case RunForOp(speed, msToRun) => RunFor(s, speed, msToRun, now)
    case WaitForOp(msToWait) => WaitFor(s, msToWait, now)
    case AccelerateOp(speedFrom, speedTo, msWait) => Accelerate(s, speedFrom, speedTo, msWait, now)
  }

  /** The outcome of polling an operation: final state, number of calls made, completion. */
  datatype Poll = Poll(motor: MotorState, calls: nat, done: bool)

  /**
   * Calls `op` once per tick of `ticks`, in order, until a call reports
   * completion or the ticks run out.
   */
  function PollUntilDone(s: MotorState, op: TimedOp, ticks: seq<int>): (p: Poll)
    ensures p.calls <= |ticks|
    ensures p.done ==> 0 < p.calls
    ensures !p.done ==> p.calls == |ticks|
    decreases |ticks|
  {
    if ticks == [] then Poll(s, 0, false)
    else
      var o := Perform(s, op, ticks[0]);
      if o.done then Poll(o.motor, 1, true)
      else
        var p := PollUntilDone(o.motor, op, ticks[1..]);
        Poll(p.motor, p.calls + 1, p.done)
  }

  predicate NonDecreasing(ticks: seq<int>)
  {
    forall i, j :: 0 <= i < j < |ticks| ==> ticks[i] <= ticks[j]
  }
}
