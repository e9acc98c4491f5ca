/**
 * Properties of polling the timed operations of lib/dcMotor.py once per
 * tick: how long a cycle lasts, what each call reports, and where a ramp ends.
 */
module MotorTraces {
  import opened DutyMap
  import opened MotorModel

  /** runFor in a cycle already anchored: the result is decided by elapsed time alone. */
  lemma {:induction false} RunForContinues(s: MotorState, speed: int, msToRun: int, ticks: seq<int>)
    requires !s.firstRun
    ensures var p := PollUntilDone(s, RunForOp(speed, msToRun), ticks);
            && (forall i :: 0 <= i < p.calls - 1 ==> ticks[i] - s.msPrevious <= msToRun)
            && (p.done ==> ticks[p.calls - 1] - s.msPrevious > msToRun && p.motor.firstRun && Braked(p.motor))
            && (!p.done ==> (forall i :: 0 <= i < |ticks| ==> ticks[i] - s.msPrevious <= msToRun)
                            && !p.motor.firstRun && p.motor.msPrevious == s.msPrevious)
            && (!p.done && ticks != [] && 0 <= speed ==> p.motor.duty == DutyFor(s, speed) && Drives(p.motor))
            && SameBounds(p.motor, s)
    decreases |ticks|
  {
    if ticks != [] {
      var o := RunFor(s, speed, msToRun, ticks[0]);
      if !o.done {
        var rest := ticks[1..];
        RunForContinues(o.motor, speed, msToRun, rest);
        var q := PollUntilDone(o.motor, RunForOp(speed, msToRun), rest);
        assert PollUntilDone(s, RunForOp(speed, msToRun), ticks) == Poll(q.motor, q.calls + 1, q.done);
        forall i | 1 <= i < |ticks| ensures ticks[i] == rest[i - 1] { }
      }
    }
  }

  /**
   * runFor(speed, msToRun) polled from an armed motor: every call before the
   * completing one saw at most msToRun ms since the first call; the call that
   * completes is exactly the first that sees strictly more, and it leaves the
   * motor braked and rearmed. Until then the motor runs at `speed` when it is
   * not negative.
   */
  lemma {:induction false} RunForCycle(s: MotorState, speed: int, msToRun: int, ticks: seq<int>)
    requires s.firstRun && ticks != []
    ensures var p := PollUntilDone(s, RunForOp(speed, msToRun), ticks);
            && (forall i :: 0 <= i < p.calls - 1 ==> ticks[i] - ticks[0] <= msToRun)
            && (p.done ==> ticks[p.calls - 1] - ticks[0] > msToRun && p.motor.firstRun && Braked(p.motor))
            && (!p.done ==> (forall i :: 0 <= i < |ticks| ==> ticks[i] - ticks[0] <= msToRun)
                            && !p.motor.firstRun && p.motor.msPrevious == ticks[0])
            && (!p.done && 0 <= speed ==> p.motor.duty == DutyFor(s, speed) && Drives(p.motor))
  {
    var o := RunFor(s, speed, msToRun, ticks[0]);
    if !o.done {
      var rest := ticks[1..];
      RunForContinues(o.motor, speed, msToRun, rest);
      var q := PollUntilDone(o.motor, RunForOp(speed, msToRun), rest);
      assert PollUntilDone(s, RunForOp(speed, msToRun), ticks) == Poll(q.motor, q.calls + 1, q.done);
      forall i | 1 <= i < |ticks| ensures ticks[i] == rest[i - 1] { }
    }
  }

  /** waitFor in a cycle already anchored: it never touches pins or duty. */
  lemma {:induction false} WaitForContinues(s: MotorState, msToWait: int, ticks: seq<int>)
    requires !s.firstRun
    ensures var p := PollUntilDone(s, WaitForOp(msToWait), ticks);
            && (forall i :: 0 <= i < p.calls - 1 ==> ticks[i] - s.msPrevious <= msToWait)
            && (p.done ==> ticks[p.calls - 1] - s.msPrevious > msToWait && p.motor.firstRun)
            && (!p.done ==> (forall i :: 0 <= i < |ticks| ==> ticks[i] - s.msPrevious <= msToWait)
                            && !p.motor.firstRun && p.motor.msPrevious == s.msPrevious)
            && p.motor.pin1 == s.pin1 && p.motor.pin2 == s.pin2 && p.motor.duty == s.duty
    decreases |ticks|
  {
    if ticks != [] {
      var o := WaitFor(s, msToWait, ticks[0]);
      if !o.done {
        var rest := ticks[1..];
        WaitForContinues(o.motor, msToWait, rest);
        var q := PollUntilDone(o.motor, WaitForOp(msToWait), rest);
        assert PollUntilDone(s, WaitForOp(msToWait), ticks) == Poll(q.motor, q.calls + 1, q.done);
        forall i | 1 <= i < |ticks| ensures ticks[i] == rest[i - 1] { }
      }
    }
  }

  /**
   * waitFor(msToWait) polled from an armed motor: the motor is braked by the
   * first call and stays braked; the call that completes is exactly the first
   * that sees strictly more than msToWait ms since the first call, and it rearms.
   */
  lemma {:induction false} WaitForCycle(s: MotorState, msToWait: int, ticks: seq<int>)
    requires s.firstRun && ticks != []
    ensures var p := PollUntilDone(s, WaitForOp(msToWait), ticks);
            && Braked(p.motor)
            && (forall i :: 0 <= i < p.calls - 1 ==> ticks[i] - ticks[0] <= msToWait)
            && (p.done ==> ticks[p.calls - 1] - ticks[0] > msToWait && p.motor.firstRun)
            && (!p.done ==> (forall i :: 0 <= i < |ticks| ==> ticks[i] - ticks[0] <= msToWait)
                            && !p.motor.firstRun && p.motor.msPrevious == ticks[0])
  {
    var o := WaitFor(s, msToWait, ticks[0]);
    if !o.done {
      var rest := ticks[1..];
      WaitForContinues(o.motor, msToWait, rest);
      var q := PollUntilDone(o.motor, WaitForOp(msToWait), rest);
      assert PollUntilDone(s, WaitForOp(msToWait), ticks) == Poll(q.motor, q.calls + 1, q.done);
      forall i | 1 <= i < |ticks| ensures ticks[i] == rest[i - 1] { }
    }
  }

  /**
   * A rising ramp started at tick t0 and under way: `sp` is between speedFrom
   * and speedTo + 1, and each of the sp - speedFrom steps taken so far waited
   * more than msWait ms.
   */
  predicate RampingUp(s: MotorState, speedFrom: int, speedTo: int, msWait: int, t0: int)
  {
    && !s.firstRun
    && s.accelMode == ACCELERATING
    && speedFrom <= s.sp <= speedTo + 1
    && s.msPrevious - t0 >= (s.sp - speedFrom) * (msWait + 1)
  }

  lemma {:induction false} RampUpContinues(s: MotorState, speedFrom: int, speedTo: int, msWait: int, t0: int, ticks: seq<int>)
    requires RampingUp(s, speedFrom, speedTo, msWait, t0)
    requires NonDecreasing(ticks) && (ticks != [] ==> s.msPrevious <= ticks[0])
    ensures var p := PollUntilDone(s, AccelerateOp(speedFrom, speedTo, msWait), ticks);
            && SameBounds(p.motor, s)
            && (p.done ==> && ticks[p.calls - 1] - t0 >= (speedTo - speedFrom + 1) * (msWait + 1)
                           && p.motor.sp == speedTo + 1
                           && p.motor.duty == DutyFor(s, speedTo + 1)
                           && p.motor.firstRun)
            && (!p.done ==> RampingUp(p.motor, speedFrom, speedTo, msWait, t0))
    decreases |ticks|
  {
    if ticks != [] {
      var now := ticks[0];
      var o := Accelerate(s, speedFrom, speedTo, msWait, now);
      if !o.done {
        if now - s.msPrevious > msWait {
          assert (s.sp + 1 - speedFrom) * (msWait + 1) == (s.sp - speedFrom) * (msWait + 1) + (msWait + 1);
        }
        assert RampingUp(o.motor, speedFrom, speedTo, msWait, t0);
        var rest := ticks[1..];
        assert NonDecreasing(rest);
        assert rest != [] ==> o.motor.msPrevious <= rest[0];
        RampUpContinues(o.motor, speedFrom, speedTo, msWait, t0, rest);
        var q := PollUntilDone(o.motor, AccelerateOp(speedFrom, speedTo, msWait), rest);
        assert PollUntilDone(s, AccelerateOp(speedFrom, speedTo, msWait), ticks) == Poll(q.motor, q.calls + 1, q.done);
        assert q.done ==> ticks[q.calls] == rest[q.calls - 1];
      }
    }
  }

  /**
   * accelerate(speedFrom, speedTo, msWait) with speedFrom < speedTo, polled
   * from an armed motor on non-decreasing ticks: it completes only on a call
   * that finds sp = speedTo + 1, so that call's run is one step past the
   * target, and not before (speedTo - speedFrom + 1) * (msWait + 1) ms have
   * passed since the first call. Until then sp stays within speedFrom..speedTo + 1.
   */
  lemma {:induction false} RampUp(s: MotorState, speedFrom: int, speedTo: int, msWait: int, ticks: seq<int>)
    requires s.firstRun && speedFrom < speedTo
    requires NonDecreasing(ticks) && ticks != []
    ensures var p := PollUntilDone(s, AccelerateOp(speedFrom, speedTo, msWait), ticks);
            && (p.done ==> && ticks[p.calls - 1] - ticks[0] >= (speedTo - speedFrom + 1) * (msWait + 1)
                           && p.motor.sp == speedTo + 1
                           && p.motor.duty == DutyFor(s, speedTo + 1)
                           && p.motor.firstRun)
            && (!p.done ==> !p.motor.firstRun && speedFrom <= p.motor.sp <= speedTo + 1)
  {
    var t0 := ticks[0];
    var o := Accelerate(s, speedFrom, speedTo, msWait, t0);
    assert !o.done;
    assert RampingUp(o.motor, speedFrom, speedTo, msWait, t0);
    var rest := ticks[1..];
    assert NonDecreasing(rest);
    assert rest != [] ==> o.motor.msPrevious <= rest[0];
    RampUpContinues(o.motor, speedFrom, speedTo, msWait, t0, rest);
    var q := PollUntilDone(o.motor, AccelerateOp(speedFrom, speedTo, msWait), rest);
    assert PollUntilDone(s, AccelerateOp(speedFrom, speedTo, msWait), ticks) == Poll(q.motor, q.calls + 1, q.done);
    assert q.done ==> ticks[q.calls] == rest[q.calls - 1];
  }

  /** The falling counterpart of RampingUp. */
  predicate RampingDown(s: MotorState, speedFrom: int, speedTo: int, msWait: int, t0: int)
  {
    && !s.firstRun
    && s.accelMode == DECELERATING
    && speedTo - 1 <= s.sp <= speedFrom
    && s.msPrevious - t0 >= (speedFrom - s.sp) * (msWait + 1)
  }

  lemma {:induction false} RampDownContinues(s: MotorState, speedFrom: int, speedTo: int, msWait: int, t0: int, ticks: seq<int>)
    requires RampingDown(s, speedFrom, speedTo, msWait, t0)
    requires NonDecreasing(ticks) && (ticks != [] ==> s.msPrevious <= ticks[0])
    ensures var p := PollUntilDone(s, AccelerateOp(speedFrom, speedTo, msWait), ticks);
            && SameBounds(p.motor, s)
            && (p.done ==> && ticks[p.calls - 1] - t0 >= (speedFrom - speedTo + 1) * (msWait + 1)
                           && p.motor.sp == speedTo - 1
                           && p.motor.duty == DutyFor(s, speedTo - 1)
                           && p.motor.firstRun)
            && (!p.done ==> RampingDown(p.motor, speedFrom, speedTo, msWait, t0))
    decreases |ticks|
  {
    if ticks != [] {
      var now := ticks[0];
      var o := Accelerate(s, speedFrom, speedTo, msWait, now);
      if !o.done {
        if now - s.msPrevious > msWait {
          assert (speedFrom - (s.sp - 1)) * (msWait + 1) == (speedFrom - s.sp) * (msWait + 1) + (msWait + 1);
        }
        assert RampingDown(o.motor, speedFrom, speedTo, msWait, t0);
        var rest := ticks[1..];
        assert NonDecreasing(rest);
        assert rest != [] ==> o.motor.msPrevious <= rest[0];
        RampDownContinues(o.motor, speedFrom, speedTo, msWait, t0, rest);
        var q := PollUntilDone(o.motor, AccelerateOp(speedFrom, speedTo, msWait), rest);
        assert PollUntilDone(s, AccelerateOp(speedFrom, speedTo, msWait), ticks) == Poll(q.motor, q.calls + 1, q.done);
        assert q.done ==> ticks[q.calls] == rest[q.calls - 1];
      }
    }
  }

  /**
   * accelerate(speedFrom, speedTo, msWait) with speedFrom > speedTo, polled
   * from an armed motor on non-decreasing ticks: it completes only on a call
   * that finds sp = speedTo - 1, and not before (speedFrom - speedTo + 1) *
   * (msWait + 1) ms have passed since the first call.
   */
  lemma {:induction false} RampDown(s: MotorState, speedFrom: int, speedTo: int, msWait: int, ticks: seq<int>)
    requires s.firstRun && speedFrom > speedTo
    requires NonDecreasing(ticks) && ticks != []
    ensures var p := PollUntilDone(s, AccelerateOp(speedFrom, speedTo, msWait), ticks);
            && (p.done ==> && ticks[p.calls - 1] - ticks[0] >= (speedFrom - speedTo + 1) * (msWait + 1)
                           && p.motor.sp == speedTo - 1
                           && p.motor.duty == DutyFor(s, speedTo - 1)
                           && p.motor.firstRun)
            && (!p.done ==> !p.motor.firstRun && speedTo - 1 <= p.motor.sp <= speedFrom)
  {
    var t0 := ticks[0];
    var o := Accelerate(s, speedFrom, speedTo, msWait, t0);
    assert !o.done;
    assert RampingDown(o.motor, speedFrom, speedTo, msWait, t0);
    var rest := ticks[1..];
    assert NonDecreasing(rest);
    assert rest != [] ==> o.motor.msPrevious <= rest[0];
    RampDownContinues(o.motor, speedFrom, speedTo, msWait, t0, rest);
    var q := PollUntilDone(o.motor, AccelerateOp(speedFrom, speedTo, msWait), rest);
    assert PollUntilDone(s, AccelerateOp(speedFrom, speedTo, msWait), ticks) == Poll(q.motor, q.calls + 1, q.done);
    assert q.done ==> ticks[q.calls] == rest[q.calls - 1];
  }

  /**
   * The ramps of the bundled demo end out of the 10-bit duty range on their
   * completing call: accelerate(0, 100, _) last runs at 101 % (duty 1033) and
   * accelerate(50, 0, _) at -1 % (duty -9).
   */
  lemma DemoRampsOvershoot(s: MotorState, msUp: int, msDown: int, ticks: seq<int>)
    requires s.firstRun && ValidState(s)
    requires NonDecreasing(ticks) && ticks != []
    ensures PollUntilDone(s, AccelerateOp(0, 100, msUp), ticks).done ==>
              PollUntilDone(s, AccelerateOp(0, 100, msUp), ticks).motor.duty == 1033
    ensures PollUntilDone(s, AccelerateOp(50, 0, msDown), ticks).done ==>
              PollUntilDone(s, AccelerateOp(50, 0, msDown), ticks).motor.duty == -9
  {
    DutyMaxIs1023();
    RampUp(s, 0, 100, msUp, ticks);
    RampDown(s, 50, 0, msDown, ticks);
    PercentMapUnclamped();
  }

  /**
   * accelerate(v, v, msWait) completes on its very first call, having run
   * once at v, but leaves the motor disarmed: a timed operation started next
   * does not re-anchor and measures its time from the accelerate call.
   */
  lemma ConstantRampDoesNotRearm(s: MotorState, v: int, msWait: int, now: int, speed: int, msToRun: int, later: int)
    requires s.firstRun
    ensures var a := Accelerate(s, v, v, msWait, now);
            && a.done && !a.motor.firstRun && a.motor.duty == DutyFor(s, v)
            && (RunFor(a.motor, speed, msToRun, later).done <==> later - now > msToRun)
  {
  }
}
