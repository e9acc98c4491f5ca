/**
 * The two cooperative tasks of main.py. Each keeps a phase number (the
 * module globals stateA and stateB) and, on every call, walks a cascade of
 * `if`s: a phase advances only when the timed operation it polls reports
 * completion, and a later `if` may then run in the same call. The functions
 * TaskAStep and TaskBStep give the effect of one call together with the log
 * of motor operations it made, which replays with the MotorModel operations
 * to the motor state the call leaves; classes TaskA and TaskB hold the phase
 * and the motor and are proved to do exactly that. Every operation of one
 * call sees the same tick `now`.
 */
module Tasks {
  import opened MotorModel
  import opened Motors

  /**
   * A motor operation made by a task: a polled timed operation, with its
   * arguments and the completion it reported, brake() or reverseRotation().
   */
  datatype Call =
    | Timed(op: TimedOp, done: bool)
    | BrakeCall
    | ReverseCall

  /** The effect of one task call: new phase, new motor state, operations made in order. */
  datatype TaskStep = TaskStep(phase: int, motor: MotorState, calls: seq<Call>)

  /**
   * Replaying `calls` on the motor `s` at tick `now`, one after the other:
   * every timed operation reports the completion logged for it, and the
   * motor ends in `final`.
   */
  predicate Replays(s: MotorState, calls: seq<Call>, now: int, final: MotorState)
    decreases |calls|
  {
    if calls == [] then final == s
    else match calls[0]
      case Timed(op, done) =>
        var o := Perform(s, op, now);
        o.done == done && Replays(o.motor, calls[1..], now, final)
      case BrakeCall => Replays(Brake(s), calls[1..], now, final)
      case ReverseCall => Replays(Reverse(s), calls[1..], now, final)
  }

  /** Replaying one log and then another replays their concatenation. */
  lemma {:induction false} ReplaysAppend(s: MotorState, xs: seq<Call>, ys: seq<Call>, now: int, mid: MotorState, final: MotorState)
    requires Replays(s, xs, now, mid) && Replays(mid, ys, now, final)
    ensures Replays(s, xs + ys, now, final)
    decreases |xs|
  {
    if xs == [] {
      assert xs + ys == ys;
    } else {
      assert (xs + ys)[0] == xs[0];
      assert (xs + ys)[1..] == xs[1..] + ys;
      match xs[0]
      case Timed(op, done) => ReplaysAppend(Perform(s, op, now).motor, xs[1..], ys, now, mid, final);
      case BrakeCall => ReplaysAppend(Brake(s), xs[1..], ys, now, mid, final);
      case ReverseCall => ReplaysAppend(Reverse(s), xs[1..], ys, now, mid, final);
    }
  }

  /** A log of one polled operation replays to that operation's result. */
  lemma ReplaysTimed(s: MotorState, op: TimedOp, now: int)
    ensures var o := Perform(s, op, now);
            Replays(s, [Timed(op, o.done)], now, o.motor)
  {
    var o := Perform(s, op, now);
    assert [Timed(op, o.done)][1..] == [];
  }

  /**
   * One call taskA(motor, speed, msRun, msStop) at tick `now`: phase 0 polls
   * runFor(speed, msRun) and moves to 1 when it completes; phase 1 then polls
   * waitFor(msStop) and, when that completes, reverses the rotation and goes
   * back to 0.
   */
  function TaskAStep(phase: int, m: MotorState, speed: int, msRun: int, msStop: int, now: int): (r: TaskStep)
    ensures (phase == 0 || phase == 1) ==> (r.phase == 0 || r.phase == 1) && r.calls != []
    ensures phase == 0 ==> r.calls[0] == Timed(RunForOp(speed, msRun), RunFor(m, speed, msRun, now).done)
    ensures phase == 1 ==> r.calls[0] == Timed(WaitForOp(msStop), WaitFor(m, msStop, now).done)
    ensures phase == 0 && r.phase == 1 ==>
              r.calls == [Timed(RunForOp(speed, msRun), true), Timed(WaitForOp(msStop), false)]
    ensures phase == 0 && r.phase == 0 ==>
              || r.calls == [Timed(RunForOp(speed, msRun), false)]
              || r.calls == [Timed(RunForOp(speed, msRun), true), Timed(WaitForOp(msStop), true), ReverseCall]
    ensures phase == 1 ==>
              || r.calls == [Timed(WaitForOp(msStop), false)]
              || r.calls == [Timed(WaitForOp(msStop), true), ReverseCall]
    ensures phase == 1 && r.phase == 1 ==> r.calls == [Timed(WaitForOp(msStop), false)]
    ensures phase == 1 && r.phase == 0 ==> r.calls == [Timed(WaitForOp(msStop), true), ReverseCall]
    ensures phase != 0 && phase != 1 ==> r == TaskStep(phase, m, [])
    ensures ReverseCall in r.calls <==> Timed(WaitForOp(msStop), true) in r.calls
    ensures ReverseCall in r.calls ==> r.phase == 0
    ensures IsDirection(m.rotation) ==> (r.motor.rotation != m.rotation <==> ReverseCall in r.calls)
    ensures phase == 0 && Timed(RunForOp(speed, msRun), true) in r.calls ==>
              Braked(r.motor) && r.motor.msPrevious == now && r.motor.firstRun == (msStop < 0)
    ensures ValidState(m) ==> ValidState(r.motor)
  {
    var a :=
      if phase == 0 then
        var o := RunFor(m, speed, msRun, now);
        TaskStep(if o.done then 1 else 0, o.motor, [Timed(RunForOp(speed, msRun), o.done)])
      else TaskStep(phase, m, []);
    if a.phase == 1 then
      var o := WaitFor(a.motor, msStop, now);
      if o.done then TaskStep(0, Reverse(o.motor), a.calls + [Timed(WaitForOp(msStop), true), ReverseCall])
      else TaskStep(1, o.motor, a.calls + [Timed(WaitForOp(msStop), false)])
    else a
  }

  /** The motor state one taskA call leaves is the one its log replays to from the old state. */
  lemma TaskAStepReplays(phase: int, m: MotorState, speed: int, msRun: int, msStop: int, now: int)
    ensures var r := TaskAStep(phase, m, speed, msRun, msStop, now);
            Replays(m, r.calls, now, r.motor)
  {
    var r := TaskAStep(phase, m, speed, msRun, msStop, now);
    var run := RunFor(m, speed, msRun, now);
    var start := if phase == 0 then run.motor else m;
    var head := if phase == 0 then [Timed(RunForOp(speed, msRun), run.done)] else [];
    if phase == 0 {
      ReplaysTimed(m, RunForOp(speed, msRun), now);
    }
    assert Replays(m, head, now, start);
    if (phase == 0 && run.done) || phase == 1 {
      var w := WaitFor(start, msStop, now);
      ReplaysTimed(start, WaitForOp(msStop), now);
      if w.done {
        ReplaysAppend(start, [Timed(WaitForOp(msStop), true)], [ReverseCall], now, w.motor, Reverse(w.motor));
        ReplaysAppend(m, head, [Timed(WaitForOp(msStop), true), ReverseCall], now, start, Reverse(w.motor));
      } else {
        ReplaysAppend(m, head, [Timed(WaitForOp(msStop), false)], now, start, w.motor);
      }
    }
  }

  /** The operation taskB polls in each phase. */
  function PhaseOpB(phase: int): (op: TimedOp)
    requires 0 <= phase <= 3
  {
    if phase == 0 then AccelerateOp(0, 100, 60)
    else if phase == 1 then RunForOp(50, 2000)
    else if phase == 2 then AccelerateOp(50, 0, 100)
    else WaitForOp(5000)
  }

  /**
   * The shape of the log of one taskB call entered in `phase` and left in
   * `final`: the phase's operation; if it did not complete, nothing else.
   * A completed deceleration is followed by brake() and reverseRotation().
   * A completion then goes on with the next phase's log, except that the
   * call ends after phase 3, in phase 0.
   */
  predicate CascadeB(phase: int, calls: seq<Call>, final: int)
    requires 0 <= phase <= 3
    decreases 4 - phase
  {
    && calls != []
    && calls[0].Timed? && calls[0].op == PhaseOpB(phase)
    && if !calls[0].done then calls == [calls[0]] && final == phase
       else if phase == 3 then calls == [calls[0]] && final == 0
       else if phase == 2 then |calls| >= 3 && calls[1..3] == [BrakeCall, ReverseCall] && CascadeB(3, calls[3..], final)
       else CascadeB(phase + 1, calls[1..], final)
  }

  /**
   * One call taskB(motor) at tick `now`: phase 0 polls the ramp
   * accelerate(0, 100, 60), phase 1 runFor(50, 2000), phase 2 the ramp
   * accelerate(50, 0, 100), after which it brakes and reverses, and phase 3
   * waitFor(5000); each completion moves to the next phase, 3 wrapping to 0.
   */
  function TaskBStep(phase: int, m: MotorState, now: int): (r: TaskStep)
    ensures 0 <= phase <= 3 ==> 0 <= r.phase <= 3
    ensures !(0 <= phase <= 3) ==> r == TaskStep(phase, m, [])
    ensures 0 <= phase <= 3 ==> r.calls != []
    ensures 0 <= phase <= 3 ==> r.calls[0] == Timed(PhaseOpB(phase), Perform(m, PhaseOpB(phase), now).done)
    ensures 0 <= phase <= 3 ==> (r.calls[0].done <==> r.phase != phase)
    ensures phase == 3 ==> r.calls == [Timed(WaitForOp(5000), r.phase == 0)] && r.motor == WaitFor(m, 5000, now).motor
    ensures phase == 2 && Timed(AccelerateOp(50, 0, 100), true) in r.calls ==>
              && |r.calls| == 4
              && r.calls[..3] == [Timed(AccelerateOp(50, 0, 100), true), BrakeCall, ReverseCall]
              && r.calls[3].Timed? && r.calls[3].op == WaitForOp(5000)
              && r.phase == (if r.calls[3].done then 0 else 3)
    ensures ReverseCall in r.calls <==> Timed(AccelerateOp(50, 0, 100), true) in r.calls
    ensures IsDirection(m.rotation) ==> (r.motor.rotation != m.rotation <==> ReverseCall in r.calls)
    ensures ValidState(m) ==> ValidState(r.motor)
  {
    var a0 :=
      if phase == 0 then
        var o := Accelerate(m, 0, 100, 60, now);
        TaskStep(if o.done then 1 else 0, o.motor, [Timed(AccelerateOp(0, 100, 60), o.done)])
      else TaskStep(phase, m, []);
    var a1 :=
      if a0.phase == 1 then
        var o := RunFor(a0.motor, 50, 2000, now);
        TaskStep(if o.done then 2 else 1, o.motor, a0.calls + [Timed(RunForOp(50, 2000), o.done)])
      else a0;
    var a2 :=
      if a1.phase == 2 then
        var o := Accelerate(a1.motor, 50, 0, 100, now);
        if o.done then
          TaskStep(3, Reverse(Brake(o.motor)), a1.calls + [Timed(AccelerateOp(50, 0, 100), true), BrakeCall, ReverseCall])
        else TaskStep(2, o.motor, a1.calls + [Timed(AccelerateOp(50, 0, 100), false)])
      else a1;
    if a2.phase == 3 then
      var o := WaitFor(a2.motor, 5000, now);
      TaskStep(if o.done then 0 else 3, o.motor, a2.calls + [Timed(WaitForOp(5000), o.done)])
    else a2
  }

  /**
   * A taskB call whose phase operation completes goes on as a call entered in
   * the next phase, only a deceleration being followed by brake() and
   * reverseRotation(); one whose operation does not complete stops there.
   */
  lemma TaskBStepUnfolds(phase: int, m: MotorState, now: int)
    requires 0 <= phase <= 2
    ensures var op := PhaseOpB(phase);
            var o := Perform(m, op, now);
            var next := if phase == 2 then Reverse(Brake(o.motor)) else o.motor;
            var prefix := if phase == 2 then [Timed(op, true), BrakeCall, ReverseCall] else [Timed(op, true)];
            var t := TaskBStep(phase + 1, next, now);
            && (o.done ==> TaskBStep(phase, m, now) == TaskStep(t.phase, t.motor, prefix + t.calls))
            && (!o.done ==> TaskBStep(phase, m, now) == TaskStep(phase, o.motor, [Timed(op, false)]))
  {
  }

  /**
   * One taskB call makes the cascade of main.py, and the motor state it
   * leaves is the one its log replays to from the old state.
   */
  lemma {:induction false} TaskBStepReplays(phase: int, m: MotorState, now: int)
    requires 0 <= phase <= 3
    ensures var r := TaskBStep(phase, m, now);
            CascadeB(phase, r.calls, r.phase) && Replays(m, r.calls, now, r.motor)
    decreases 3 - phase
  {
    var op := PhaseOpB(phase);
    var o := Perform(m, op, now);
    ReplaysTimed(m, op, now);
    if phase == 3 {
      assert TaskBStep(phase, m, now) == TaskStep(if o.done then 0 else 3, o.motor, [Timed(op, o.done)]);
    } else if !o.done {
      TaskBStepUnfolds(phase, m, now);
    } else {
      TaskBStepUnfolds(phase, m, now);
      var next := if phase == 2 then Reverse(Brake(o.motor)) else o.motor;
      var prefix := if phase == 2 then [Timed(op, true), BrakeCall, ReverseCall] else [Timed(op, true)];
      var t := TaskBStep(phase + 1, next, now);
      TaskBStepReplays(phase + 1, next, now);
      if phase == 2 {
        assert [BrakeCall, ReverseCall][1..] == [ReverseCall];
        assert [ReverseCall][1..] == [];
        assert Replays(o.motor, [BrakeCall, ReverseCall], now, next);
        ReplaysAppend(m, [Timed(op, true)], [BrakeCall, ReverseCall], now, o.motor, next);
        assert [Timed(op, true)] + [BrakeCall, ReverseCall] == prefix;
        assert (prefix + t.calls)[3..] == t.calls;
      } else {
        assert (prefix + t.calls)[1..] == t.calls;
      }
      ReplaysAppend(m, prefix, t.calls, now, next, t.motor);
    }
  }

  /**
   * Where taskB can be between calls: a phase whose operation is not under
   * way has the motor armed; a ramp under way has its direction and its
   * speed within the ramp's range, one step past the target included.
   */
  predicate TaskBInvariant(phase: int, m: MotorState)
  {
    && ValidState(m)
    && 0 <= phase <= 3
    && (phase == 0 ==> m.firstRun || (m.accelMode == ACCELERATING && 0 <= m.sp <= 101))
    && (phase == 2 ==> m.firstRun || (m.accelMode == DECELERATING && -1 <= m.sp <= 50))
  }

  /**
   * From any state taskB can be in, one call advances the phase by at most
   * one step of 0 -> 1 -> 2 -> 3 -> 0 and keeps the invariant; the call that
   * finishes the deceleration also starts waitFor(5000): it brakes and
   * anchors at `now`.
   */
  lemma TaskBAdvancesOnePhase(phase: int, m: MotorState, now: int)
    requires TaskBInvariant(phase, m)
    ensures var r := TaskBStep(phase, m, now);
            && TaskBInvariant(r.phase, r.motor)
            && (r.phase == phase || r.phase == (phase + 1) % 4)
            && (phase == 2 && r.phase == 3 ==>
                  Braked(r.motor) && r.motor.msPrevious == now && !r.motor.firstRun)
  {
    var r := TaskBStep(phase, m, now);
    if phase == 0 {
      var o := Accelerate(m, 0, 100, 60, now);
      if o.done {
        assert o.motor.firstRun;
        var p := RunFor(o.motor, 50, 2000, now);
        assert !p.done;
        assert r == TaskStep(1, p.motor, [Timed(AccelerateOp(0, 100, 60), true), Timed(RunForOp(50, 2000), false)]);
      } else {
        assert r == TaskStep(0, o.motor, [Timed(AccelerateOp(0, 100, 60), false)]);
      }
    } else if phase == 1 {
      var o := RunFor(m, 50, 2000, now);
      if o.done {
        var p := Accelerate(o.motor, 50, 0, 100, now);
        assert !p.done;
        assert r.phase == 2 && r.motor == p.motor;
      } else {
        assert r == TaskStep(1, o.motor, [Timed(RunForOp(50, 2000), false)]);
      }
    } else if phase == 2 {
      var o := Accelerate(m, 50, 0, 100, now);
      if o.done {
        var b := Reverse(Brake(o.motor));
        assert b.firstRun;
        var w := WaitFor(b, 5000, now);
        assert !w.done;
        assert r.phase == 3 && r.motor == w.motor;
      } else {
        assert r == TaskStep(2, o.motor, [Timed(AccelerateOp(50, 0, 100), false)]);
      }
    } else {
      var w := WaitFor(m, 5000, now);
      assert r.motor == w.motor;
    }
  }

  lemma TaskBStartsInvariant()
    ensures TaskBInvariant(0, Initial())
  {
  }

  /** The task of motor A: the motor and the phase stateA. */
  class TaskA {
    const motor: DCMotor
    var phase: int

    ghost predicate Valid()
      reads this, motor
    {
      (phase == 0 || phase == 1) && motor.Valid()
    }

    constructor (motor: DCMotor)
      requires motor.Valid()
      ensures this.motor == motor && phase == 0 && Valid()
    {
      this.motor := motor;
      phase := 0;
    }

    method Poll(speed: int, msRun: int, msStop: int, now: int)
      requires Valid()
      modifies this, motor
      ensures Valid()
      ensures var r := TaskAStep(old(phase), old(motor.State()), speed, msRun, msStop, now);
              phase == r.phase && motor.State() == r.motor
    {
      if phase == 0 {
        var done := motor.RunFor(speed, msRun, now);
        if done {
          phase := 1;
        }
      }
      if phase == 1 {
        var done := motor.WaitFor(msStop, now);
        if done {
          motor.ReverseRotation();
          phase := 0;
        }
      }
    }
  }

  /** The task of motor B: the motor and the phase stateB. */
  class TaskB {
    const motor: DCMotor
    var phase: int

    ghost predicate Valid()
      reads this, motor
    {
      motor.Valid() && TaskBInvariant(phase, motor.State())
    }

    constructor (motor: DCMotor)
      requires motor.Valid() && motor.firstRun
      ensures this.motor == motor && phase == 0 && Valid()
    {
      this.motor := motor;
      phase := 0;
    }

    method Poll(now: int)
      requires Valid()
      modifies this, motor
      ensures Valid()
      ensures var r := TaskBStep(old(phase), old(motor.State()), now);
              phase == r.phase && motor.State() == r.motor
      ensures phase == old(phase) || phase == (old(phase) + 1) % 4
    {
      TaskBAdvancesOnePhase(phase, motor.State(), now);
      if phase == 0 {
        var done := motor.Accelerate(0, 100, now, 60);
        if done {
          phase := 1;
        }
      }
      if phase == 1 {
        var done := motor.RunFor(50, 2000, now);
        if done {
          phase := 2;
        }
      }
      if phase == 2 {
        var done := motor.Accelerate(50, 0, now, 100);
        if done {
          motor.Brake();
          motor.ReverseRotation();
          phase := 3;
        }
      }
      if phase == 3 {
        var done := motor.WaitFor(5000, now);
        if done {
          phase := 0;
        }
      }
    }
  }
}
