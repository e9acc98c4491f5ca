/**
 * Class `DCmotor` of lib/dcMotor.py. The PWM channel and the two direction
 * pins become the fields `duty`, `pin1` and `pin2`; every method updates the
 * fields step by step as the source does, and its postcondition says the new
 * state is the one MotorModel gives for the old state.
 */
module Motors {
  import opened DutyMap
  import opened MotorModel

  class DCMotor {
    const id: string
    const dutyMin: int
    const dutyMax: int
    var pin1: bool
    var pin2: bool
    var duty: int
    var rotation: int
    var firstRun: bool
    var msPrevious: int
    var accelMode: int
    var sp: int

    /** The value of all fields. */
    function State(): MotorState
      reads this
    {
      MotorState(pin1, pin2, duty, rotation, dutyMin, dutyMax, firstRun, msPrevious, accelMode, sp)
    }

    ghost predicate Valid()
      reads this
    {
      ValidState(State())
    }

    /** The PWM pin, frequency and pin numbers of the source's constructor are hardware bindings. */
    constructor (motorId: string)
      ensures Valid() && id == motorId
      ensures State() == Initial()
    {
      id := motorId;
      dutyMax := Pow2(PWM_RESOLUTION_BITS) - 1;
      dutyMin := 0;
      duty := 0;
      pin1 := true;
      pin2 := false;
      rotation := CW;
      firstRun := true;
      msPrevious := 0;
      accelMode := 0;
      sp := 0;
    }

    method Run(speed: int)
      requires Valid()
      modifies this
      ensures Valid() && State() == MotorModel.Run(old(State()), speed)
    {
      duty := Map(speed, 0, 100, dutyMin, dutyMax);
      Rotate(rotation);
    }

    method RunFor(speed: int, msToRun: int, now: int) returns (done: bool)
      requires Valid()
      modifies this
      ensures Valid()
      ensures Step(State(), done) == MotorModel.RunFor(old(State()), speed, msToRun, now)
    {
      if firstRun {
        msPrevious := now;
        firstRun := false;
      }
      if speed >= 0 {
        Run(speed);
      }
      if now - msPrevious > msToRun {
        Brake();
        firstRun := true;
      }
      done := firstRun;
    }

    method WaitFor(msToWait: int, now: int) returns (done: bool)
      requires Valid()
      modifies this
      ensures Valid()
      ensures Step(State(), done) == MotorModel.WaitFor(old(State()), msToWait, now)
    {
      if firstRun {
        Brake();
        msPrevious := now;
        firstRun := false;
      }
      if now - msPrevious > msToWait {
        firstRun := true;
      }
      done := firstRun;
    }

    /** The clock comes before `msWait` so that `msWait` keeps its default of 10 ms. */
    method Accelerate(speedFrom: int, speedTo: int, now: int, msWait: int := 10) returns (done: bool)
      requires Valid()
      modifies this
      ensures Valid()
      ensures Step(State(), done) == MotorModel.Accelerate(old(State()), speedFrom, speedTo, msWait, now)
    {
      if firstRun {
        sp := speedFrom;
        msPrevious := now;
        if speedFrom < speedTo {
          accelMode := ACCELERATING;
        }
        if speedFrom > speedTo {
          accelMode := DECELERATING;
        }
        if speedFrom == speedTo {
          accelMode := CONSTANT;
        }
        firstRun := false;
      }
      Run(sp);
      if accelMode == ACCELERATING {
        if sp <= speedTo {
          var ms := now;
          if ms - msPrevious > msWait {
            msPrevious := ms;
            sp := sp + 1;
          }
        } else {
          firstRun := true;
          return true;
        }
      }
      if accelMode == DECELERATING {
        if sp >= speedTo {
          var ms := now;
          if ms - msPrevious > msWait {
            msPrevious := ms;
            sp := sp - 1;
          }
        } else {
          firstRun := true;
          return true;
        }
      }
      if accelMode == CONSTANT {
        firstRun := false;
        return true;
      }
      return false;
    }

    method Rotate(direction: int)
      requires Valid()
      modifies this
      ensures Valid() && State() == MotorModel.Rotate(old(State()), direction)
    {
      if direction == CW {
        pin1 := true;
        pin2 := false;
        rotation := CW;
      } else {
        pin1 := false;
        pin2 := true;
        rotation := CCW;
      }
    }

    method ReverseRotation()
      requires Valid()
      modifies this
      ensures Valid() && State() == Reverse(old(State()))
    {
      rotation := if rotation == CCW then CW else CCW;
    }

    method Brake()
      requires Valid()
      modifies this
      ensures Valid() && State() == MotorModel.Brake(old(State()))
    {
      pin1 := false;
      pin2 := false;
      duty := 0;
    }

    /** The motor's identifier, as given to the constructor. */
    method Id() returns (r: string)
      ensures r == id
    {
      r := id;
    }
  }
}
