/**
 * The three stepper drivers (src/stepper_motor.cpp). Each stepper is driven by
 * a motion library whose internals are not part of this model: a `Stepper`
 * only records the last command it was given and the position it reports.
 * The module's own state is the per-motor timed-run table `runtime[]`.
 */
module StepperMotor {
  import opened Defines

  /** `MOTOR_COUNT`, the length of `steppers[]` and `runtime[]`. */
  const MOTOR_COUNT: nat := STEPPER_MOTOR_COUNT as nat

  /** The relative move that stands for "run until the deadline". */
  const FAR_TARGET_STEPS: i32 := 2000000000

  /** A command given to the motion library. */
  datatype StepperCommand = NoCommand | Move(offset: i32) | Halt

  /** One library stepper, seen from outside: its last command and its position. */
  datatype Stepper = Stepper(lastCommand: StepperCommand, position: i32)

  /** One entry of `runtime[]`. */
  datatype StepperRuntime = StepperRuntime(timedRunActive: bool, timedRunEndMs: u32)

  const InitialStepper: Stepper := Stepper(NoCommand, 0)
  const InitialRuntime: StepperRuntime := StepperRuntime(false, 0)

  /** `is_valid_motor`: motors are numbered from 1. */
  function IsValidMotor(motorNumber: u8): (b: bool)
    ensures b <==> 1 <= motorNumber as int <= MOTOR_COUNT
  {
    motorNumber >= 1 && motorNumber as nat <= MOTOR_COUNT
  }

  /** `idx_from_motor`: `motor_number - 1` on `uint8_t`. */
  function IdxFromMotor(motorNumber: u8): (i: u8)
    ensures IsValidMotor(motorNumber) ==> (i as int) < MOTOR_COUNT && i as int + 1 == motorNumber as int
    ensures motorNumber == 0 ==> i == 255
  {
    ((motorNumber as int - 1) % 0x100) as u8
  }

  /** Motor numbers 1..MOTOR_COUNT and indices 0..MOTOR_COUNT-1 correspond one to one. */
  lemma MotorNumbering(i: nat)
    requires i < MOTOR_COUNT
    ensures IsValidMotor((i + 1) as u8) && IdxFromMotor((i + 1) as u8) as nat == i
  {
  }

  /** A positive magnitude with the sign its direction gives: CW forward, CCW backward. */
  function Signed(magnitude: i32, direction: Direction): (r: i32)
    requires magnitude > 0
    ensures (r > 0 <==> direction == CW) && (r < 0 <==> direction == CCW)
    ensures r == magnitude || r == -magnitude
  {
    match direction
    case CW => magnitude
    case CCW => -magnitude
  }

  /** `Signed` loses nothing: magnitude and direction come back out of the offset. */
  lemma SignedRoundTrip(magnitude: i32, direction: Direction)
    requires magnitude > 0
    ensures var r := Signed(magnitude, direction);
            (if r > 0 then r else -r) == magnitude && (if r > 0 then CW else CCW) == direction
  {
  }

  /** The service task's test for one motor. */
  predicate Due(rt: StepperRuntime, now: u32)
  {
    rt.timedRunActive && Reached(now, rt.timedRunEndMs)
  }

  /** What one service pass does to one `runtime[]` entry. */
  function AfterServiceRuntime(rt: StepperRuntime, now: u32): (r: StepperRuntime)
    ensures r.timedRunActive <==> rt.timedRunActive && !Reached(now, rt.timedRunEndMs)
    ensures r.timedRunEndMs == rt.timedRunEndMs
  {
    if Due(rt, now) then rt.(timedRunActive := false) else rt
  }

  /**
   * What one service pass does to one stepper: a stop command when its timed
   * run is due, then the library's `run()` step, which leaves it at `position`.
   */
  function AfterServiceStepper(s: Stepper, rt: StepperRuntime, now: u32, position: i32): (r: Stepper)
    ensures r.lastCommand == if Due(rt, now) then Halt else s.lastCommand
    ensures r.position == position
  {
    Stepper(if Due(rt, now) then Halt else s.lastCommand, position)
  }

  /** The `runtime[]` entry after service passes at the clock values `nows`, in order. */
  function AfterPasses(rt: StepperRuntime, nows: seq<u32>): StepperRuntime
    decreases |nows|
  {
    if nows == [] then rt else AfterPasses(AfterServiceRuntime(rt, nows[0]), nows[1..])
  }

  /**
   * Service passes never set a timed flag: once cleared it stays cleared, and
   * the stored deadline is never rewritten.
   */
  lemma {:induction false} ClearedFlagStaysCleared(rt: StepperRuntime, nows: seq<u32>)
    ensures AfterPasses(rt, nows).timedRunEndMs == rt.timedRunEndMs
    ensures !rt.timedRunActive ==> !AfterPasses(rt, nows).timedRunActive
    decreases |nows|
  {
    if nows != [] {
      ClearedFlagStaysCleared(AfterServiceRuntime(rt, nows[0]), nows[1..]);
    }
  }

  /**
   * A timed run set at `start` for `timeMs` ms survives a pass `elapsed` ms
   * later exactly when `elapsed < timeMs`, across clock wrap-around (duration
   * at most 2^31 ms, elapsed span below 2^31 ms).
   */
  lemma {:induction false} TimedRunLifetime(start: u32, timeMs: u32, elapsed: u32)
    requires 0 < timeMs as int <= TWO_31 && elapsed as int < TWO_31
    ensures AfterServiceRuntime(StepperRuntime(true, WrapAdd(start, timeMs)), WrapAdd(start, elapsed)).timedRunActive
            <==> elapsed < timeMs
  {
    DeadlineAfterWrap(start, timeMs, elapsed);
  }

  /** The module's two arrays; each public entry point is one critical section. */
  class StepperBank {
    const steppers: array<Stepper>
    const runtime: array<StepperRuntime>

    ghost predicate Valid()
      reads this
    {
      steppers.Length == MOTOR_COUNT && runtime.Length == MOTOR_COUNT
    }

    /** Every timed flag cleared and every stepper told to stop. */
    ghost predicate AllStopped()
      reads this, steppers, runtime
      requires Valid()
    {
      forall i :: 0 <= i < MOTOR_COUNT ==> !runtime[i].timedRunActive && steppers[i].lastCommand == Halt
    }

    /** Zero-initialised `runtime[]`; `stepper_init` sets every position to 0. */
    constructor ()
      ensures Valid() && fresh(steppers) && fresh(runtime)
      ensures steppers[..] == [InitialStepper, InitialStepper, InitialStepper]
      ensures runtime[..] == [InitialRuntime, InitialRuntime, InitialRuntime]
    {
      steppers := new Stepper[MOTOR_COUNT](_ => InitialStepper);
      runtime := new StepperRuntime[MOTOR_COUNT](_ => InitialRuntime);
    }

    /**
     * `stepper_run_ms`: an invalid motor or a zero duration changes nothing;
     * otherwise a far relative move in `direction` and a deadline `now + timeMs`.
     */
    method RunMs(motorNumber: u8, now: u32, timeMs: u32, direction: Direction)
      requires Valid()
      modifies steppers, runtime
      ensures Valid()
      ensures !IsValidMotor(motorNumber) || timeMs == 0 ==>
                steppers[..] == old(steppers[..]) && runtime[..] == old(runtime[..])
      ensures IsValidMotor(motorNumber) && timeMs != 0 ==>
                var i := IdxFromMotor(motorNumber) as int;
                && steppers[..] == old(steppers[..])[i := old(steppers[i]).(lastCommand := Move(Signed(FAR_TARGET_STEPS, direction)))]
                && runtime[..] == old(runtime[..])[i := StepperRuntime(true, WrapAdd(now, timeMs))]
    {
      if !IsValidMotor(motorNumber) || timeMs == 0 {
        return;
      }
      var index := IdxFromMotor(motorNumber);
      var farTargetOffset := Signed(FAR_TARGET_STEPS, direction);
      steppers[index] := steppers[index].(lastCommand := Move(farTargetOffset));
      runtime[index] := StepperRuntime(true, WrapAdd(now, timeMs));
    }

    /**
     * `stepper_run_steps`: an invalid motor or a non-positive count changes
     * nothing; otherwise the timed flag is cleared and a relative move of
     * `steps` in `direction` is commanded.
     */
    method RunSteps(motorNumber: u8, steps: i32, direction: Direction)
      requires Valid()
      modifies steppers, runtime
      ensures Valid()
      ensures !IsValidMotor(motorNumber) || steps <= 0 ==>
                steppers[..] == old(steppers[..]) && runtime[..] == old(runtime[..])
      ensures IsValidMotor(motorNumber) && steps > 0 ==>
                var i := IdxFromMotor(motorNumber) as int;
                && steppers[..] == old(steppers[..])[i := old(steppers[i]).(lastCommand := Move(Signed(steps, direction)))]
                && runtime[..] == old(runtime[..])[i := old(runtime[i]).(timedRunActive := false)]
    {
      if !IsValidMotor(motorNumber) || steps <= 0 {
        return;
      }
      var index := IdxFromMotor(motorNumber);
      var signedSteps := Signed(steps, direction);
      runtime[index] := runtime[index].(timedRunActive := false);
      steppers[index] := steppers[index].(lastCommand := Move(signedSteps));
    }

    /** `stepper_stop`: for a valid motor, clear its timed flag and command a stop. */
    method Stop(motorNumber: u8)
      requires Valid()
      modifies steppers, runtime
      ensures Valid()
      ensures !IsValidMotor(motorNumber) ==>
                steppers[..] == old(steppers[..]) && runtime[..] == old(runtime[..])
      ensures IsValidMotor(motorNumber) ==>
                var i := IdxFromMotor(motorNumber) as int;
                && steppers[..] == old(steppers[..])[i := old(steppers[i]).(lastCommand := Halt)]
                && runtime[..] == old(runtime[..])[i := old(runtime[i]).(timedRunActive := false)]
    {
      if !IsValidMotor(motorNumber) {
        return;
      }
      var index := IdxFromMotor(motorNumber);
      runtime[index] := runtime[index].(timedRunActive := false);
      steppers[index] := steppers[index].(lastCommand := Halt);
    }

    /** `stepper_all_stop`: every timed flag cleared, every stepper told to stop. */
    method AllStop()
      requires Valid()
      modifies steppers, runtime
      ensures Valid() && AllStopped()
      ensures forall i :: 0 <= i < MOTOR_COUNT ==>
                && steppers[i] == old(steppers[i]).(lastCommand := Halt)
                && runtime[i] == old(runtime[i]).(timedRunActive := false)
    {
      var index := 0;
      while index < MOTOR_COUNT
        invariant 0 <= index <= MOTOR_COUNT
        invariant forall i :: 0 <= i < index ==>
                    && steppers[i] == old(steppers[i]).(lastCommand := Halt)
                    && runtime[i] == old(runtime[i]).(timedRunActive := false)
        invariant forall i :: index <= i < MOTOR_COUNT ==>
                    steppers[i] == old(steppers[i]) && runtime[i] == old(runtime[i])
      {
        runtime[index] := runtime[index].(timedRunActive := false);
        steppers[index] := steppers[index].(lastCommand := Halt);
        index := index + 1;
      }
    }

    /** `stepper_get_position`: 0 for an invalid motor number. */
    method GetPosition(motorNumber: u8) returns (position: i32)
      requires Valid()
      ensures !IsValidMotor(motorNumber) ==> position == 0
      ensures IsValidMotor(motorNumber) ==> position == steppers[motorNumber as int - 1].position
    {
      if !IsValidMotor(motorNumber) {
        return 0;
      }
      var index := IdxFromMotor(motorNumber);
      position := steppers[index].position;
    }

    /**
     * One pass of `stepper_service_task` at clock value `now`. The library's
     * `run()` step is outside the model: `positions[i]` is the position
     * stepper `i` reports after it.
     */
    method ServicePass(now: u32, positions: seq<i32>)
      requires Valid() && |positions| == MOTOR_COUNT
      modifies steppers, runtime
      ensures Valid()
      ensures forall i :: 0 <= i < MOTOR_COUNT ==>
                && runtime[i] == AfterServiceRuntime(old(runtime[i]), now)
                && steppers[i] == AfterServiceStepper(old(steppers[i]), old(runtime[i]), now, positions[i])
    {
      var index := 0;
      while index < MOTOR_COUNT
        invariant 0 <= index <= MOTOR_COUNT
        invariant forall i :: 0 <= i < index ==>
                    && runtime[i] == AfterServiceRuntime(old(runtime[i]), now)
                    && steppers[i] == AfterServiceStepper(old(steppers[i]), old(runtime[i]), now, positions[i])
        invariant forall i :: index <= i < MOTOR_COUNT ==>
                    steppers[i] == old(steppers[i]) && runtime[i] == old(runtime[i])
      {
        if runtime[index].timedRunActive && Reached(now, runtime[index].timedRunEndMs) {
          steppers[index] := steppers[index].(lastCommand := Halt);
          runtime[index] := runtime[index].(timedRunActive := false);
        }
        steppers[index] := steppers[index].(position := positions[index]);
        index := index + 1;
      }
    }
  }
}
