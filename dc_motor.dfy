/**
 * The three brushed DC motor groups (src/dc_motor.cpp): each `DcRuntime`
 * record holds whether the motor runs, whether the run is timed and its
 * deadline, the speed and the direction. Commands and one pass of the service
 * task update the records; `write_motor_outputs` turns a record into the duty
 * values of its two PWM channels.
 */
module DcMotor {
  import opened Defines

  /** The value part of a `DcRuntime` record (its pins and channels are wiring). */
  datatype DcState = DcState(
    running: bool,
    timedRunActive: bool,
    timedRunEndMs: u32,
    speed: u8,
    direction: Direction)

  /** Every record's static initialiser: stopped, untimed, speed 0, CW. */
  const InitialDc: DcState := DcState(false, false, 0, 0, CW)

  /** Duty values written to the R (clockwise) and L (counter-clockwise) channels. */
  datatype Duty = Duty(rDuty: u8, lDuty: u8)

  const Idle: Duty := Duty(0, 0)

  function ClampSpeed(speed: u8): (r: u8)
    ensures r <= DC_PWM_MAX
    ensures speed <= DC_PWM_MAX ==> r == speed
  {
    if speed > DC_PWM_MAX then DC_PWM_MAX else speed
  }

  /**
   * The channel choice of `write_motor_outputs`: at most one channel is driven,
   * it carries the whole speed of a running motor, and which one it is follows
   * the direction.
   */
  function MotorOutputs(m: DcState): (d: Duty)
    ensures d.rDuty == 0 || d.lDuty == 0
    ensures d.rDuty as int + d.lDuty as int == if m.running then m.speed as int else 0
    ensures d.rDuty != 0 ==> m.direction == CW
    ensures d.lDuty != 0 ==> m.direction == CCW
  {
    if !m.running || m.speed == 0 then Idle
    else
      match m.direction
      case CW => Duty(m.speed, 0)
      case CCW => Duty(0, m.speed)
  }

  /** Duty pair of a motor driven at `speed` in `direction`. */
  function Driving(speed: u8, direction: Direction): Duty
  {
    if direction == CW then Duty(speed, 0) else Duty(0, speed)
  }

  /** `stop_motor`: not running, not timed, speed 0; direction and deadline kept. */
  function AfterStop(m: DcState): (r: DcState)
    ensures !r.running && !r.timedRunActive && r.speed == 0
    ensures r.direction == m.direction && r.timedRunEndMs == m.timedRunEndMs
    ensures MotorOutputs(r) == Idle
  {
    m.(running := false, timedRunActive := false, speed := 0)
  }

  /** `run_motor`: an untimed run at the clamped speed, driven at once. */
  function AfterRun(m: DcState, speed: u8, direction: Direction): (r: DcState)
    ensures r.running && !r.timedRunActive
    ensures r.speed == ClampSpeed(speed) && r.direction == direction
    ensures r.timedRunEndMs == m.timedRunEndMs
    ensures MotorOutputs(r) == Driving(ClampSpeed(speed), direction)
  {
    m.(running := true, timedRunActive := false, speed := ClampSpeed(speed), direction := direction)
  }

  /**
   * `run_motor_ms`: a duration of 0 is a stop; otherwise a timed run whose
   * deadline is `now + timeMs` on the wrapping 32-bit clock.
   */
  function AfterRunMs(m: DcState, now: u32, timeMs: u32, speed: u8, direction: Direction): (r: DcState)
    ensures timeMs == 0 ==> r == AfterStop(m)
    ensures timeMs != 0 ==> r.running && r.timedRunActive && r.timedRunEndMs == WrapAdd(now, timeMs)
    ensures timeMs != 0 ==> r.speed == ClampSpeed(speed) && r.direction == direction
    ensures timeMs != 0 ==> MotorOutputs(r) == Driving(ClampSpeed(speed), direction)
  {
    if timeMs == 0 then AfterStop(m)
    else DcState(true, true, WrapAdd(now, timeMs), ClampSpeed(speed), direction)
  }

  /** The service task's test: a timed run whose deadline has been reached. */
  predicate Due(m: DcState, now: u32)
  {
    m.timedRunActive && Reached(now, m.timedRunEndMs)
  }

  /** What one service pass does to one record. */
  function AfterService(m: DcState, now: u32): (r: DcState)
    ensures r.timedRunActive ==> !Reached(now, r.timedRunEndMs)
    ensures !Due(m, now) ==> r == m
    ensures r.direction == m.direction && r.timedRunEndMs == m.timedRunEndMs
  {
    if Due(m, now) then AfterStop(m) else m
  }

  lemma StopIdempotent(m: DcState)
    ensures AfterStop(AfterStop(m)) == AfterStop(m)
  {
  }

  /** A pass stops a motor exactly when its timed run has reached its deadline. */
  lemma ServiceStopsExactlyWhenDue(m: DcState, now: u32)
    ensures AfterService(m, now).running <==> m.running && !Due(m, now)
    ensures AfterService(m, now).timedRunActive <==> m.timedRunActive && !Reached(now, m.timedRunEndMs)
    ensures Due(m, now) ==> AfterService(m, now) == AfterStop(m)
  {
  }

  /** An untimed run is never ended by the service task. */
  lemma ServiceKeepsUntimedRun(m: DcState, speed: u8, direction: Direction, now: u32)
    ensures AfterService(AfterRun(m, speed, direction), now) == AfterRun(m, speed, direction)
  {
  }

  /**
   * A timed run started at `start` for `timeMs` ms is still running after a
   * pass `elapsed` ms later exactly when `elapsed < timeMs`, whether or not
   * the clock wrapped around in between (duration at most 2^31 ms, elapsed span
   * below 2^31 ms).
   */
  lemma {:induction false} TimedRunLifetime(
    m: DcState, start: u32, timeMs: u32, speed: u8, direction: Direction, elapsed: u32)
    requires 0 < timeMs as int <= TWO_31 && elapsed as int < TWO_31
    ensures AfterService(AfterRunMs(m, start, timeMs, speed, direction), WrapAdd(start, elapsed)).running
            <==> elapsed < timeMs
  {
    DeadlineAfterWrap(start, timeMs, elapsed);
  }

  /**
   * A timed run of more than 2^31 ms survives a pass `elapsed` ms after it
   * was set only when `timeMs - 2^31 <= elapsed < timeMs`: any earlier pass,
   * in particular one at the same instant, stops it at once.
   */
  lemma {:induction false} LongRunEndsEarly(
    m: DcState, start: u32, timeMs: u32, speed: u8, direction: Direction, elapsed: u32)
    requires timeMs as int > TWO_31
    ensures AfterService(AfterRunMs(m, start, timeMs, speed, direction), WrapAdd(start, elapsed)).running
            <==> timeMs as int - TWO_31 <= elapsed as int < timeMs as int
  {
    LongDurationLooksElapsed(start, timeMs, elapsed);
  }

  /** One `DcRuntime` record, updated in place. */
  class DcRuntime {
    var running: bool
    var timedRunActive: bool
    var timedRunEndMs: u32
    var speed: u8
    var direction: Direction
    /** The duty pair last written to this motor's two PWM channels. */
    ghost var lastOutput: Duty

    function State(): DcState
      reads this
    {
      DcState(running, timedRunActive, timedRunEndMs, speed, direction)
    }

    /** The channels always show what the record says. */
    ghost predicate Valid()
      reads this
    {
      lastOutput == MotorOutputs(State())
    }

    constructor ()
      ensures State() == InitialDc && Valid()
    {
      running, timedRunActive, timedRunEndMs := false, false, 0;
      speed, direction := 0, CW;
      lastOutput := Idle;
    }

    method WriteMotorOutputs()
      modifies this`lastOutput
      ensures Valid()
    {
      lastOutput := MotorOutputs(State());
    }

    method StopMotor()
      modifies this
      ensures State() == AfterStop(old(State())) && Valid()
    {
      running := false;
      timedRunActive := false;
      speed := 0;
      WriteMotorOutputs();
    }

    method RunMotor(speed: u8, direction: Direction)
      modifies this
      ensures State() == AfterRun(old(State()), speed, direction) && Valid()
    {
      running := true;
      timedRunActive := false;
      this.speed := ClampSpeed(speed);
      this.direction := direction;
      WriteMotorOutputs();
    }

    /** `now` is the value `millis()` returns inside the call. */
    method RunMotorMs(now: u32, timeMs: u32, speed: u8, direction: Direction)
      modifies this
      ensures State() == AfterRunMs(old(State()), now, timeMs, speed, direction) && Valid()
    {
      if timeMs == 0 {
        StopMotor();
        return;
      }
      running := true;
      timedRunActive := true;
      timedRunEndMs := WrapAdd(now, timeMs);
      this.speed := ClampSpeed(speed);
      this.direction := direction;
      WriteMotorOutputs();
    }
  }

  /** The three motor groups, in the order the service task visits them. */
  datatype DcMotorId = Dc3000 | Dc1_300 | Dc2_300

  /** The module's three records; each public entry point is one critical section. */
  class DcBank {
    const dc3000: DcRuntime
    const dc1_300: DcRuntime
    const dc2_300: DcRuntime

    function Motor(id: DcMotorId): DcRuntime
    {
      match id
      case Dc3000 => dc3000
      case Dc1_300 => dc1_300
      case Dc2_300 => dc2_300
    }

    ghost function Repr(): set<object>
    {
      {dc3000, dc1_300, dc2_300}
    }

    ghost predicate Valid()
      reads Repr()
    {
      dc3000 != dc1_300 && dc3000 != dc2_300 && dc1_300 != dc2_300 &&
      dc3000.Valid() && dc1_300.Valid() && dc2_300.Valid()
    }

    /** Every record stopped, untimed and at speed 0. */
    ghost predicate AllStopped()
      reads Repr()
    {
      forall id :: !Motor(id).running && !Motor(id).timedRunActive && Motor(id).speed == 0
    }

    constructor ()
      ensures Valid() && fresh(Repr())
      ensures forall id :: Motor(id).State() == InitialDc
    {
      dc3000 := new DcRuntime();
      dc1_300 := new DcRuntime();
      dc2_300 := new DcRuntime();
    }

    /** `dc_3000_run`, `dc1_300_run`, `dc2_300_run`. */
    method Run(id: DcMotorId, speed: u8, direction: Direction)
      requires Valid()
      modifies Motor(id)
      ensures Valid()
      ensures Motor(id).State() == AfterRun(old(Motor(id).State()), speed, direction)
      ensures forall j :: j != id ==> unchanged(Motor(j))
    {
      Motor(id).RunMotor(speed, direction);
    }

    /** `dc_3000_run_ms`, `dc1_300_run_ms`, `dc2_300_run_ms`. */
    method RunMs(id: DcMotorId, now: u32, timeMs: u32, speed: u8, direction: Direction)
      requires Valid()
      modifies Motor(id)
      ensures Valid()
      ensures Motor(id).State() == AfterRunMs(old(Motor(id).State()), now, timeMs, speed, direction)
      ensures forall j :: j != id ==> unchanged(Motor(j))
    {
      Motor(id).RunMotorMs(now, timeMs, speed, direction);
    }

    /** `dc_3000_stop`, `dc1_300_stop`, `dc2_300_stop`. */
    method Stop(id: DcMotorId)
      requires Valid()
      modifies Motor(id)
      ensures Valid()
      ensures Motor(id).State() == AfterStop(old(Motor(id).State()))
      ensures forall j :: j != id ==> unchanged(Motor(j))
    {
      Motor(id).StopMotor();
    }

    /** `dc_stop_all` */
    method StopAll()
      requires Valid()
      modifies Repr()
      ensures Valid() && AllStopped()
      ensures forall id :: Motor(id).State() == AfterStop(old(Motor(id).State()))
    {
      dc3000.StopMotor();
      dc1_300.StopMotor();
      dc2_300.StopMotor();
    }

    /** One pass of `dc_service_task` at clock value `now`. */
    method ServicePass(now: u32)
      requires Valid()
      modifies Repr()
      ensures Valid()
      ensures forall id :: Motor(id).State() == AfterService(old(Motor(id).State()), now)
    {
      if dc3000.timedRunActive && Reached(now, dc3000.timedRunEndMs) {
        dc3000.StopMotor();
      }
      if dc1_300.timedRunActive && Reached(now, dc1_300.timedRunEndMs) {
        dc1_300.StopMotor();
      }
      if dc2_300.timedRunActive && Reached(now, dc2_300.timedRunEndMs) {
        dc2_300.StopMotor();
      }
    }
  }
}
