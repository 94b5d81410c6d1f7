/**
 * The keypad handler of the application (src/main.cpp, `on_button_event`):
 * two process-wide flags, `start_button_pressed` and `g_paused`, and the
 * "stop everything" reaction to the pause key, composed with the DC and
 * stepper modules.
 */
module App {
  import DcMotor
  import StepperMotor

  /** The sixteen keys in keypad order (row 0 first), plus UNKNOWN. */
  datatype ButtonId =
    | Btn1 | Btn2 | Btn3 | BtnA
    | Btn4 | Btn5 | Btn6 | BtnB
    | Btn7 | Btn8 | Btn9 | BtnC
    | BtnStar | Btn0 | BtnHash | BtnD
    | Unknown

  datatype ButtonState = Pressed | Released

  datatype ButtonEvent = ButtonEvent(button: ButtonId, state: ButtonState)

  /** `start_button_pressed` and `g_paused`. */
  datatype Flags = Flags(startButtonPressed: bool, paused: bool)

  /** Both flags start false. */
  const InitialFlags: Flags := Flags(false, false)

  /** Key A pressed: resume and start the task script. */
  predicate IsStart(e: ButtonEvent)
  {
    e.button == BtnA && e.state == Pressed
  }

  /** Key B pressed: pause and stop every actuator. */
  predicate IsPause(e: ButtonEvent)
  {
    e.button == BtnB && e.state == Pressed
  }

  /** The flags after the handler has seen one event. */
  function AfterEvent(f: Flags, e: ButtonEvent): (g: Flags)
    ensures f.startButtonPressed ==> g.startButtonPressed
    ensures IsStart(e) ==> !g.paused && g.startButtonPressed
    ensures IsPause(e) ==> g.paused && g.startButtonPressed == f.startButtonPressed
    ensures !IsStart(e) && !IsPause(e) ==> g == f
  {
    if IsStart(e) then Flags(true, false)
    else if IsPause(e) then f.(paused := true)
    else f
  }

  /** The flags after the handler has seen `es`, first to last. */
  function AfterEvents(f: Flags, es: seq<ButtonEvent>): Flags
    decreases |es|
  {
    if es == [] then f else AfterEvents(AfterEvent(f, es[0]), es[1..])
  }

  /**
   * Reference reading of the pause flag, scanning back from the newest event:
   * the most recent press of A or B decides it.
   */
  function LastControlPauses(initial: bool, es: seq<ButtonEvent>): bool
    decreases |es|
  {
    if es == [] then initial
    else
      var e := es[|es| - 1];
      if IsPause(e) then true
      else if IsStart(e) then false
      else LastControlPauses(initial, es[..|es| - 1])
  }

  lemma {:induction false} AfterEventsAppend(f: Flags, es: seq<ButtonEvent>, e: ButtonEvent)
    ensures AfterEvents(f, es + [e]) == AfterEvent(AfterEvents(f, es), e)
    decreases |es|
  {
    if es != [] {
      assert (es + [e])[1..] == es[1..] + [e];
      AfterEventsAppend(AfterEvent(f, es[0]), es[1..], e);
    }
  }

  /** The pause flag is set exactly when the most recent A or B press was B. */
  lemma {:induction false} PausedFollowsLastControlKey(f: Flags, es: seq<ButtonEvent>)
    ensures AfterEvents(f, es).paused == LastControlPauses(f.paused, es)
    decreases |es|
  {
    if es != [] {
      var init, e := es[..|es| - 1], es[|es| - 1];
      assert es == init + [e];
      AfterEventsAppend(f, init, e);
      PausedFollowsLastControlKey(f, init);
    }
  }

  /** Once set, `start_button_pressed` stays set; it is set exactly by a press of A. */
  lemma {:induction false} StartLatches(f: Flags, es: seq<ButtonEvent>)
    ensures AfterEvents(f, es).startButtonPressed
            <==> f.startButtonPressed || exists i :: 0 <= i < |es| && IsStart(es[i])
    decreases |es|
  {
    if es != [] {
      StartLatches(AfterEvent(f, es[0]), es[1..]);
      if exists i :: 0 <= i < |es[1..]| && IsStart(es[1..][i]) {
        var i :| 0 <= i < |es[1..]| && IsStart(es[1..][i]);
        assert IsStart(es[i + 1]);
      }
      if exists i :: 0 <= i < |es| && IsStart(es[i]) {
        var i :| 0 <= i < |es| && IsStart(es[i]);
        if i > 0 {
          assert IsStart(es[1..][i - 1]);
        }
      }
    }
  }

  /** The application's global state and the two actuator modules it drives. */
  class Controller {
    var startButtonPressed: bool
    var paused: bool
    const dc: DcMotor.DcBank
    const steppers: StepperMotor.StepperBank

    function CurrentFlags(): Flags
      reads this
    {
      Flags(startButtonPressed, paused)
    }

    ghost predicate Valid()
      reads this, dc, dc.Repr(), steppers
    {
      dc.Valid() && steppers.Valid()
    }

    constructor ()
      ensures Valid() && CurrentFlags() == InitialFlags
      ensures fresh(dc.Repr()) && fresh(steppers.steppers) && fresh(steppers.runtime)
    {
      startButtonPressed := false;
      paused := false;
      dc := new DcMotor.DcBank();
      steppers := new StepperMotor.StepperBank();
    }

    /**
     * `on_button_event`. Keys 1-6 have their actions commented out in the
     * handler and change nothing; A pressed resumes and starts; B pressed
     * pauses and stops every stepper, then every DC motor.
     */
    method OnButtonEvent(e: ButtonEvent)
      requires Valid()
      modifies this`startButtonPressed, this`paused, dc.Repr(), steppers.steppers, steppers.runtime
      ensures Valid()
      ensures CurrentFlags() == AfterEvent(old(CurrentFlags()), e)
      ensures IsPause(e) ==> dc.AllStopped() && steppers.AllStopped()
      ensures IsPause(e) ==> forall id :: dc.Motor(id).State() == DcMotor.AfterStop(old(dc.Motor(id).State()))
      ensures IsPause(e) ==> forall i :: 0 <= i < StepperMotor.MOTOR_COUNT ==>
                && steppers.steppers[i] == old(steppers.steppers[i]).(lastCommand := StepperMotor.Halt)
                && steppers.runtime[i] == old(steppers.runtime[i]).(timedRunActive := false)
      ensures !IsPause(e) ==> unchanged(dc.Repr()) && unchanged(steppers.steppers, steppers.runtime)
    {
      if e.button == BtnA && e.state == Pressed {
        paused := false;
        startButtonPressed := true;
      }
      if e.button == BtnB && e.state == Pressed {
        paused := true;
        steppers.AllStop();
        dc.StopAll();
      }
    }
  }
}
