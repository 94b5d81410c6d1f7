# ESP32 motor controller: verified model of its actuator state machines

This project models, in Dafny, the four small state machines of an ESP32 controller
for three stepper drivers, three brushed DC motor groups and a 4x4 keypad.

- **DC motors** (`dc_motor.dfy`, module `DcMotor`). Each of the three `DcRuntime` records
  (`dc3000`, `dc1_300`, `dc2_300`) holds:
  - the running and timed flags;
  - a deadline on the wrapping 32-bit millisecond clock;
  - a speed and a direction.

  `run`, `run_ms`, `stop`, `stop_all` and one pass of the service task update the records.
  The channel choice of `write_motor_outputs` is a pure function. Its last result is kept in
  the ghost field `lastOutput`, and `DcRuntime.Valid()` ties that field to the record.
- **Steppers** (`stepper_motor.dfy`, module `StepperMotor`). This module covers:
  - motor-number validation;
  - the `runtime[]` timed-run table;
  - run-for-ms as a far relative move plus a deadline;
  - run-for-steps as a signed relative move;
  - stop and all-stop;
  - the position query and one service pass.

  The motion library behind each stepper is seen only through the last command it was given
  (`NoCommand` before the first one, then `Move(offset)` or `Halt`) and the position it reports.
- **Keypad** (`button_matrix.dfy`, module `ButtonMatrix`). This module covers:
  - the key-to-event mapping;
  - the debounce table (`prevPressed`, `lastChangeMs`) as two 4x4 arrays;
  - the scan, which takes the 16 readings and the clock value as inputs;
  - the scan task's test-and-clear of the activity flag.

  The callback is modelled by the sequence of events a scan hands to it.
- **Handler** (`app.dfy`, module `App`). `on_button_event` updates `start_button_pressed`
  and `g_paused`. Pressing key B also stops every stepper and every DC motor.

`defines.dfy` (module `Defines`) holds the shared parts:
- the constants `DC_PWM_MAX = 255`, `KEY_DEBOUNCE_MS = 20` and three steppers;
- `uint8_t`, `uint32_t` and `int32_t` as newtypes;
- unsigned 32-bit addition and subtraction modulo 2^32;
- the `static_cast<int32_t>` reinterpretation;
- `Reached(now, deadline)`, the wrap-safe test that a deadline has passed.

Every mutating entry point is a method whose ensures gives the new state in terms of the old.
Most of them state it through a pure function on a value snapshot (`DcState`,
`StepperRuntime`, `Table`); the stepper commands and `Keypad.TakeActivityFlag` give it
as entry-by-entry updates of the old arrays and fields. The lemmas are stated about the pure
functions. Each critical section of the source is one method. `millis()` becomes a `now`
parameter.

Two behaviours of the code worth knowing:
- `stepper_run_ms` ignores a zero duration, while the DC `run_motor_ms` treats it as a
  stop.
- Pressing key B stops everything and keeps no remaining time.

Two observations about the code as written:
- `clamp_speed` takes a `uint8_t` and `DC_PWM_MAX` is 255, so the clamp never changes a
  value. `ClampSpeed` states both halves of its contract, and on this input domain the
  second half covers every input.
- The wrap-safe deadline test only works for durations up to 2^31 ms (about 24.8 days). A DC or
  stepper timed run of `d` > 2^31 ms is stopped by any service pass less than `d - 2^31` ms
  after it was set, in particular one at the same instant.
  `Defines.LongDurationLooksElapsed` and `DcMotor.LongRunEndsEarly` state this.

## Model

| member | source | states |
|---|---|---|
| Defines.WrapAdd | nayan_bhai_project/src/dc_motor.cpp:90 | `millis() + time_ms` is the exact sum, or the sum less 2^32 when it overflows |
| Defines.WrapSub | nayan_bhai_project/src/button_matrix.cpp:71 | the unsigned difference is the value that, added back to the subtrahend, gives the minuend; it is the exact difference or that plus 2^32 |
| Defines.AsInt32 | nayan_bhai_project/src/dc_motor.cpp:103 | the `int32_t` cast keeps the value modulo 2^32 and is non-negative exactly when the unsigned value is below 2^31 |
| Defines.ReachedIff | nayan_bhai_project/src/dc_motor.cpp:103 | `static_cast<int32_t>(now - end) >= 0` holds exactly when `(now - end) mod 2^32 < 2^31` |
| Defines.DeadlineAfterWrap | nayan_bhai_project/src/dc_motor.cpp:82-112 | a deadline set `d` ms after `start` tests as reached `t` ms after `start` exactly when `t >= d`, even across the 2^32 wrap (`d` at most 2^31 ms, `t` below 2^31 ms) |
| Defines.LongDurationLooksElapsed | nayan_bhai_project/src/stepper_motor.cpp:97-110 | a deadline `d` > 2^31 ms ahead tests as reached `e` ms later exactly when `e < d - 2^31` or `e >= d`, so in particular at the moment it is set |
| Defines.SinceAfterWrap | nayan_bhai_project/src/button_matrix.cpp:71 | the unsigned time since a change made `k` ms ago is `k`, wrap-around included |
| DcMotor.ClampSpeed | nayan_bhai_project/src/dc_motor.cpp:44-49 | the result never exceeds `DC_PWM_MAX`, and an input already within it is returned unchanged |
| DcMotor.MotorOutputs | nayan_bhai_project/src/dc_motor.cpp:51-65 | at most one channel is non-zero; the two duties sum to the speed when running and to 0 otherwise; a non-zero R duty means CW, a non-zero L duty means CCW |
| DcMotor.AfterStop | nayan_bhai_project/src/dc_motor.cpp:67-72 | after a stop the motor is not running, not timed and at speed 0, with direction and deadline kept, and both channels are 0 |
| DcMotor.AfterRun | nayan_bhai_project/src/dc_motor.cpp:74-80 | a run is untimed, at the clamped speed, in the given direction, with the deadline kept, and drives that direction's channel at once |
| DcMotor.AfterRunMs | nayan_bhai_project/src/dc_motor.cpp:82-94 | a zero duration is exactly a stop; otherwise running, timed, deadline `now + time_ms mod 2^32`, clamped speed and direction, and the channel driven at once |
| DcMotor.AfterService | nayan_bhai_project/src/dc_motor.cpp:103-111 | after a pass no motor is timed with a deadline already reached; a motor not due is untouched; direction and deadline are never changed |
| DcMotor.StopIdempotent | nayan_bhai_project/src/dc_motor.cpp:67-72 | stopping twice is the same as stopping once |
| DcMotor.ServiceStopsExactlyWhenDue | nayan_bhai_project/src/dc_motor.cpp:100-112 | a pass leaves a motor running iff it ran and was not timed-and-due; its timed flag survives iff it was set and the deadline is not reached; a due motor receives exactly a stop |
| DcMotor.ServiceKeepsUntimedRun | nayan_bhai_project/src/dc_motor.cpp:100-112 | a continuous run is never ended by a service pass, at any clock value |
| DcMotor.TimedRunLifetime | nayan_bhai_project/src/dc_motor.cpp:82-112 | a run of `d` ms started at `start` still runs after a pass `t` ms later exactly when `t < d`, across clock wrap-around (`d` at most 2^31 ms, `t` below 2^31 ms) |
| DcMotor.LongRunEndsEarly | nayan_bhai_project/src/dc_motor.cpp:88-112 | a timed run of `d` > 2^31 ms survives a pass `e` ms after it was set exactly when `d - 2^31 <= e < d`; any earlier pass, including one at the same instant, stops it |
| DcMotor.DcRuntime.constructor | nayan_bhai_project/src/dc_motor.cpp:23-39 | a record starts stopped, untimed, at speed 0, CW, deadline 0, with both channels 0 |
| DcMotor.DcRuntime.WriteMotorOutputs | nayan_bhai_project/src/dc_motor.cpp:51-65 | the channels written are the duty pair the record calls for |
| DcMotor.DcRuntime.StopMotor | nayan_bhai_project/src/dc_motor.cpp:67-72 | the record becomes `AfterStop` of its old value, and the channels match it |
| DcMotor.DcRuntime.RunMotor | nayan_bhai_project/src/dc_motor.cpp:74-80 | the record becomes `AfterRun` of its old value, and the channels match it |
| DcMotor.DcRuntime.RunMotorMs | nayan_bhai_project/src/dc_motor.cpp:82-94 | the record becomes `AfterRunMs` of its old value at clock `now`, and the channels match it |
| DcMotor.DcBank.constructor | nayan_bhai_project/src/dc_motor.cpp:119-149 | three distinct records, all in the initial state |
| DcMotor.DcBank.Run | nayan_bhai_project/src/dc_motor.cpp:151-155 | `dc_3000_run`, `dc1_300_run` and `dc2_300_run`: the chosen record becomes `AfterRun` of its old value, and the other two are unchanged |
| DcMotor.DcBank.RunMs | nayan_bhai_project/src/dc_motor.cpp:157-161 | `dc_3000_run_ms`, `dc1_300_run_ms` and `dc2_300_run_ms`: the chosen record becomes `AfterRunMs`, and the other two are unchanged |
| DcMotor.DcBank.Stop | nayan_bhai_project/src/dc_motor.cpp:163-167 | `dc_3000_stop`, `dc1_300_stop` and `dc2_300_stop`: the chosen record becomes `AfterStop`, and the other two are unchanged |
| DcMotor.DcBank.StopAll | nayan_bhai_project/src/dc_motor.cpp:205-211 | all three records are stopped, untimed and at speed 0, each being `AfterStop` of its old value |
| DcMotor.DcBank.ServicePass | nayan_bhai_project/src/dc_motor.cpp:96-116 | each of the three records becomes `AfterService` of its old value at clock `now` |
| StepperMotor.IsValidMotor | nayan_bhai_project/src/stepper_motor.cpp:26-28 | a motor number is valid iff it lies in 1..3 |
| StepperMotor.IdxFromMotor | nayan_bhai_project/src/stepper_motor.cpp:30-32 | a valid motor number `n` gives index `n - 1` in 0..2; motor 0 would wrap to 255 |
| StepperMotor.MotorNumbering | nayan_bhai_project/src/stepper_motor.cpp:26-32 | every index 0..2 is reached from the valid motor number one above it |
| StepperMotor.Signed | nayan_bhai_project/src/stepper_motor.cpp:118 | the offset has the magnitude given and is positive for CW and negative for CCW, so negating a positive count cannot overflow |
| StepperMotor.SignedRoundTrip | nayan_bhai_project/src/stepper_motor.cpp:103 | magnitude and direction are recovered from the signed offset |
| StepperMotor.AfterServiceRuntime | nayan_bhai_project/src/stepper_motor.cpp:41-45 | after a pass a motor's timed flag is set iff it was set and its deadline is not reached; the deadline is kept |
| StepperMotor.AfterServiceStepper | nayan_bhai_project/src/stepper_motor.cpp:41-47 | a due motor is commanded to stop, any other keeps its last command; the position is what the library's step reports |
| StepperMotor.ClearedFlagStaysCleared | nayan_bhai_project/src/stepper_motor.cpp:34-52 | over any series of passes a cleared timed flag stays cleared and the stored deadline never changes |
| StepperMotor.TimedRunLifetime | nayan_bhai_project/src/stepper_motor.cpp:41-45 | a timed run of `d` ms set at `start` survives a pass `t` ms later exactly when `t < d`, across clock wrap-around (`d` at most 2^31 ms, `t` below 2^31 ms) |
| StepperMotor.StepperBank.constructor | nayan_bhai_project/src/stepper_motor.cpp:55-68 | three steppers at position 0 with no command, and all timed flags cleared with deadline 0 |
| StepperMotor.StepperBank.RunMs | nayan_bhai_project/src/stepper_motor.cpp:97-110 | an invalid motor or `time_ms = 0` changes nothing; otherwise only that motor gets a move of +2,000,000,000 (CW) or -2,000,000,000 (CCW), the timed flag and deadline `now + time_ms mod 2^32` |
| StepperMotor.StepperBank.RunSteps | nayan_bhai_project/src/stepper_motor.cpp:112-124 | an invalid motor or `steps <= 0` changes nothing; otherwise only that motor has its timed flag cleared and gets a move of +steps (CW) or -steps (CCW) |
| StepperMotor.StepperBank.Stop | nayan_bhai_project/src/stepper_motor.cpp:126-136 | an invalid motor changes nothing; otherwise only that motor has its timed flag cleared and is commanded to stop |
| StepperMotor.StepperBank.AllStop | nayan_bhai_project/src/stepper_motor.cpp:138-145 | every timed flag is cleared and every stepper is commanded to stop; deadlines and positions are kept |
| StepperMotor.StepperBank.GetPosition | nayan_bhai_project/src/stepper_motor.cpp:147-159 | 0 for an invalid motor number, otherwise the position motor `n` reports |
| StepperMotor.StepperBank.ServicePass | nayan_bhai_project/src/stepper_motor.cpp:34-52 | every motor's table entry and stepper become their `AfterService*` values at clock `now` |
| ButtonMatrix.MapEvent | nayan_bhai_project/src/button_matrix.cpp:31-46 | only keys in rows 0-1 and columns 0-2 map to an event; column `c` is about stepper `c + 1`; a press on row 0 is CW, a press on row 1 is CCW, and a release on either row is STOP |
| ButtonMatrix.AfterScan | nayan_bhai_project/src/button_matrix.cpp:68-74 | a key whose reading differs and whose last change is at least 20 ms old takes the reading and `now`; every other key is unchanged |
| ButtonMatrix.EventsBefore | nayan_bhai_project/src/button_matrix.cpp:63-83 | the events up to a point of the scan, columns outer and rows inner; none is NONE, none is emitted without a callback, and there are at most as many events as keys visited |
| ButtonMatrix.CellChangesIffAccepted | nayan_bhai_project/src/button_matrix.cpp:69-74 | a key's stored level changes iff its change is accepted, and so does its change time |
| ButtonMatrix.BounceSuppressed | nayan_bhai_project/src/button_matrix.cpp:71-73 | after an accepted change, no reading of that key is accepted within 20 ms, and a differing one is accepted from then on, across clock wrap-around |
| ButtonMatrix.QuietScan | nayan_bhai_project/src/button_matrix.cpp:69-80 | a scan in which no key's change is accepted emits no event |
| ButtonMatrix.RescanIsQuiet | nayan_bhai_project/src/button_matrix.cpp:60-86 | repeating a scan with the same readings at the same instant emits nothing and changes no key |
| ButtonMatrix.EventsComeFromAcceptedKeys | nayan_bhai_project/src/button_matrix.cpp:71-80 | every emitted event is the mapping of a key whose change was accepted in that scan |
| ButtonMatrix.AcceptedKeyEmits | nayan_bhai_project/src/button_matrix.cpp:69-80 | with a callback registered, every key with a stepper event whose change is accepted has that event reported once the scan has passed the key |
| ButtonMatrix.ColumnMajorOrder | nayan_bhai_project/src/button_matrix.cpp:63-67 | with the keys at (row 0, column 1) and (row 1, column 0) pressed together, stepper 1's CCW event comes before stepper 2's CW event |
| ButtonMatrix.Keypad.constructor | nayan_bhai_project/src/button_matrix.cpp:112-128 | whether a callback was given is recorded as given (it may be null), both tables are zeroed and no key activity is pending |
| ButtonMatrix.Keypad.ScanKey | nayan_bhai_project/src/button_matrix.cpp:67-81 | one key's visit: it takes its post-scan state, and its event is emitted if the callback is set |
| ButtonMatrix.Keypad.ScanMatrixAndDispatch | nayan_bhai_project/src/button_matrix.cpp:60-86 | the arrays become `AfterScan` of their old contents, and the events returned are exactly those of `ScanEvents`, in column-major order |
| ButtonMatrix.Keypad.TakeActivityFlag | nayan_bhai_project/src/button_matrix.cpp:94-99 | the result is the flag's old value, and the flag is false afterwards |
| ButtonMatrix.Keypad.ScanTaskIteration | nayan_bhai_project/src/button_matrix.cpp:91-108 | the flag is consumed; a scan runs first only if it was set; the fallback scan always runs; the events are both scans' events in order |
| App.AfterEvent | nayan_bhai_project/src/main.cpp:19-76 | a press of A gives paused false and started true; a press of B gives paused true and keeps the start flag; anything else, including releases and keys 1-6, changes nothing; the start flag is never cleared |
| App.AfterEventsAppend | nayan_bhai_project/src/main.cpp:19-76 | handling a series of events then one more is handling that one after the series |
| App.PausedFollowsLastControlKey | nayan_bhai_project/src/main.cpp:60-75 | after any series of events, `g_paused` is true iff the most recent press of A or B was B (or, if there was none, it keeps its initial value) |
| App.StartLatches | nayan_bhai_project/src/main.cpp:60-65 | after any series of events, `start_button_pressed` is true iff it was already true or A was pressed at some point |
| App.Controller.constructor | nayan_bhai_project/src/main.cpp:9-10 | `start_button_pressed` and `g_paused` both start false |
| App.Controller.OnButtonEvent | nayan_bhai_project/src/main.cpp:19-76 | the flags become `AfterEvent` of their old values; a press of B leaves every stepper untimed and commanded to stop and every DC motor stopped; any other event leaves every motor untouched |

## Left out

- Hardware line driving is not modelled because it is I/O with no logic of its own. This covers `ledcSetup`, `ledcAttachPin`, `ledcWrite`, `pinMode`, `digitalWrite`, `digitalRead`, `stepper_enable`, `solenoid_state` and `drive_all_cols_high`. The PWM writes survive only as the ghost `lastOutput`, and the pin reads only as the `readings` grid.
- The interrupt `matrix_isr` and `attachInterrupt` are not modelled. `keyActivityFlag` is a public field that the environment may set.
- The FreeRTOS plumbing is not modelled: task creation, `vTaskDelay`, the endless service loops and the critical sections themselves. Each critical section is one atomic method. Each service loop is modelled by one iteration (`ServicePass`, `ScanTaskIteration`). Concurrency between tasks is not verified.
- The motion library's internals are not modelled: `move`, `stop` and `run` dynamics, ramping and `currentPosition`. A stepper records only its last command. The position the library reports after its `run()` step is an input of `StepperBank.ServicePass`.
- `steppr_set_config` and `stepper_set_config` are not modelled. They only pass floating-point speed and acceleration values to the motion library.
- The serial logging, `setup()` and the fixed task script in `loop()` are not modelled.
- These functions are called or declared but their definitions are not part of this model, so their behaviour is not invented:
  - `dc1_300_run_ms_blocking`, `stepper_run_steps_blocking`, `stepper_run_steps_batch_blocking` and the `StepperMove` type;
  - `stepper_run_infinite`, the `dc_300_*` functions and `button_name`.
- The keypad module and the handler are modelled separately. `button_matrix.cpp` reports its own event type with a `MatrixEvent` callback, while the handler takes the `ButtonEvent` declared in `button_matrix.h`. The code as shown never converts one into the other.
- The nine per-motor DC entry points (`dc_3000_*`, `dc1_300_*`, `dc2_300_*`) are modelled as three methods of `DcBank` that take a `DcMotorId`.
