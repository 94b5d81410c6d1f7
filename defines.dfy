/**
 * Shared constants, machine integer types and the 32-bit millisecond clock
 * arithmetic used by every service task of the controller (include/defines.h).
 */
module Defines {

  const TWO_32: int := 0x1_0000_0000
  const TWO_31: int := 0x8000_0000

  /** `uint8_t` */
  newtype u8 = x: int | 0 <= x < 0x100
  /** `uint32_t`, the type of `millis()` and of every deadline */
  newtype u32 = x: int | 0 <= x < 0x1_0000_0000
  /** `int32_t` */
  newtype i32 = x: int | -0x8000_0000 <= x < 0x8000_0000

  /** Maximum PWM duty value of a DC channel. */
  const DC_PWM_MAX: u8 := 255
  /** A key must hold a new level this long before the change is accepted. */
  const KEY_DEBOUNCE_MS: u32 := 20
  /** Number of stepper drivers; also the `MOTOR_COUNT` of the stepper module. */
  const STEPPER_MOTOR_COUNT: u8 := 3

  datatype Direction = CW | CCW

  /** `a + b` on `uint32_t`: the sum wraps around at 2^32. */
  function WrapAdd(a: u32, b: u32): (r: u32)
    ensures r as int == a as int + b as int || r as int == a as int + b as int - TWO_32
  {
    ((a as int + b as int) % TWO_32) as u32
  }

  /** `a - b` on `uint32_t`: the difference wraps around at 2^32. */
  function WrapSub(a: u32, b: u32): (r: u32)
    ensures WrapAdd(b, r) == a
    ensures r as int == a as int - b as int || r as int == a as int - b as int + TWO_32
  {
    ((a as int - b as int) % TWO_32) as u32
  }

  /** `static_cast<int32_t>(x)`: two's-complement reinterpretation of 32 bits. */
  function AsInt32(x: u32): (r: i32)
    ensures (r as int - x as int) % TWO_32 == 0
    ensures r >= 0 <==> x as int < TWO_31
  {
    if x as int < TWO_31 then x as int as i32 else (x as int - TWO_32) as i32
  }

  /**
   * `static_cast<int32_t>(now - deadline) >= 0`: the wrap-safe test that a
   * deadline has been reached.
   */
  predicate Reached(now: u32, deadline: u32)
  {
    AsInt32(WrapSub(now, deadline)) >= 0
  }

  /** Reached is exactly "the unsigned difference is below 2^31". */
  lemma ReachedIff(now: u32, deadline: u32)
    ensures Reached(now, deadline) <==> (WrapSub(now, deadline) as int) < TWO_31
  {
  }

  /**
   * A deadline set `duration` ms after `start` is reached exactly when at
   * least `duration` ms have elapsed, even when `start + duration` or
   * `start + elapsed` wrapped past 2^32, provided the duration is at most
   * 2^31 ms and the elapsed span below 2^31 ms.
   */
  lemma {:induction false} DeadlineAfterWrap(start: u32, duration: u32, elapsed: u32)
    requires duration as int <= TWO_31 && elapsed as int < TWO_31
    ensures Reached(WrapAdd(start, elapsed), WrapAdd(start, duration)) <==> elapsed >= duration
  {
    var now, deadline := WrapAdd(start, elapsed), WrapAdd(start, duration);
    var diff := WrapSub(now, deadline);
    if elapsed >= duration {
      assert diff as int == elapsed as int - duration as int;
    } else {
      assert diff as int == elapsed as int - duration as int + TWO_32;
    }
  }

  /**
   * The wrap-safe test only works for durations up to 2^31 ms. A deadline set
   * `duration` > 2^31 ms after `start` tests as reached `elapsed` ms after
   * `start` whenever `elapsed` is below `duration - 2^31` (in particular at
   * the moment it is set) and again from `duration` on; it tests as not
   * reached only in between.
   */
  lemma {:induction false} LongDurationLooksElapsed(start: u32, duration: u32, elapsed: u32)
    requires duration as int > TWO_31
    ensures Reached(WrapAdd(start, elapsed), WrapAdd(start, duration))
            <==> elapsed as int < duration as int - TWO_31 || elapsed >= duration
  {
    var diff := WrapSub(WrapAdd(start, elapsed), WrapAdd(start, duration));
    if elapsed >= duration {
      assert diff as int == elapsed as int - duration as int;
    } else {
      assert diff as int == elapsed as int - duration as int + TWO_32;
    }
  }

  /** The unsigned time since `since` is the elapsed span, wrap-around included. */
  lemma SinceAfterWrap(since: u32, elapsed: u32)
    ensures WrapSub(WrapAdd(since, elapsed), since) == elapsed
  {
  }
}
