/** Types shared by every component: optional values, bytes and 32-bit clock readings. */
module Wrappers {
  datatype Option<+T> = None | Some(value: T)

  type byte = x: int | 0 <= x < 256

  /** Number of distinct readings of a wrapping 32-bit counter. */
  const TICKS: nat := 0x1_0000_0000

  type u32 = x: int | 0 <= x < TICKS

  /** Unsigned 32-bit subtraction `now - since`, as the firmware's timers use it. */
  function Elapsed(now: u32, since: u32): (d: u32)
    ensures now >= since ==> d == now - since
    ensures now < since ==> d == TICKS - (since - now)
  {
    (now - since) % TICKS
  }

  /** A wrapping difference never exceeds the true time between the two readings. */
  lemma ElapsedIsLowerBound(since: nat, now: nat)
    requires since <= now
    ensures Elapsed(now % TICKS, since % TICKS) == (now - since) % TICKS <= now - since
  {
    var gap := now - since;
    assert now == (now / TICKS) * TICKS + now % TICKS;
    assert since == (since / TICKS) * TICKS + since % TICKS;
    assert gap == (gap / TICKS) * TICKS + gap % TICKS;
    var k := now / TICKS - since / TICKS - gap / TICKS;
    assert now % TICKS - since % TICKS == gap % TICKS - k * TICKS;
  }
}
