/** Readings of a monotonic clock, in whole nanoseconds. */
module Clocks {
  const SECOND: nat := 1_000_000_000
  const MINUTE: nat := 60 * SECOND

  /** Time from `start` to `now`; zero when the readings are out of order, as `Instant::duration_since` has it. */
  function Elapsed(start: int, now: int): nat {
    if now >= start then now - start else 0
  }
}
