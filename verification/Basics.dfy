/** What several components share: optional values, Go's time constants, powers of two. */
module Basics {

  datatype Option<+T> = None | Some(value: T)

  /** Nanoseconds in a second. */
  const SECOND: int := 1_000_000_000

  /** Largest `time.Duration` in nanoseconds; `time.Time.Sub` saturates here. */
  const MAX_DURATION: int := 0x7fff_ffff_ffff_ffff

  function Pow2(n: nat): (r: nat)
    ensures 0 < r
  {
    if n == 0 then 1 else 2 * Pow2(n - 1)
  }
}
