/** Go's `time`: instants as integers of nanoseconds, durations as int64. */
module Durations {

  const MILLISECOND := 1_000_000
  const SECOND := 1_000_000_000
  const MAX_DURATION := 0x7FFF_FFFF_FFFF_FFFF
  const MIN_DURATION := -0x8000_0000_0000_0000

  /** Two's-complement int64 arithmetic keeps the low 64 bits. */
  function Wrap(x: int): (r: int)
    ensures MIN_DURATION <= r <= MAX_DURATION
    ensures (x - r) % 0x1_0000_0000_0000_0000 == 0
    ensures MIN_DURATION <= x <= MAX_DURATION ==> r == x
  {
    (x + 0x8000_0000_0000_0000) % 0x1_0000_0000_0000_0000 - 0x8000_0000_0000_0000
  }

  /** `Time.Sub` saturates instead of wrapping. */
  function Sub(t: int, u: int): int {
    if t - u > MAX_DURATION then MAX_DURATION
    else if t - u < MIN_DURATION then MIN_DURATION
    else t - u
  }
}
