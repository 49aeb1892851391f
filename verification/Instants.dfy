/**
 Instants and durations in nanoseconds.
 */
module Instants {
  const SECOND: int := 1_000_000_000
  const HOUR: int := 3600 * SECOND
  const DAY: int := 24 * HOUR

  /** Go's zero time, January 1 of year 1. */
  const ZERO_TIME: int := -62_135_596_800 * SECOND
}
