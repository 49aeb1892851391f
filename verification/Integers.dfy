/**
 The 64-bit integer ranges of the source.
 */
module Integers {
  const TWO63: int := 0x8000_0000_0000_0000
  const TWO64: int := 0x1_0000_0000_0000_0000

  predicate IsInt64(n: int) { -TWO63 <= n < TWO63 }
}
