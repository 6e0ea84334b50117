/** The ranges of the source's integers. */
module Bounds {
  const U64_MAX: nat := 0xFFFF_FFFF_FFFF_FFFF
  const I64_MAX: nat := 0x7FFF_FFFF_FFFF_FFFF

  /** The result of a saturating operation whose exact result is `n`. */
  function Saturated(n: nat): nat {
    if n <= U64_MAX then n else U64_MAX
  }

  /** The result of a wrapping operation whose exact result is `n`. */
  function Wrapped(n: nat): nat {
    n % (U64_MAX + 1)
  }
}
