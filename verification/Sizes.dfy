/** Sizes as the machine has them. */
module Sizes {
  /** The largest `size_t`. */
  const SIZE_MAX: nat := 0xFFFF_FFFF_FFFF_FFFF

  /** One more than the largest `size_t`. */
  const WORD: nat := 0x1_0000_0000_0000_0000

  /** No string or buffer is longer. */
  const MAX_BYTES: nat := 0x7FFF_FFFF_FFFF_FFFF

  /** A sum of sizes, which wraps around. */
  function Sum64(a: nat, b: nat): nat {
    (a + b) % WORD
  }

  lemma SumFits(a: nat, b: nat)
    ensures a + b < WORD ==> Sum64(a, b) == a + b
    ensures WORD <= a + b < 2 * WORD ==> Sum64(a, b) == a + b - WORD
  {
  }
}
