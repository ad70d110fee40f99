/** Exponential backoff with saturating arithmetic (common/src/backoff.rs). */
module Backoff {
  const MAXIMUM_WAIT_MS: nat := 32_000
  const U64_MAX: nat := 0xFFFF_FFFF_FFFF_FFFF

  type U64 = n: nat | n <= U64_MAX

  function Min(a: nat, b: nat): nat { if a <= b then a else b }

  function Pow2(k: nat): nat { if k == 0 then 1 else 2 * Pow2(k - 1) }

  function SaturatingPow2(k: nat): U64 { Min(Pow2(k), U64_MAX) }

  function SaturatingMul(a: U64, b: U64): U64 { Min(a * b, U64_MAX) }

  /** The wait before attempt `index`, as the code computes it. */
  function WaitMs(initial: U64, index: nat): nat {
    Min(SaturatingMul(initial, SaturatingPow2(index)), MAXIMUM_WAIT_MS)
  }

  /** Saturation never shows: the wait is the exact exponential, cut at the maximum. */
  lemma WaitIsExact(initial: U64, index: nat)
    ensures WaitMs(initial, index) == Min(initial * Pow2(index), MAXIMUM_WAIT_MS)
  {
    hide Pow2;
  }

  /** Waits never shrink, and double until the maximum is reached. */
  lemma WaitDoubles(initial: U64, index: nat)
    ensures WaitMs(initial, index + 1) == Min(2 * WaitMs(initial, index), MAXIMUM_WAIT_MS)
    ensures WaitMs(initial, 0) == Min(initial, MAXIMUM_WAIT_MS)
    ensures WaitMs(initial, index) <= WaitMs(initial, index + 1) <= MAXIMUM_WAIT_MS
  {
    WaitIsExact(initial, index);
    WaitIsExact(initial, index + 1);
    assert initial * Pow2(index + 1) == 2 * (initial * Pow2(index));
  }
}
