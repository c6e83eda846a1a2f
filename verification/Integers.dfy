/** Integer limits that money amounts and JSON numbers share (golang/pricing/money.go). */
module Integers {
  // pricing.RedisSafeLimit and math.MaxInt64.
  const SAFE_LIMIT: int := 0x1F_FFFF_FFFF_FFFF
  const MAX_INT64: int := 0x7FFF_FFFF_FFFF_FFFF

  type Int64 = n: int | -MAX_INT64 - 1 <= n <= MAX_INT64

  lemma MulOrdered(factor: int, small: int, large: int)
    requires factor > 0 && small <= large
    ensures factor * small <= factor * large
  {
    assert factor * (large - small) >= 0;
    assert factor * (large - small) == factor * large - factor * small;
  }
}
