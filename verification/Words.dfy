/** Go's 64-bit integers. */
module Words {
  const TWO63: int := 0x8000_0000_0000_0000
  const TWO64: int := 0x1_0000_0000_0000_0000
  const MIN_INT64: int := -0x8000_0000_0000_0000
  const MAX_INT64: int := 0x7fff_ffff_ffff_ffff
  const MAX_UINT64: int := 0xffff_ffff_ffff_ffff

  type Int64 = i: int | -0x8000_0000_0000_0000 <= i <= 0x7fff_ffff_ffff_ffff
  type Uint64 = n: nat | n <= 0xffff_ffff_ffff_ffff

  /** Overflow wraps around. */
  function Wrap64(i: int): Int64 {
    var m := i % TWO64;
    if m <= MAX_INT64 then m else m - TWO64
  }

  lemma WrapInRange(i: int)
    ensures MIN_INT64 <= i <= MAX_INT64 ==> Wrap64(i) == i
    ensures i == TWO63 ==> Wrap64(i) == MIN_INT64
  {
    assert 0 <= i < TWO64 ==> i % TWO64 == i;
    assert -TWO64 <= i < 0 ==> i % TWO64 == i + TWO64;
  }
}
