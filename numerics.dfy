/** Unsigned machine integers of the program and the Rust operations it uses on them. */
module Numerics {
  import opened Wrappers

  const U64_MAX: int := 0xFFFF_FFFF_FFFF_FFFF

  type U64 = x: int | 0 <= x <= U64_MAX
  type U8 = x: int | 0 <= x < 0x100

  /** Rust's `u64::saturating_sub`: the difference, clipped at zero. */
  function SaturatingSub(a: U64, b: U64): (r: U64)
    ensures r <= a
    ensures b <= a ==> r + b == a
    ensures a < b ==> r == 0
  {
    if b <= a then a - b else 0
  }

  /** Rust's `u64::checked_add`: the sum, or nothing when it does not fit in 64 bits. */
  function CheckedAdd(a: U64, b: U64): (r: Option<U64>)
    ensures r.Some? <==> a + b <= U64_MAX
    ensures r.Some? ==> r.value == a + b
  {
    if a + b <= U64_MAX then Some(a + b) else None
  }
}
