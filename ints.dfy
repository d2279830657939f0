/** Fixed-width Rust integers and their checked arithmetic. */
module Ints {

  const U8_MAX: int := 0xFF
  const U64_MAX: int := 0xFFFF_FFFF_FFFF_FFFF
  const I64_MIN: int := -0x8000_0000_0000_0000
  const I64_MAX: int := 0x7FFF_FFFF_FFFF_FFFF

  type u8 = x: int | 0 <= x <= U8_MAX
  type u64 = x: int | 0 <= x <= U64_MAX
  type i64 = x: int | I64_MIN <= x <= I64_MAX

  datatype Option<T> = None | Some(value: T)

  /** `u64::checked_add`: `None` exactly when the sum leaves the u64 range. */
  function CheckedAdd(a: u64, b: u64): (r: Option<u64>)
    ensures r.Some? <==> a + b <= U64_MAX
    ensures r.Some? ==> r.value - b == a
  {
    if a + b <= U64_MAX then Some(a + b) else None
  }

  /** `u64::checked_sub`: `None` exactly when the difference is negative. */
  function CheckedSub(a: u64, b: u64): (r: Option<u64>)
    ensures r.Some? <==> b <= a
    ensures r.Some? ==> r.value + b == a
  {
    if b <= a then Some(a - b) else None
  }

  /** A checked subtraction undoes the checked addition it follows, and conversely. */
  lemma CheckedInverse(a: u64, b: u64)
    ensures CheckedAdd(a, b).Some? ==> CheckedSub(CheckedAdd(a, b).value, b) == Some(a)
    ensures CheckedSub(a, b).Some? ==> CheckedAdd(CheckedSub(a, b).value, b) == Some(a)
  {
  }
}
