/** Vocabulary shared by every module: optional values, results and 64-bit unsigned arithmetic. */
module Base {
  datatype Option<+T> = None | Some(value: T)

  datatype Result<+T, +E> = Ok(value: T) | Err(error: E)

  const U64_MAX: nat := 0xFFFF_FFFF_FFFF_FFFF

  /** The source's `u64`. */
  type u64 = x: int | 0 <= x <= U64_MAX

  /** `u64::saturating_add`. */
  function SatAdd(a: u64, b: u64): u64 {
    if a + b <= U64_MAX then a + b else U64_MAX
  }

  /** `u64::saturating_mul`. */
  function SatMul(a: u64, b: u64): u64 {
    if a * b <= U64_MAX then a * b else U64_MAX
  }

  /** `u64::saturating_sub`. */
  function SatSub(a: u64, b: u64): u64 {
    if b <= a then a - b else 0
  }

  function Max(a: u64, b: u64): u64 {
    if a < b then b else a
  }

  function Min(a: u64, b: u64): u64 {
    if a < b then a else b
  }
}
