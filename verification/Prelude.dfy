/** Failure-compatible datatypes, and the identities and fixed-width integers of the contracts. */
module Prelude {
  datatype Option<+T> = None | Some(value: T) {
    function GetOr(default: T): T {
      match this
      case Some(v) => v
      case None => default
    }
  }

  datatype Result<+T, +E> = Ok(value: T) | Err(error: E) {
    predicate IsFailure() { Err? }

    function PropagateFailure<U>(): Result<U, E>
      requires Err?
    {
      Err(error)
    }

    function Extract(): T
      requires Ok?
    {
      value
    }
  }

  datatype Outcome<+E> = Pass | Fail(error: E) {
    predicate IsFailure() { Fail? }

    function PropagateFailure<U>(): Result<U, E>
      requires Fail?
    {
      Err(error)
    }
  }

  function Need<E>(condition: bool, error: E): Outcome<E> {
    if condition then Pass else Fail(error)
  }

  /** The identities the contracts share: accounts and contracts, and payments. */
  datatype Address = Address(key: nat)
  datatype PaymentId = PaymentId(key: nat)

  function Min(a: int, b: int): int {
    if a < b then a else b
  }

  const U32_MAX: int := 0xFFFF_FFFF
  const I128_MAX: int := 0x7FFF_FFFF_FFFF_FFFF_FFFF_FFFF_FFFF_FFFF
  const I128_MIN: int := -I128_MAX - 1

  type u32 = x: int | 0 <= x <= U32_MAX
  type i128 = x: int | I128_MIN <= x <= I128_MAX

  /** `u32::saturating_add`. */
  function SatAdd(a: u32, b: u32): u32 {
    if a + b > U32_MAX then U32_MAX else a + b
  }

  /** `u32::saturating_sub`. */
  function SatSub(a: u32, b: u32): u32 {
    if a < b then 0 else a - b
  }

  /** `u32::saturating_mul`. */
  function SatMul(a: u32, b: u32): u32 {
    if a * b > U32_MAX then U32_MAX else if a * b < 0 then 0 else a * b
  }

  /** `i128::saturating_sub`. */
  function SatSub128(a: i128, b: i128): i128 {
    if a - b > I128_MAX then I128_MAX else if a - b < I128_MIN then I128_MIN else a - b
  }
}
