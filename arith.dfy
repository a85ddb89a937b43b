/** Fixed-width integers, the saturating and checked operations the program
    uses on them, and the program's error codes. */
module Arith {

  const U64_MAX: int := 0xFFFF_FFFF_FFFF_FFFF
  const U128_MAX: int := 0xFFFF_FFFF_FFFF_FFFF_FFFF_FFFF_FFFF_FFFF
  const I64_MIN: int := -0x8000_0000_0000_0000
  const I64_MAX: int := 0x7FFF_FFFF_FFFF_FFFF

  type u8 = x: int | 0 <= x < 0x100
  type u64 = x: int | 0 <= x <= U64_MAX
  type u128 = x: int | 0 <= x <= U128_MAX
  type i64 = x: int | I64_MIN <= x <= I64_MAX

  /** Errors a call can end with: the program's own codes, the host's
      InvalidAccountData, and ArithmeticOverflow for a `checked_*` call whose
      `unwrap` aborts the transaction. */
  datatype Error =
    | NotStarted
    | NeedsReset
    | HashInvalid
    | BusRewardsInsufficient
    | MaxSupply
    | InvalidAccountData
    | ArithmeticOverflow

  datatype Result<T> = Ok(value: T) | Err(error: Error)

  function Min(a: int, b: int): int { if a <= b then a else b }
  function Max(a: int, b: int): int { if a >= b then a else b }

  /** `u64::saturating_add`: the exact sum, or u64::MAX when that overflows. */
  function SatAdd(a: u64, b: u64): (r: u64)
    ensures r == a + b || (r == U64_MAX && a + b > U64_MAX)
  {
    if a + b <= U64_MAX then a + b else U64_MAX
  }

  /** `u64::saturating_sub`: the exact difference, or 0 when that would be negative. */
  function SatSub(a: u64, b: u64): (r: u64)
    ensures r == a - b || (r == 0 && a < b)
  {
    if a >= b then a - b else 0
  }

  /** `u64::saturating_mul`: the exact product, or u64::MAX when that overflows. */
  function SatMul(a: u64, b: u64): (r: u64)
    ensures r == a * b || (r == U64_MAX && a * b > U64_MAX)
  {
    if a * b <= U64_MAX then a * b else U64_MAX
  }

  /** `u128::saturating_mul`. */
  function SatMul128(a: u128, b: u128): (r: u128)
    ensures r == a * b || (r == U128_MAX && a * b > U128_MAX)
  {
    if a * b <= U128_MAX then a * b else U128_MAX
  }

  /** `i64::saturating_add`: the exact sum, clamped to the i64 range. */
  function SatAddI64(a: i64, b: i64): (r: i64)
    ensures I64_MIN < a + b < I64_MAX ==> r == a + b
    ensures a + b >= I64_MAX ==> r == I64_MAX
    ensures a + b <= I64_MIN ==> r == I64_MIN
  {
    if a + b > I64_MAX then I64_MAX
    else if a + b < I64_MIN then I64_MIN
    else a + b
  }

  /** The `as u64` cast of a u128: it keeps the low 64 bits. */
  function TruncateToU64(x: u128): (r: u64)
    ensures x <= U64_MAX ==> r == x
    ensures (x - r) % (U64_MAX + 1) == 0
  {
    x % (U64_MAX + 1)
  }

  /** `u64::checked_add`: None exactly when the sum overflows. */
  function CheckedAdd(a: u64, b: u64): (r: Option<u64>)
    ensures r.Some? <==> a + b <= U64_MAX
    ensures r.Some? ==> r.value == a + b
  {
    if a + b <= U64_MAX then Some(a + b) else None
  }

  /** `u64::checked_sub`: None exactly when the difference is negative. */
  function CheckedSub(a: u64, b: u64): (r: Option<u64>)
    ensures r.Some? <==> b <= a
    ensures r.Some? ==> r.value == a - b
  {
    if b <= a then Some(a - b) else None
  }

  /** `u64::checked_mul`: None exactly when the product overflows. */
  function CheckedMul(a: u64, b: u64): (r: Option<u64>)
    ensures r.Some? <==> a * b <= U64_MAX
    ensures r.Some? ==> r.value == a * b
  {
    if a * b <= U64_MAX then Some(a * b) else None
  }

  datatype Option<T> = None | Some(value: T)

  lemma MulLe(a: int, b: int, c: nat)
    requires a <= b
    ensures a * c <= b * c
  {
    assert b * c - a * c == (b - a) * c;
  }

  /** The quotient is the unique q with q*b <= x < (q+1)*b. */
  lemma DivUnique(x: int, b: int, q: int)
    requires b > 0
    requires q * b <= x < q * b + b
    ensures x / b == q
  {
    var q' := x / b;
    assert x == q' * b + x % b;
    if q' > q {
      MulLe(q + 1, q', b);
    } else if q' < q {
      MulLe(q' + 1, q, b);
    }
  }

  lemma MulDivCancel(a: int, b: int)
    requires b > 0
    ensures a * b / b == a
  {
    DivUnique(a * b, b, a);
  }

  /** Division by a positive number is monotone in the dividend. */
  lemma DivLe(x: int, y: int, b: int)
    requires b > 0 && x <= y
    ensures x / b <= y / b
  {
    assert x == (x / b) * b + x % b;
    assert y == (y / b) * b + y % b;
    if x / b > y / b {
      MulLe(y / b + 1, x / b, b);
    }
  }

  /** Division of a natural number by a positive one never increases it. */
  lemma DivAtMost(x: nat, b: int)
    requires b > 0
    ensures 0 <= x / b <= x
  {
    MulLe(1, b, x / b);
    assert x == (x / b) * b + x % b;
  }
}
