/** Machine integers, saturating arithmetic and the optional value, shared by every module. */
module Types {

  datatype Option<+T> = None | Some(value: T)

  /** A random 128-bit identifier. Only equality and the key order of the session table matter. */
  type Uuid = nat

  type U32 = x: int | 0 <= x <= 0xFFFF_FFFF
  type U64 = x: int | 0 <= x <= 0xFFFF_FFFF_FFFF_FFFF
  type I64 = x: int | -0x8000_0000_0000_0000 <= x <= 0x7FFF_FFFF_FFFF_FFFF

  const U64_MAX: U64 := 0xFFFF_FFFF_FFFF_FFFF
  const I64_MAX: I64 := 0x7FFF_FFFF_FFFF_FFFF
  const I64_MIN: I64 := -0x8000_0000_0000_0000

  function Min(a: int, b: int): int { if a <= b then a else b }

  function Max(a: int, b: int): int { if a <= b then b else a }

  /** u64::saturating_add */
  function SatAddU64(a: U64, b: U64): U64 { if a + b <= U64_MAX then a + b else U64_MAX }

  /** u64::saturating_sub */
  function SatSubU64(a: U64, b: U64): U64 { if b <= a then a - b else 0 }

  /** The nearest i64 to an integer. */
  function ClampI64(x: int): I64 {
    if x < I64_MIN then I64_MIN else if x > I64_MAX then I64_MAX else x
  }

  /** i64::saturating_add */
  function SatAddI64(a: I64, b: I64): I64 { ClampI64(a + b) }

  /** i64::saturating_sub */
  function SatSubI64(a: I64, b: I64): I64 { ClampI64(a - b) }

  /** i64::try_from(x).unwrap_or(i64::MAX) */
  function ToI64(x: nat): I64 { if x <= I64_MAX then x else I64_MAX }

  /** u64::try_from(x).unwrap_or_default() */
  function ToU64(x: I64): U64 { if 0 <= x then x else 0 }
}
