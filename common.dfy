/** Shared value types: the Option and Result wrappers the Rust code returns,
    bytes, and the bounds of the fixed-width integer types it uses. */
module Common {

  datatype Option<+T> = None | Some(value: T)

  datatype Result<+T, +E> = Success(value: T) | Failure(error: E)

  /** A `u8`. */
  type byte = b: int | 0 <= b < 256

  const I32_MIN: int := -0x8000_0000
  const I32_MAX: int := 0x7fff_ffff
  const U32_MAX: int := 0xffff_ffff
  const I64_MIN: int := -0x8000_0000_0000_0000
  const I64_MAX: int := 0x7fff_ffff_ffff_ffff
  const U64_MAX: int := 0xffff_ffff_ffff_ffff

  predicate IsI32(x: int) { I32_MIN <= x <= I32_MAX }

  /** An `i32`. */
  type i32 = x: int | IsI32(x)
  predicate IsU32(x: int) { 0 <= x <= U32_MAX }

  /** A `u32`. */
  type u32 = x: int | IsU32(x)
  predicate IsI64(x: int) { I64_MIN <= x <= I64_MAX }

  /** An `i64`. */
  type i64 = x: int | IsI64(x)
}
