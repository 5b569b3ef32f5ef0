/**
 * Machine integer types and the small helpers shared by every part of the model.
 * C's fixed-width unsigned integers are bounded mathematical integers here; a
 * conversion that the C code performs implicitly (a truncating cast, an unsigned
 * wrap-around) is written out with the functions below.
 */
module Common {
  const TWO_32: int := 0x1_0000_0000
  const TWO_64: int := 0x1_0000_0000_0000_0000

  type u8 = x: int | 0 <= x < 0x100
  type u16 = x: int | 0 <= x < 0x1_0000
  type u32 = x: int | 0 <= x < 0x1_0000_0000
  type u64 = x: int | 0 <= x < 0x1_0000_0000_0000_0000
  type i32 = x: int | -0x8000_0000 <= x < 0x8000_0000

  datatype Option<T> = None | Some(value: T)

  /** The value of an operation, or the exception it throws. */
  datatype Result<T, E> = Ok(value: T) | Err(error: E)

  /** Conversion of any integer to uint8_t (reduction modulo 2^8). */
  function ToU8(x: int): u8 { x % 0x100 }

  /** Conversion of any integer to uint32_t (reduction modulo 2^32). */
  function ToU32(x: int): u32 { x % TWO_32 }

  /** Conversion of any integer to uint64_t (reduction modulo 2^64). */
  function ToU64(x: int): u64 { x % TWO_64 }

  /** A value that fits in 64 bits is unchanged by the conversion. */
  lemma ToU64Small(x: int)
    ensures 0 <= x < TWO_64 ==> ToU64(x) == x
  {
  }

  /** The low 32-bit word of a 64-bit value, `(uint32_t)(a & 0xFFFFFFFF)`. */
  function Lo(a: u64): u32 { a % TWO_32 }

  /** The high 32-bit word of a 64-bit value, `(uint32_t)(a >> 32)`. */
  function Hi(a: u64): u32 { a / TWO_32 }

  /** Multiplying by a non-negative factor keeps the order. */
  lemma MulMono(a: int, b: int, m: int)
    requires a <= b && 0 <= m
    ensures a * m <= b * m
  {
  }
}
