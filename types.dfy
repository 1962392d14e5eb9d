/** Fixed-width unsigned integers of the emulator (u8/u16/u32/u64 in types.hpp). */
module Types {
  const TWO_16: int := 0x1_0000
  const TWO_64: int := 0x1_0000_0000_0000_0000

  type u8 = x: int | 0 <= x < 0x100
  type u16 = x: int | 0 <= x < 0x1_0000
  type u32 = x: int | 0 <= x < 0x1_0000_0000
  type u64 = x: int | 0 <= x < 0x1_0000_0000_0000_0000

  /** The value of an unsigned 64-bit C++ expression: arithmetic wraps modulo 2^64. */
  function Wrap64(x: int): u64 {
    x % TWO_64
  }
}
