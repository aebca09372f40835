/** Fixed-width unsigned integers of the C++ source and an Option type. */
module Prelude {

  datatype Option<+T> = None | Some(value: T)

  /** uint8_t */
  type u8 = x: int | 0 <= x < 0x100
  /** uint16_t */
  type u16 = x: int | 0 <= x < 0x1_0000
  /** uint32_t */
  type u32 = x: int | 0 <= x < 0x1_0000_0000

  /** The implicit conversion of a uint16_t to a uint8_t: the value modulo 2^8. */
  function NarrowToU8(x: u16): (r: u8)
    ensures (x - r) % 0x100 == 0
    ensures x < 0x100 ==> r == x
  {
    x % 0x100
  }
}
