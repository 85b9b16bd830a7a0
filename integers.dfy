/** The fixed-width unsigned integers of the source, as ranges of `int`. */
module Integers {

  type u8 = x: int | 0 <= x < 0x100

  type u16 = x: int | 0 <= x < 0x1_0000

  type u64 = x: int | 0 <= x < 0x1_0000_0000_0000_0000
}
