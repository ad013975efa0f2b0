/** Values every part of the model shares: options, bytes and fixed-width integers. */
module Basics {

  datatype Option<+T> = None | Some(value: T)

  const TWO_31: int := 0x8000_0000
  const TWO_32: int := 0x1_0000_0000
  const TWO_63: int := 0x8000_0000_0000_0000

  type Byte = x: int | 0 <= x < 256
  type Bytes = seq<Byte>

  type Uint32 = x: int | 0 <= x < TWO_32
  type Int32 = x: int | -TWO_31 <= x < TWO_31

  /** Conversion to a signed 32-bit integer keeps the low bits. */
  function ToInt32(x: int): Int32 {
    var low := x % TWO_32;
    if low < TWO_31 then low else low - TWO_32
  }

  function ToUint32(x: Int32): Uint32 { if x < 0 then x as int + TWO_32 else x }

  /** What 64-bit signed arithmetic makes of an exact result. */
  function Wrap64(x: int): int {
    (x + TWO_63) % (2 * TWO_63) - TWO_63
  }
}
