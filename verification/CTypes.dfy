/** The fixed-width integers of the C sources and the conversions between them. */
module CTypes {
  const TWO32 := 0x1_0000_0000

  type int32 = x: int | -0x8000_0000 <= x < 0x8000_0000
  type uint32 = x: int | 0 <= x < 0x1_0000_0000
  type uint64 = x: int | 0 <= x < 0x1_0000_0000_0000_0000

  /** Two's complement, modulo 2^32. */
  function ToInt32(x: int): int32 {
    var r := x % TWO32;
    if r < 0x8000_0000 then r else r - TWO32
  }

  function ToUint32(x: int): uint32 {
    x % TWO32
  }
}
