/** The fixed-width C integer types the core uses. Bit-level work is done
    on `bv32`/`bv64`; these types give the integer those bits denote. */
module CTypes {

  /** C `u8`: one byte read as an unsigned value. */
  newtype u8 = x: int | 0 <= x < 0x100

  const TWO_31: int := 0x8000_0000
  const TWO_32: int := 0x1_0000_0000

  /** C `int` (`i32` in the source's own typedefs). */
  newtype i32 = x: int | -0x8000_0000 <= x < 0x8000_0000

  /** C `unsigned int` (`u32`). */
  newtype u32 = x: int | 0 <= x < 0x1_0000_0000

  /** The C conversion of an integer to `int` on a two's complement machine:
      the one value in the `int` range congruent to `x` modulo 2^32. */
  function WrapI32(x: int): (r: i32)
    ensures (r as int - x) % TWO_32 == 0
  {
    var m := x % TWO_32;
    if m < TWO_31 then m as i32 else (m - TWO_32) as i32
  }
}
