/** Go's fixed-width integer types, as ranges of the unbounded `int`,
    and the two's-complement wrap-around Go applies on overflow. */
module GoInts {

  const TWO_8: int := 0x100
  const TWO_15: int := 0x8000
  const TWO_16: int := 0x1_0000
  const TWO_31: int := 0x8000_0000
  const TWO_32: int := 0x1_0000_0000

  type byte = x: int | 0 <= x < TWO_8
  type int16 = x: int | -TWO_15 <= x < TWO_15
  type uint16 = x: int | 0 <= x < TWO_16
  type int32 = x: int | -TWO_31 <= x < TWO_31
  type uint32 = x: int | 0 <= x < TWO_32

  /** The int32 that Go's arithmetic produces for the mathematical value `x`. */
  function WrapInt32(x: int): (r: int32)
    ensures (r - x) % TWO_32 == 0
    ensures -TWO_31 <= x < TWO_31 ==> r == x
  {
    var m := x % TWO_32;
    if m >= TWO_31 then m - TWO_32 else m
  }

  /** The uint32 that Go's arithmetic produces for the mathematical value `x`. */
  function WrapUint32(x: int): (r: uint32)
    ensures (r - x) % TWO_32 == 0
    ensures 0 <= x < TWO_32 ==> r == x
  {
    x % TWO_32
  }
}
