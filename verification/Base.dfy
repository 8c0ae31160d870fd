/** Small vocabulary shared by every module: optional values, 32-bit unsigned
    integers and the ceiling of a real. */
module Base {
  datatype Option<+T> = None | Some(value: T)

  const TWO_TO_THE_31: int := 0x8000_0000
  const TWO_TO_THE_32: int := 0x1_0000_0000

  type uint32 = x: int | 0 <= x < TWO_TO_THE_32

  function Min(a: int, b: int): int { if a < b then a else b }

  function Max(a: int, b: int): int { if a > b then a else b }

  /** Conversion of a uint32 to an int32 and back keeps the bits. */
  function AsInt32(x: uint32): int {
    if x < TWO_TO_THE_31 then x else x - TWO_TO_THE_32
  }

  function AsUint32(x: int): uint32 { x % TWO_TO_THE_32 }

  function Ceil(x: real): (c: int)
    ensures (c - 1) as real < x <= c as real
  {
    -((-x).Floor)
  }

  lemma CeilIsLeast(x: real, c: int)
    requires x <= c as real
    ensures Ceil(x) <= c
  {
  }

  lemma CeilMonotone(x: real, y: real)
    requires x <= y
    ensures Ceil(x) <= Ceil(y)
  {
  }
}
