/** The C# `int` of the game: 32-bit two's complement, and arithmetic in
    the default unchecked context, so a sum that leaves the range wraps
    around instead of failing. */
module Int32 {

  const TWO_31: int := 0x8000_0000
  const TWO_32: int := 0x1_0000_0000

  newtype int32 = x: int | -0x8000_0000 <= x < 0x8000_0000

  const MAX_VALUE: int32 := 0x7FFF_FFFF
  const MIN_VALUE: int32 := -0x8000_0000

  predicate Fits(v: int) {
    -TWO_31 <= v < TWO_31
  }

  /** Reduce a mathematical integer to the 32-bit value with the same
      residue modulo 2^32. */
  function Wrap(v: int): (r: int32)
    ensures Fits(v) ==> r as int == v
    ensures (v - r as int) % TWO_32 == 0
  {
    ((v + TWO_31) % TWO_32 - TWO_31) as int32
  }

  /** `a + b` on C# ints. */
  function Add(a: int32, b: int32): (r: int32)
    ensures (a as int + b as int - r as int) % TWO_32 == 0
    ensures Fits(a as int + b as int) ==> r as int == a as int + b as int
    ensures !Fits(a as int + b as int) ==> (if b > 0 then r < a else r >= a)
  {
    Wrap(a as int + b as int)
  }

  /** `a - b` on C# ints. */
  function Sub(a: int32, b: int32): (r: int32)
    ensures (a as int - b as int - r as int) % TWO_32 == 0
    ensures Fits(a as int - b as int) ==> r as int == a as int - b as int
    ensures !Fits(a as int - b as int) ==> (if b < 0 then r < a else r >= a)
  {
    Wrap(a as int - b as int)
  }
}
