/** Java's 32-bit two's-complement `int`. */
module JavaInt {

  const MinInt: int := -0x8000_0000
  const MaxInt: int := 0x7fff_ffff
  const Modulus: int := 0x1_0000_0000

  newtype int32 = x: int | -0x8000_0000 <= x < 0x8000_0000

  /** Java's `a - b` on `int`: the exact difference reduced modulo 2^32 into
      the signed range, so a difference below `MinInt` wraps round to a large
      positive value. */
  function Sub(a: int32, b: int32): (r: int32)
    ensures MinInt <= a as int - b as int <= MaxInt ==> r as int == a as int - b as int
    ensures a as int - b as int < MinInt ==> r as int == a as int - b as int + Modulus
    ensures a as int - b as int > MaxInt ==> r as int == a as int - b as int - Modulus
  {
    ((a as int - b as int - MinInt) % Modulus + MinInt) as int32
  }
}
