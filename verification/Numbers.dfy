/** Go's bytes, 64-bit integers and float conversion, which several components share. */
module Numbers {

  type Byte = b: int | 0 <= b < 256

  const TWO_63 := 0x8000_0000_0000_0000
  const TWO_64 := 0x1_0000_0000_0000_0000

  type Int64 = x: int | -TWO_63 <= x < TWO_63

  /** The conversion of a float to an integer drops the fraction. */
  function Truncate(x: real): int {
    if x >= 0.0 then x.Floor else -(-x).Floor
  }

  /** `q` is the whole number next to `x` on the side of zero. */
  predicate IsWholePart(q: int, x: real) {
    if x >= 0.0 then q as real <= x < q as real + 1.0 else q as real - 1.0 < x <= q as real
  }

  lemma TruncateIsWholePart(x: real)
    ensures IsWholePart(Truncate(x), x)
    ensures (Truncate(x) >= 0 <==> x > -1.0) && (Truncate(x) > 0 <==> x >= 1.0)
  {
  }
}
