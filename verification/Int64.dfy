/** Two's-complement arithmetic of 64 bits. */
module Int64 {

  const TWO_63: int := 0x8000_0000_0000_0000
  const TWO_64: int := 0x1_0000_0000_0000_0000

  /** The two's-complement value an int64 holds after an exact result `x` has wrapped. */
  function Wrap64(x: int): (r: int)
    ensures -TWO_63 <= r < TWO_63
    ensures r == x <==> -TWO_63 <= x < TWO_63
    ensures (r - x) % TWO_64 == 0
  {
    (x + TWO_63) % TWO_64 - TWO_63
  }
}
