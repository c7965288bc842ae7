/** The colour value of Go's image/color package: four unsigned 8-bit channels. */
module Colours {

  /** Go's uint8. */
  type uint8 = x: int | 0 <= x < 256

  /** color.RGBA (alpha-premultiplied in Go; the parser never premultiplies, it stores what it reads). */
  datatype RGBA = RGBA(r: uint8, g: uint8, b: uint8, a: uint8)

  /** color.RGBA{}, the zero colour (transparent black), also the initial content of a new image. */
  const Transparent: RGBA := RGBA(0, 0, 0, 0)

  /** Go's conversion uint8(v) of a 64-bit int: two's-complement truncation to the low 8 bits. */
  function ToUint8(v: int): (r: uint8)
    ensures (v - r) % 256 == 0
    ensures 0 <= v < 256 ==> r == v
  {
    v % 256
  }

  /** Go's `x *= 17` on a uint8, which wraps modulo 256. */
  function Mul17(x: uint8): (r: uint8)
    ensures (r - 17 * x) % 256 == 0
  {
    (x * 17) % 256
  }

  /** On a single hex digit the product never wraps, and it replicates the digit into both nibbles. */
  lemma Mul17Nibble(x: uint8)
    requires x < 16
    ensures Mul17(x) == 16 * x + x
    ensures Mul17(x) / 16 == x && Mul17(x) % 16 == x
  {
  }
}
