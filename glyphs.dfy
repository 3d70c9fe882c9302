/** Bytes and the ASCII codes the game draws with (main.go, the const block). */
module Glyphs {
  /** Go's byte: an unsigned 8-bit value. */
  newtype byte = b: int | 0 <= b < 256

  const SnakeASCII: byte := 42
  const FoodASCII: byte := 48
  const WhiteSpaceASCII: byte := 32
  const BorderASCII: byte := 43

  /** Go's conversion byte(n): keeps the low eight bits of n (Dafny's % is never negative). */
  function ToByte(n: int): (r: byte)
    ensures (r as int - n) % 256 == 0
  {
    (n % 256) as byte
  }
}
