/** Bit vectors and the numbers they stand for. */
module Bits {
  lemma SameNumber(x: bv6, y: bv6)
    requires x as nat == y as nat
    ensures x == y
  {
  }

  lemma SixBitProduct(h: bv6)
    ensures (h * 0x13) as nat == (h as nat * 0x13) % 64
  {
  }

  lemma Next(y: bv8)
    requires y as nat < 255
    ensures (y + 1) as nat == y as nat + 1
  {
  }

  /** The bits of a byte. */
  function EightBits(b: nat): (y: bv8)
    requires b < 256
    ensures y as nat == b
  {
    if b == 0 then 0 else Next(EightBits(b - 1)); EightBits(b - 1) + 1
  }

  lemma SixBitsOf(y: bv8)
    ensures ((y & 0x3f) as bv6) as nat == (y as nat) % 64
  {
  }
}
