/** The hash of one piece of a file (fuzzy.rs): six bits, advanced by a table. */
module PieceHash {
  import opened Bits
  import opened Bytes

  const HASH_INIT: bv6 := 0x27

  const F_ROW_0: seq<bv6> := [0x00, 0x13, 0x26, 0x39, 0x0c, 0x1f, 0x32, 0x05, 0x18, 0x2b, 0x3e, 0x11, 0x24, 0x37, 0x0a, 0x1d]
  const F_ROW_1: seq<bv6> := [0x30, 0x03, 0x16, 0x29, 0x3c, 0x0f, 0x22, 0x35, 0x08, 0x1b, 0x2e, 0x01, 0x14, 0x27, 0x3a, 0x0d]
  const F_ROW_2: seq<bv6> := [0x20, 0x33, 0x06, 0x19, 0x2c, 0x3f, 0x12, 0x25, 0x38, 0x0b, 0x1e, 0x31, 0x04, 0x17, 0x2a, 0x3d]
  const F_ROW_3: seq<bv6> := [0x10, 0x23, 0x36, 0x09, 0x1c, 0x2f, 0x02, 0x15, 0x28, 0x3b, 0x0e, 0x21, 0x34, 0x07, 0x1a, 0x2d]
  const F_TABLE: seq<bv6> := F_ROW_0 + F_ROW_1 + F_ROW_2 + F_ROW_3

  /** Only six bits of the piece hash are kept. */
  function ByteHash(h: bv6, b: Byte): bv6 {
    F_TABLE[h as nat] ^ ((b as nat % 64) as bv6)
  }

  // ---------------------------------------------------------------- what the piece hash is

  /** The 32-bit FNV hash of a piece, from ssdeep's starting value. */
  ghost function Fnv(s: seq<Byte>): bv32 {
    if s == [] then 0x2802_1967 else FnvStep(Fnv(s[..|s| - 1]), s[|s| - 1])
  }

  function FnvStep(x: bv32, b: Byte): bv32 {
    (x * 0x0100_0193) ^ Wide(b)
  }

  function Wide(b: Byte): bv32 {
    EightBits(b) as bv32
  }

  function LowSix(x: bv32): bv6 {
    (x & 0x3f) as bv6
  }

  /** The table multiplies by the FNV prime. */
  lemma TableMultiplies(i: nat)
    requires i < 64
    ensures F_TABLE[i] as nat == (i * 0x0100_0193) % 64
  {
    TableRows(i);
    if i < 16 { FirstRow(i); } else if i < 32 { SecondRow(i); } else if i < 48 { ThirdRow(i); } else { LastRow(i); }
  }

  lemma TableRows(i: nat)
    requires i < 64
    ensures F_TABLE[i] == if i < 16 then F_ROW_0[i] else if i < 32 then F_ROW_1[i - 16] else if i < 48 then F_ROW_2[i - 32] else F_ROW_3[i - 48]
  {
  }

  lemma FirstRow(i: nat)
    requires i < 16
    ensures F_ROW_0[i] as nat == (i * 0x0100_0193) % 64
  {
  }

  lemma SecondRow(i: nat)
    requires 16 <= i < 32
    ensures F_ROW_1[i - 16] as nat == (i * 0x0100_0193) % 64
  {
  }

  lemma ThirdRow(i: nat)
    requires 32 <= i < 48
    ensures F_ROW_2[i - 32] as nat == (i * 0x0100_0193) % 64
  {
  }

  lemma LastRow(i: nat)
    requires 48 <= i < 64
    ensures F_ROW_3[i - 48] as nat == (i * 0x0100_0193) % 64
  {
  }

  lemma LowSixOfByte(b: Byte)
    ensures (b as nat % 64) as bv6 == LowSix(Wide(b))
  {
    var y := EightBits(b);
    SixBitsOf(y);
    assert LowSix(Wide(b)) == (y & 0x3f) as bv6;
    SameNumber((b as nat % 64) as bv6, (y & 0x3f) as bv6);
  }

  lemma LowSixOfStep(x: bv32, y: bv32)
    ensures LowSix((x * 0x0100_0193) ^ y) == (LowSix(x) * 0x13) ^ LowSix(y)
  {
  }

  /** One step of the six-bit hash keeps the low six bits of one step of FNV. */
  lemma ByteHashIsFnvStep(x: bv32, b: Byte)
    ensures ByteHash(LowSix(x), b) == LowSix(FnvStep(x, b))
  {
    var h := LowSix(x);
    TableMultiplies(h as nat);
    SixBitProduct(h);
    SameNumber(F_TABLE[h as nat], h * 0x13);
    LowSixOfByte(b);
    LowSixOfStep(x, Wide(b));
  }

  lemma FnvGrows(y: seq<Byte>, b: Byte)
    ensures Fnv(y + [b]) == FnvStep(Fnv(y), b)
  {
    hide FnvStep;
    assert (y + [b])[..|y|] == y;
  }

  lemma FnvStart()
    ensures LowSix(Fnv([])) == HASH_INIT
  {
  }
}
