/** Bytes, and the little-endian numbers made of them. */
module Bytes {
  type Byte = b: nat | b < 256

  function Range(width: nat): (n: nat)
    ensures n >= 1
  {
    if width == 0 then 1 else 256 * Range(width - 1)
  }

  function FromLe(s: seq<Byte>): (n: nat)
    ensures n < Range(|s|)
  {
    if s == [] then 0 else s[0] + 256 * FromLe(s[1..])
  }

  /** The low `width` bytes of `n`. */
  function ToLe(n: nat, width: nat): (s: seq<Byte>)
    ensures |s| == width
  {
    if width == 0 then [] else [n % 256] + ToLe(n / 256, width - 1)
  }

  lemma {:induction false} FromTo(n: nat, width: nat)
    requires n < Range(width)
    ensures FromLe(ToLe(n, width)) == n
  {
    if width > 0 {
      FromTo(n / 256, width - 1);
      assert ToLe(n, width)[1..] == ToLe(n / 256, width - 1);
    }
  }

  lemma {:induction false} ToFrom(s: seq<Byte>)
    ensures ToLe(FromLe(s), |s|) == s
  {
    if s != [] {
      ToFrom(s[1..]);
      assert s == [s[0]] + s[1..];
    }
  }

  lemma Ranges()
    ensures Range(1) == 0x100 && Range(2) == 0x1_0000 && Range(4) == 0x1_0000_0000 && Range(8) == 0x1_0000_0000_0000_0000
  {
    assert Range(3) == 256 * Range(2) && Range(5) == 256 * Range(4) && Range(6) == 256 * Range(5) && Range(7) == 256 * Range(6);
  }

  /** The first byte counts least. */
  lemma LittleEndian(a: Byte, b: Byte, c: Byte, d: Byte)
    ensures FromLe([a, b]) == a as nat + 256 * b as nat
    ensures FromLe([a, b, c, d]) == a as nat + 256 * b as nat + 0x1_0000 * c as nat + 0x100_0000 * d as nat
    ensures Units([a, b, c, d]) == [a as nat + 256 * b as nat, c as nat + 256 * d as nat]
  {
    assert [a, b, c, d][1..] == [b, c, d] && [b, c, d][1..] == [c, d] && [c, d][1..] == [d] && [d][1..] == [] && [a, b][1..] == [b] && [b][1..] == [];
    assert FromLe([d]) == d as nat && FromLe([c, d]) == c as nat + 256 * d as nat;
    assert FromLe([b, c, d]) == b as nat + 256 * FromLe([c, d]);
    assert [a, b, c, d][2..] == [c, d] && [c, d][2..] == [];
    assert Units([c, d]) == [c as nat + 256 * d as nat] + Units([]);
  }

  // ---------------------------------------------------------------- 16-bit units and signs

  type Unit = u: nat | u < 0x1_0000

  /** Little-endian 16-bit units; an odd last byte is dropped. */
  function Units(s: seq<Byte>): (u: seq<Unit>)
    ensures |u| == |s| / 2
  {
    if |s| < 2 then [] else [s[0] as nat + 256 * s[1] as nat] + Units(s[2..])
  }

  function UnitBytes(u: seq<Unit>): (s: seq<Byte>)
    ensures |s| == 2 * |u|
  {
    if u == [] then [] else [u[0] % 256, u[0] / 256] + UnitBytes(u[1..])
  }

  lemma {:induction false} UnitsOfBytes(u: seq<Unit>)
    ensures Units(UnitBytes(u)) == u
  {
    if u != [] {
      UnitsOfBytes(u[1..]);
      assert UnitBytes(u)[2..] == UnitBytes(u[1..]);
    }
  }

  const I64_MAX: nat := 0x7fff_ffff_ffff_ffff
  const TWO_64: nat := 0x1_0000_0000_0000_0000

  type Int64 = x: int | -(I64_MAX as int) - 1 <= x <= I64_MAX

  /** Two's complement. */
  function ToSigned(n: nat): Int64
    requires n < TWO_64
  {
    if n <= I64_MAX then n else n - TWO_64
  }

  function FromSigned(x: Int64): (n: nat)
    ensures n < TWO_64 && ToSigned(n) == x
  {
    if x >= 0 then x else x + TWO_64
  }
}
