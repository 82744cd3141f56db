/** UTF-16 as the Windows calls hand over file names: `String::from_utf16_lossy` and
    `str::encode_utf16`. A char is a Unicode scalar value, so no char is a surrogate. */
module Utf16 {
  import opened Bytes

  /** Stands for a surrogate without its partner. */
  const REPLACEMENT: char := 0xfffd as char

  predicate IsHigh(u: Unit) {
    0xd800 <= u < 0xdc00
  }

  predicate IsLow(u: Unit) {
    0xdc00 <= u < 0xe000
  }

  /** The scalar value of a surrogate pair. */
  function Join(high: Unit, low: Unit): (c: char)
    requires IsHigh(high) && IsLow(low)
    ensures c as int >= 0x10000
  {
    (0x10000 + (high - 0xd800) * 0x400 + (low - 0xdc00)) as char
  }

  function EncodeChar(c: char): (us: seq<Unit>)
    ensures 1 <= |us| <= 2
  {
    var n := c as int;
    if n < 0x10000 then [n] else [0xd800 + (n - 0x10000) / 0x400, 0xdc00 + (n - 0x10000) % 0x400]
  }

  function Encode(t: string): seq<Unit> {
    if t == [] then [] else EncodeChar(t[0]) + Encode(t[1..])
  }

  function Lossy(us: seq<Unit>): string
    decreases |us|
  {
    if us == [] then []
    else if IsHigh(us[0]) && |us| > 1 && IsLow(us[1]) then [Join(us[0], us[1])] + Lossy(us[2..])
    else if IsHigh(us[0]) || IsLow(us[0]) then [REPLACEMENT] + Lossy(us[1..])
    else [us[0] as char] + Lossy(us[1..])
  }

  /** Every surrogate has its partner. */
  predicate Paired(us: seq<Unit>)
    decreases |us|
  {
    if us == [] then true
    else if IsHigh(us[0]) then |us| > 1 && IsLow(us[1]) && Paired(us[2..])
    else !IsLow(us[0]) && Paired(us[1..])
  }

  /** The two units of a char beyond the basic plane join to it again. */
  lemma JoinOfSplit(c: char)
    requires c as int >= 0x10000
    ensures var us := EncodeChar(c);
            |us| == 2 && IsHigh(us[0]) && IsLow(us[1]) && Join(us[0], us[1]) == c
  {
  }

  lemma SplitOfJoin(high: Unit, low: Unit)
    requires IsHigh(high) && IsLow(low)
    ensures EncodeChar(Join(high, low)) == [high, low]
  {
  }

  /** Decoding inverts encoding for every text. */
  lemma {:induction false} LossyOfEncoded(t: string)
    ensures Lossy(Encode(t)) == t && Paired(Encode(t))
  {
    if t != [] {
      LossyOfEncoded(t[1..]);
      var us, rest := EncodeChar(t[0]), Encode(t[1..]);
      if t[0] as int >= 0x10000 {
        JoinOfSplit(t[0]);
        assert (us + rest)[2..] == rest;
      } else {
        assert (us + rest)[1..] == rest;
      }
    }
  }

  /** Nothing is lost exactly when every surrogate is paired. */
  lemma {:induction false} LosslessWhenPaired(us: seq<Unit>)
    ensures Encode(Lossy(us)) == us <==> Paired(us)
    decreases |us|
  {
    if us != [] {
      var t := Lossy(us);
      if IsHigh(us[0]) && |us| > 1 && IsLow(us[1]) {
        LosslessWhenPaired(us[2..]);
        SplitOfJoin(us[0], us[1]);
        assert t[1..] == Lossy(us[2..]);
        assert (us[..2] + Encode(t[1..]))[2..] == Encode(t[1..]) && us == us[..2] + us[2..];
      } else {
        LosslessWhenPaired(us[1..]);
        assert t[1..] == Lossy(us[1..]);
        assert Encode(t)[0] == t[0] as int && Encode(t)[1..] == Encode(t[1..]);
        assert us == [us[0]] + us[1..];
      }
    }
  }

  // ---------------------------------------------------------------- names in buffers

  function NameOf(bytes: seq<Byte>): string {
    Lossy(Units(bytes))
  }

  function NameBytes(name: string): seq<Byte> {
    UnitBytes(Encode(name))
  }

  lemma NameReadBack(name: string)
    ensures NameOf(NameBytes(name)) == name && |NameBytes(name)| % 2 == 0
  {
    UnitsOfBytes(Encode(name));
    LossyOfEncoded(name);
  }
}
