/** The context-triggered piecewise digest (fuzzy.rs): two nested hashes computed in one pass,
    and the search for a block size.

    Block sizes are 32-bit numbers that wrap when they are doubled, as in a release build. */
module FuzzyDigest {
  import opened Bytes
  import opened Options
  import opened PieceHash
  import opened RollingHash

  const BLOCKSIZE_MIN: nat := 3
  const SPAMSUM_LENGTH: nat := 64
  const UPPER: string := "ABCDEFGHIJKLMNOPQRSTUVWXYZ"
  const LOWER: string := "abcdefghijklmnopqrstuvwxyz"
  const OTHERS: string := "0123456789+/"
  const B64: string := UPPER + LOWER + OTHERS

  /** The first level pushes at most this many characters, the second at most that many. */
  const FIRST_CAP: nat := 63
  const SECOND_CAP: nat := 31

  function Base64Char(v: bv6): char {
    B64[v as nat]
  }

  // ---------------------------------------------------------------- one level alone

  /** One piece hash: its running value, the characters so far, and the value at the last cut. */
  datatype Level = Level(h: bv6, text: string, last: bv6)

  /** The rolling value cuts here. */
  predicate Cuts(rh: nat, blockSize: nat)
    requires blockSize > 0
  {
    rh % blockSize == blockSize - 1
  }

  function Feed(l: Level, b: Byte, cut: bool, cap: nat): Level {
    var h := ByteHash(l.h, b);
    if !cut then l.(h := h)
    else if |l.text| < cap then Level(HASH_INIT, l.text + [Base64Char(h)], HASH_INIT)
    else Level(h, l.text, h)
  }

  /** The digest of `data` at one block size, with at most `cap` characters. */
  function Digest(data: seq<Byte>, blockSize: nat, cap: nat): (l: Level)
    requires blockSize > 0
    ensures |l.text| <= cap && |l.text| <= |data|
    ensures forall i :: 0 <= i < |l.text| ==> l.text[i] in B64
  {
    if data == [] then Level(HASH_INIT, [], 0)
    else Feed(Digest(data[..|data| - 1], blockSize, cap), data[|data| - 1], Cuts(RollValue(data), blockSize), cap)
  }

  /** What a cap does: the shorter digest is the longer one cut to its cap, and as long as the
      cap is not passed the two agree in everything. */
  lemma {:induction false} CapTruncates(data: seq<Byte>, blockSize: nat, small: nat, large: nat)
    requires blockSize > 0 && small <= large
    ensures var x, y := Digest(data, blockSize, small), Digest(data, blockSize, large);
            && (|y.text| <= small ==> x == y)
            && (|y.text| > small ==> x.text == y.text[..small])
  {
    hide RollValue, Cuts, ByteHash, Base64Char;
    if data != [] {
      CapTruncates(data[..|data| - 1], blockSize, small, large);
    }
  }

  /** The characters one by one. Let `x` be empty or end where a character was written, and let
      none be written inside `y`: behind `x + y` the open piece is `y`, and if the rolling value
      cuts there and the cap leaves room, its FNV hash gives the next character. */
  lemma {:induction false} NextCharacter(x: seq<Byte>, y: seq<Byte>, blockSize: nat, cap: nat)
    requires blockSize > 0 && (x == [] || |Digest(x[..|x| - 1], blockSize, cap).text| < |Digest(x, blockSize, cap).text|)
    requires forall k :: 0 <= k < |y| ==> |Digest(x + y[..k], blockSize, cap).text| == |Digest(x, blockSize, cap).text|
    ensures var before, after := Digest(x, blockSize, cap), Digest(x + y, blockSize, cap);
            && after.text == (if y != [] && RollValue(x + y) % blockSize == blockSize - 1 && |before.text| < cap
                              then before.text + [B64[LowSix(Fnv(y)) as nat]] else before.text)
            && (after.text == before.text ==> after.h == LowSix(Fnv(y)))
  {
    hide *;
    if y == [] {
      assert x + y == x;
      FnvStart();
      ResetByCharacter(x, blockSize, cap);
    } else {
      var y', b := y[..|y| - 1], y[|y| - 1];
      Behind(x, y);
      forall k | 0 <= k < |y'| ensures |Digest(x + y'[..k], blockSize, cap).text| == |Digest(x, blockSize, cap).text| {
        assert y'[..k] == y[..k];
      }
      NextCharacter(x, y', blockSize, cap);
      assert |Digest(x + y[..|y| - 1], blockSize, cap).text| == |Digest(x, blockSize, cap).text|;
      OneByteMore(x + y', b, blockSize, cap, Fnv(y'));
      FnvGrows(y', b);
    }
  }

  lemma Behind(x: seq<Byte>, y: seq<Byte>)
    requires y != []
    ensures y == y[..|y| - 1] + [y[|y| - 1]] && x + y == (x + y[..|y| - 1]) + [y[|y| - 1]]
  {
  }

  /** One byte more, in terms of the FNV hash of the open piece. */
  lemma OneByteMore(data: seq<Byte>, b: Byte, blockSize: nat, cap: nat, f: bv32)
    requires blockSize > 0 && Digest(data, blockSize, cap).h == LowSix(f)
    ensures var l, l' := Digest(data, blockSize, cap), Digest(data + [b], blockSize, cap);
            if RollValue(data + [b]) % blockSize == blockSize - 1 && |l.text| < cap
            then l'.text == l.text + [B64[LowSix(FnvStep(f, b)) as nat]] else l'.text == l.text && l'.h == LowSix(FnvStep(f, b))
  {
    hide *;
    NextLevel(data, b, blockSize, cap);
    ByteHashIsFnvStep(f, b);
  }

  lemma NextLevel(data: seq<Byte>, b: Byte, blockSize: nat, cap: nat)
    requires blockSize > 0
    ensures var l, h := Digest(data, blockSize, cap), ByteHash(Digest(data, blockSize, cap).h, b);
            var l' := Digest(data + [b], blockSize, cap);
            if RollValue(data + [b]) % blockSize == blockSize - 1 && |l.text| < cap
            then l'.text == l.text + [B64[h as nat]] else l'.text == l.text && l'.h == h
  {
    hide RollValue, ByteHash;
    assert (data + [b])[..|data|] == data;
  }

  /** Where a character was written, the next piece starts. */
  lemma ResetByCharacter(x: seq<Byte>, blockSize: nat, cap: nat)
    requires blockSize > 0 && (x == [] || |Digest(x[..|x| - 1], blockSize, cap).text| < |Digest(x, blockSize, cap).text|)
    ensures Digest(x, blockSize, cap).h == HASH_INIT
  {
    hide RollValue, ByteHash;
  }

  // ---------------------------------------------------------------- both levels in one pass

  lemma AtLeastOnce(k: int, d: int)
    requires k >= 1 && d >= 0
    ensures k * d >= d
  {
    assert k * d == (k - 1) * d + d;
  }

  lemma RemainderIsUnique(n: nat, d: nat, q: int, r: nat)
    requires r < d && n == q * d + r
    ensures n % d == r
  {
    var q', r' := n / d, n % d;
    assert n == q' * d + r';
    assert (q - q') * d == q * d - q' * d;
    assert (q' - q) * d == q' * d - q * d;
    if q > q' {
      AtLeastOnce(q - q', d);
    } else if q < q' {
      AtLeastOnce(q' - q, d);
    }
  }

  /** A cut at twice the block size is a cut at the block size. */
  lemma CutsNest(rh: nat, blockSize: nat)
    requires blockSize > 0 && Cuts(rh, 2 * blockSize)
    ensures Cuts(rh, blockSize)
  {
    var q := rh / (2 * blockSize);
    assert rh == q * (2 * blockSize) + (2 * blockSize - 1);
    assert q * (2 * blockSize) == (2 * q) * blockSize;
    assert (2 * q + 1) * blockSize == (2 * q) * blockSize + blockSize;
    RemainderIsUnique(rh, blockSize, 2 * q + 1, blockSize - 1);
  }

  /** The greatest block size that the search can end at. Doubled, it does not fit 32 bits. */
  const TOP_SIZE: nat := 0xC000_0000

  /** Twice the block size fits 32 bits, or it is the one for which that does not matter. */
  predicate Doubles(blockSize: nat) {
    blockSize > 0 && (2 * blockSize < WORD || blockSize == TOP_SIZE)
  }

  /** Within the cuts of the first level, the wrapped double cuts where the true one does. */
  lemma WrapIsHarmless(rh: nat, blockSize: nat)
    requires Doubles(blockSize) && rh < WORD && Cuts(rh, blockSize)
    ensures Wrap(blockSize * 2) > 0
    ensures Cuts(rh, Wrap(blockSize * 2)) <==> Cuts(rh, 2 * blockSize)
  {
    if blockSize == TOP_SIZE {
      var q := rh / TOP_SIZE;
      assert rh == q * TOP_SIZE + (TOP_SIZE - 1);
      if q >= 1 { AtLeastOnce(q, TOP_SIZE); }
      assert rh == TOP_SIZE - 1;
    }
  }

  /** The state of one pass: both levels and the rolling value after the bytes so far. */
  ghost predicate InStep(data: seq<Byte>, blockSize: nat, l1: Level, l2: Level, rh: nat)
    requires blockSize > 0
  {
    && l1 == Digest(data, blockSize, FIRST_CAP)
    && l2 == Digest(data, 2 * blockSize, SECOND_CAP)
    && rh == RollValue(data)
  }

  lemma InStepGrows(data: seq<Byte>, b: Byte, blockSize: nat, l1: Level, l2: Level, rh: nat, rh': nat)
    requires blockSize > 0 && InStep(data, blockSize, l1, l2, rh) && rh' == RollValue(data + [b])
    ensures Cuts(rh', 2 * blockSize) ==> Cuts(rh', blockSize)
    ensures InStep(data + [b], blockSize, Feed(l1, b, Cuts(rh', blockSize), FIRST_CAP),
                   Feed(l2, b, Cuts(rh', 2 * blockSize), SECOND_CAP), rh')
  {
    if Cuts(rh', 2 * blockSize) { CutsNest(rh', blockSize); }
    hide Cuts, RollValue, Feed;
    assert (data + [b])[..|data|] == data;
  }

  lemma StartsInStep(blockSize: nat)
    requires blockSize > 0
    ensures InStep([], blockSize, Level(HASH_INIT, [], 0), Level(HASH_INIT, [], 0), 0)
  {
    RollOfNothing();
  }

  lemma FromInStep(data: seq<Byte>, blockSize: nat, l1: Level, l2: Level, rh: nat)
    requires blockSize > 0 && InStep(data, blockSize, l1, l2, rh)
    ensures l1 == Digest(data, blockSize, FIRST_CAP) && l2 == Digest(data, 2 * blockSize, SECOND_CAP) && rh == RollValue(data)
  {
  }

  /** `Feed` spelled out in the branches of the loop. */
  lemma FeedIs(l: Level, b: Byte, cut: bool, cap: nat)
    ensures var h := ByteHash(l.h, b);
            Feed(l, b, cut, cap)
              == if !cut then Level(h, l.text, l.last)
                 else if |l.text| < cap then Level(HASH_INIT, l.text + [Base64Char(h)], HASH_INIT)
                 else Level(h, l.text, h)
  {
  }

  /** One pass over the bytes: each level comes out as if it had been computed alone. */
  method HashWithBlock(data: seq<Byte>, blockSize: nat) returns (hs1: string, hs2: string, tail1: bv6, tail2: bv6, rh: nat)
    requires Doubles(blockSize)
    ensures hs1 == Digest(data, blockSize, FIRST_CAP).text
    ensures hs2 == Digest(data, 2 * blockSize, SECOND_CAP).text
    ensures rh == RollValue(data)
    ensures tail1 == var l := Digest(data, blockSize, FIRST_CAP); if rh != 0 then l.h else l.last
    ensures tail2 == var l := Digest(data, 2 * blockSize, SECOND_CAP); if rh != 0 then l.h else l.last
  {
    hide InStep, RollValue, Roll.Valid, Digest, ByteHash, Base64Char, Feed, Wrap;
    var roll := new Roll();
    var bh1, bh2 := HASH_INIT, HASH_INIT;
    var last1, last2: bv6 := 0, 0;
    hs1, hs2, rh := [], [], 0;
    StartsInStep(blockSize);
    assert data[..|data|] == data;
    for i := 0 to |data|
      invariant roll.Valid() && fresh(roll) && fresh(roll.window) && roll.history == data[..i]
      invariant InStep(data[..i], blockSize, Level(bh1, hs1, last1), Level(bh2, hs2, last2), rh)
    {
      ghost var l1, l2 := Level(bh1, hs1, last1), Level(bh2, hs2, last2);
      assert data[..i + 1] == data[..i] + [data[i]];
      bh1 := ByteHash(bh1, data[i]);
      bh2 := ByteHash(bh2, data[i]);
      ghost var rh0 := rh;
      rh := roll.Update(data[i]);
      InStepGrows(data[..i], data[i], blockSize, l1, l2, rh0, rh);
      FeedIs(l1, data[i], Cuts(rh, blockSize), FIRST_CAP);
      FeedIs(l2, data[i], Cuts(rh, 2 * blockSize), SECOND_CAP);
      if rh % blockSize == blockSize - 1 {
        last1 := bh1;
        if |hs1| < SPAMSUM_LENGTH - 1 {
          hs1 := hs1 + [Base64Char(bh1)];
          bh1 := HASH_INIT;
          last1 := HASH_INIT;
        }
        WrapIsHarmless(rh, blockSize);
        var twice := Wrap(blockSize * 2);
        if rh % twice == twice - 1 {
          last2 := bh2;
          if |hs2| < SPAMSUM_LENGTH / 2 - 1 {
            hs2 := hs2 + [Base64Char(bh2)];
            bh2 := HASH_INIT;
            last2 := HASH_INIT;
          }
        }
      }
    }
    FromInStep(data, blockSize, Level(bh1, hs1, last1), Level(bh2, hs2, last2), rh);
    tail1, tail2 := if rh != 0 then bh1 else last1, if rh != 0 then bh2 else last2;
  }

  lemma RollOfNothing()
    ensures RollValue([]) == 0
  {
    var zeros: seq<Byte> := [0, 0, 0, 0, 0, 0, 0];
    assert Window([]) == zeros;
    ShiftXorOfSeven(0, zeros);
  }

  /** The second hash string is the first hash string at twice the block size, cut to 31
      characters; and when that one has no more than 31, the tail characters agree too. */
  lemma SecondIsFirstAtTwice(data: seq<Byte>, blockSize: nat)
    requires blockSize > 0
    ensures var second, first := Digest(data, 2 * blockSize, SECOND_CAP), Digest(data, 2 * blockSize, FIRST_CAP);
            && second.text == (if |first.text| <= 31 then first.text else first.text[..31])
            && (|first.text| <= 31 ==> second.h == first.h && second.last == first.last)
  {
    CapTruncates(data, 2 * blockSize, SECOND_CAP, FIRST_CAP);
  }

  // ---------------------------------------------------------------- the printed digest

  function Pow2(k: nat): (n: nat)
    ensures n >= 1
  {
    if k == 0 then 1 else 2 * Pow2(k - 1)
  }

  /** The block sizes there are. */
  function SizeAt(k: nat): (n: nat)
    ensures n >= 3
  {
    BLOCKSIZE_MIN * Pow2(k)
  }

  lemma TenDoublings(k: nat)
    ensures Pow2(k + 10) == 1024 * Pow2(k)
  {
    assert Pow2(k + 2) == 4 * Pow2(k);
    assert Pow2(k + 4) == 16 * Pow2(k);
    assert Pow2(k + 6) == 64 * Pow2(k);
    assert Pow2(k + 8) == 256 * Pow2(k);
  }

  function Decimal(n: nat): string {
    if n < 10 then ["0123456789"[n]] else Decimal(n / 10) + ["0123456789"[n % 10]]
  }

  /** One level with its tail: the piece that was open at the end, unless the rolling value
      happens to be zero there. */
  function WithTail(data: seq<Byte>, l: Level): string {
    l.text + (if RollValue(data) != 0 then [Base64Char(l.h)] else [])
  }

  function First(data: seq<Byte>, blockSize: nat): string
    requires blockSize > 0
  {
    WithTail(data, Digest(data, blockSize, FIRST_CAP))
  }

  function Second(data: seq<Byte>, blockSize: nat): string
    requires blockSize > 0
  {
    WithTail(data, Digest(data, 2 * blockSize, SECOND_CAP))
  }

  function Printed(data: seq<Byte>, blockSize: nat): string
    requires blockSize > 0
  {
    Decimal(blockSize) + ":" + First(data, blockSize) + ":" + Second(data, blockSize)
  }

  /** At most 64 and 32 characters, all of them base64. */
  lemma PrintedShape(data: seq<Byte>, blockSize: nat)
    requires blockSize > 0
    ensures |First(data, blockSize)| <= 64 && |Second(data, blockSize)| <= 32
    ensures forall c :: c in First(data, blockSize) + Second(data, blockSize) ==> c in B64
  {
    hide RollValue, Digest, ByteHash;
    var a, b := Digest(data, blockSize, FIRST_CAP), Digest(data, 2 * blockSize, SECOND_CAP);
    assert Base64Char(a.h) in B64 && Base64Char(b.h) in B64;
  }

  /** The parts of the printed digest: the block size in decimal, at most 63 characters and at
      most 31 at twice the block size, and behind each the open piece's, unless the rolling value
      is zero at the end. */
  lemma PrintedInDetail(data: seq<Byte>, blockSize: nat)
    requires blockSize > 0
    ensures var a, b := Digest(data, blockSize, 63), Digest(data, 2 * blockSize, 31);
            && (RollValue(data) == 0 ==> Printed(data, blockSize) == Decimal(blockSize) + ":" + a.text + ":" + b.text)
            && (RollValue(data) != 0 ==>
                  Printed(data, blockSize) == Decimal(blockSize) + ":" + (a.text + [B64[a.h as nat]]) + ":" + (b.text + [B64[b.h as nat]]))
  {
    TailInDetail(data, Digest(data, blockSize, 63));
    TailInDetail(data, Digest(data, 2 * blockSize, 31));
    hide Digest, RollValue, Decimal, WithTail;
  }

  lemma TailInDetail(data: seq<Byte>, l: Level)
    ensures WithTail(data, l) == if RollValue(data) == 0 then l.text else l.text + [B64[l.h as nat]]
  {
    hide RollValue;
    assert l.text + [] == l.text;
  }

  // ---------------------------------------------------------------- the block size

  function CharsAt(data: seq<Byte>, k: nat): nat {
    |Digest(data, SizeAt(k), FIRST_CAP).text|
  }

  /** The search starts at the least block size whose 64 characters could cover the file. */
  ghost predicate IsStart(data: seq<Byte>, k: nat) {
    && |data| <= SizeAt(k) * SPAMSUM_LENGTH
    && (k == 0 || SizeAt(k - 1) * SPAMSUM_LENGTH < |data|)
  }

  /** From there it goes down to the first block size that gives at least 32 characters, or to
      the least one. */
  ghost predicate IsChosen(data: seq<Byte>, k: nat) {
    && (k == 0 || CharsAt(data, k) >= 32)
    && exists start :: IsStart(data, start) && k <= start && forall j :: k < j <= start ==> CharsAt(data, j) < 32
  }

  lemma {:induction false} SizesGrow(j: nat, k: nat)
    requires j < k
    ensures 2 * SizeAt(j) <= SizeAt(k)
  {
    if j + 1 < k { SizesGrow(j, k - 1); }
  }

  /** The chosen block size in numbers: three times a power of two; no smaller than that of the
      first 32 characters on the way down from the least one whose 64 characters cover the
      file. */
  lemma ChosenInDetail(data: seq<Byte>, k: nat) returns (start: nat)
    requires IsChosen(data, k)
    ensures k <= start && |data| <= 192 * Pow2(start) && (start > 0 ==> 192 * Pow2(start - 1) < |data|)
    ensures SizeAt(k) == 3 * Pow2(k) && (k > 0 ==> |Digest(data, 3 * Pow2(k), 63).text| >= 32)
    ensures forall j :: k < j <= start ==> |Digest(data, 3 * Pow2(j), 63).text| < 32
  {
    hide Digest;
    start :| IsStart(data, start) && k <= start && forall j :: k < j <= start ==> CharsAt(data, j) < 32;
    forall j | k < j <= start ensures |Digest(data, 3 * Pow2(j), 63).text| < 32 { assert CharsAt(data, j) < 32; }
  }

  lemma ChosenIsUnique(data: seq<Byte>, k: nat, k': nat)
    requires IsChosen(data, k) && IsChosen(data, k')
    ensures k == k'
  {
    hide SizeAt, CharsAt;
    var s :| IsStart(data, s) && k <= s && forall j :: k < j <= s ==> CharsAt(data, j) < 32;
    var s' :| IsStart(data, s') && k' <= s' && forall j :: k' < j <= s' ==> CharsAt(data, j) < 32;
    StartIsUnique(data, s, s');
  }

  lemma StartIsUnique(data: seq<Byte>, k: nat, k': nat)
    requires IsStart(data, k) && IsStart(data, k')
    ensures k == k'
  {
    hide SizeAt;
    if k < k' - 1 { SizesGrow(k, k' - 1); }
    if k' < k - 1 { SizesGrow(k', k - 1); }
  }

  /** The largest input whose block size is a 32-bit number. */
  const LARGEST: nat := TOP_SIZE * 64

  lemma SizeAtThirty()
    ensures SizeAt(30) == TOP_SIZE
  {
    TenDoublings(0);
    TenDoublings(10);
    TenDoublings(20);
  }

  lemma SizesFit(k: nat)
    requires k <= 30
    ensures SizeAt(k) <= TOP_SIZE && Doubles(SizeAt(k))
  {
    SizeAtThirty();
    hide SizeAt;
    if k < 30 { SizesGrow(k, 30); }
  }

  /** The next doubling in 32 bits: the next size, or the first of two steps down to zero. */
  lemma NextSize(k: nat)
    requires k <= 30
    ensures Wrap(SizeAt(k) * 2) == if k < 30 then SizeAt(k + 1) else 0x8000_0000
  {
    SizesFit(k);
    SizeAtThirty();
    if k < 30 { SizesFit(k + 1); }
    assert SizeAt(k + 1) == SizeAt(k) * 2;
    hide SizeAt;
  }

  lemma LeastSize(k: nat)
    ensures SizeAt(0) == BLOCKSIZE_MIN && (SizeAt(k) <= BLOCKSIZE_MIN ==> k == 0)
  {
  }

  lemma HalfWordDoubled()
    ensures Wrap(0x8000_0000 * 2) == 0
  {
  }

  lemma HalfSize(k: nat)
    requires SizeAt(k) > BLOCKSIZE_MIN
    ensures k > 0 && SizeAt(k) / 2 == SizeAt(k - 1)
  {
  }

  /** The block-size search ends at the chosen size and prints both levels there. `None` is a
      search that never ends: above the largest input the size wraps to zero, which is too small
      and stays zero. */
  method FuzzyHash(data: seq<Byte>) returns (digest: Option<string>)
    ensures digest.None? <==> |data| > LARGEST
    ensures digest.Some? ==> exists k :: IsChosen(data, k) && digest.value == Printed(data, SizeAt(k))
  {
    hide Digest, RollValue, Base64Char, SizeAt, Wrap, Cuts;
    var blockSize := BLOCKSIZE_MIN;
    ghost var k: nat := 0;
    SizeAtThirty();
    LeastSize(0);
    while blockSize * SPAMSUM_LENGTH < |data|
      invariant (k <= 30 && blockSize == SizeAt(k)) || (k == 31 && blockSize == 0x8000_0000 && |data| > LARGEST)
      invariant 0 < k <= 30 ==> SizeAt(k - 1) * SPAMSUM_LENGTH < |data|
      decreases 32 - k
    {
      if k <= 30 { NextSize(k); } else { assert Wrap(blockSize * 2) == 0 by { HalfWordDoubled(); } }
      blockSize := Wrap(blockSize * 2);
      if blockSize == 0 { return None; }
      k := k + 1;
    }
    SizesFit(k);
    ghost var start: nat := k;
    assert IsStart(data, start);
    var hs1, hs2, tail1, tail2, rh := HashWithBlock(data, blockSize);
    while blockSize > BLOCKSIZE_MIN && |hs1| < SPAMSUM_LENGTH / 2
      invariant blockSize == SizeAt(k) && k <= start <= 30
      invariant forall j :: k < j <= start ==> CharsAt(data, j) < 32
      invariant hs1 == Digest(data, blockSize, FIRST_CAP).text && hs2 == Digest(data, 2 * blockSize, SECOND_CAP).text
      invariant rh == RollValue(data)
      invariant rh != 0 ==> tail1 == Digest(data, blockSize, FIRST_CAP).h && tail2 == Digest(data, 2 * blockSize, SECOND_CAP).h
      decreases k
    {
      assert CharsAt(data, k) < 32;
      HalfSize(k);
      SizesFit(k - 1);
      blockSize, k := blockSize / 2, k - 1;
      hs1, hs2, tail1, tail2, rh := HashWithBlock(data, blockSize);
    }
    LeastSize(k);
    assert IsChosen(data, k);
    if rh != 0 {
      hs1, hs2 := hs1 + [Base64Char(tail1)], hs2 + [Base64Char(tail2)];
    }
    assert hs1 == First(data, blockSize) && hs2 == Second(data, blockSize);
    digest := Some(Decimal(blockSize) + ":" + hs1 + ":" + hs2);
  }
}
