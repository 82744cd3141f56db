/** The Authenticode-style hash of a PE file (extract.rs): everything but the checksum, the
    certificate directory entry, and the certificate table. SHA-256 is a function of the bytes
    fed to it. */
module Authentihash {
  import opened Bytes
  import opened Numbers
  import opened Options
  import opened StableSort

  /** From `lo` up to, but not including, `hi`. */
  datatype Range = Range(lo: nat, hi: nat)

  function Lexicographic(): (Range, Range) -> bool {
    (x: Range, y: Range) => x.lo < y.lo || (x.lo == y.lo && x.hi <= y.hi)
  }

  // ---------------------------------------------------------------- bytes outside some ranges

  ghost predicate Covered(ranges: seq<Range>, i: nat) {
    exists r :: r in ranges && r.lo <= i < r.hi
  }

  /** The bytes from `start` up to `stop` that no range covers, in order. */
  ghost function Kept(bytes: seq<Byte>, ranges: seq<Range>, start: nat, stop: nat): seq<Byte>
    requires start <= stop <= |bytes|
    decreases stop
  {
    if start == stop then []
    else Kept(bytes, ranges, start, stop - 1) + if Covered(ranges, stop - 1) then [] else [bytes[stop - 1]]
  }

  lemma {:induction false} KeptSplits(bytes: seq<Byte>, ranges: seq<Range>, start: nat, mid: nat, stop: nat)
    requires start <= mid <= stop <= |bytes|
    ensures Kept(bytes, ranges, start, stop) == Kept(bytes, ranges, start, mid) + Kept(bytes, ranges, mid, stop)
    decreases stop
  {
    hide Covered;
    if mid < stop { KeptSplits(bytes, ranges, start, mid, stop - 1); }
  }

  /** A stretch no range touches is kept whole. */
  lemma {:induction false} UncoveredIsKept(bytes: seq<Byte>, ranges: seq<Range>, start: nat, stop: nat)
    requires start <= stop <= |bytes| && forall i :: start <= i < stop ==> !Covered(ranges, i)
    ensures Kept(bytes, ranges, start, stop) == bytes[start..stop]
    decreases stop
  {
    hide Covered;
    if start < stop {
      UncoveredIsKept(bytes, ranges, start, stop - 1);
      assert bytes[start..stop] == bytes[start..stop - 1] + [bytes[stop - 1]];
    }
  }

  lemma {:induction false} CoveredIsDropped(bytes: seq<Byte>, ranges: seq<Range>, start: nat, stop: nat)
    requires start <= stop <= |bytes| && forall i :: start <= i < stop ==> Covered(ranges, i)
    ensures Kept(bytes, ranges, start, stop) == []
    decreases stop
  {
    hide Covered;
    if start < stop { CoveredIsDropped(bytes, ranges, start, stop - 1); }
  }

  /** Only the covered positions and the bytes outside them matter. */
  lemma {:induction false} KeptDependsOnOutside(x: seq<Byte>, rx: seq<Range>, y: seq<Byte>, ry: seq<Range>, start: nat, stop: nat)
    requires start <= stop <= |x| && stop <= |y|
    requires forall i :: start <= i < stop ==> Covered(rx, i) == Covered(ry, i)
    requires forall i :: start <= i < stop && !Covered(rx, i) ==> x[i] == y[i]
    ensures Kept(x, rx, start, stop) == Kept(y, ry, start, stop)
    decreases stop
  {
    hide Covered;
    if start < stop {
      KeptDependsOnOutside(x, rx, y, ry, start, stop - 1);
      assert Covered(rx, stop - 1) == Covered(ry, stop - 1);
    }
  }

  /** One range of the sorted list: what lies before it is fed, then it is stepped over. */
  lemma StepOver(bytes: seq<Byte>, ranges: seq<Range>, k: nat, pos: nat)
    requires k < |ranges| && Sorted(Lexicographic(), ranges) && ranges[k].lo <= ranges[k].hi
    requires pos <= |bytes| && forall j :: 0 <= j < k ==> Min(ranges[j].hi, |bytes|) <= pos
    requires ranges[k].lo <= |bytes|
    ensures var lo, end := ranges[k].lo, Min(ranges[k].hi, |bytes|);
            && (pos < lo ==> Kept(bytes, ranges, pos, lo) == bytes[pos..lo])
            && (lo <= pos <= end ==> Kept(bytes, ranges, pos, end) == [])
            && (pos < lo ==> Kept(bytes, ranges, pos, end) == bytes[pos..lo])
  {
    var lo, end := ranges[k].lo, Min(ranges[k].hi, |bytes|);
    if pos < lo {
      forall i | pos <= i < lo ensures !Covered(ranges, i) { NotYetCovered(bytes, ranges, k, pos, i); }
      UncoveredIsKept(bytes, ranges, pos, lo);
      KeptSplits(bytes, ranges, pos, lo, end);
    }
    var start := if pos < lo then lo else pos;
    if start <= end {
      forall i | start <= i < end ensures Covered(ranges, i) { assert ranges[k] in ranges; }
      CoveredIsDropped(bytes, ranges, start, end);
    }
  }

  lemma NotYetCovered(bytes: seq<Byte>, ranges: seq<Range>, k: nat, pos: nat, i: nat)
    requires k <= |ranges| && Sorted(Lexicographic(), ranges)
    requires forall j :: 0 <= j < k ==> Min(ranges[j].hi, |bytes|) <= pos
    requires pos <= i < |bytes| && (k < |ranges| ==> i < ranges[k].lo)
    ensures !Covered(ranges, i)
  {
    forall r | r in ranges ensures !(r.lo <= i < r.hi) {
      var j :| 0 <= j < |ranges| && ranges[j] == r;
      if j > k { assert Lexicographic()(ranges[k], ranges[j]); }
    }
  }

  /** The loop of the hash over sorted ranges, which may overlap, nest, or run past the end:
      it feeds exactly the bytes no range covers, in order. */
  method FeedOutside(bytes: seq<Byte>, ranges: seq<Range>) returns (fed: seq<Byte>)
    requires Sorted(Lexicographic(), ranges) && forall i :: 0 <= i < |ranges| ==> ranges[i].lo <= ranges[i].hi
    ensures fed == Kept(bytes, ranges, 0, |bytes|)
  {
    hide Kept, Covered;
    KeptOfNothing(bytes, ranges, 0);
    fed := [];
    var pos: nat := 0;
    var k := 0;
    while k < |ranges|
      invariant 0 <= k <= |ranges| && pos <= |bytes|
      invariant forall j :: 0 <= j < k ==> Min(ranges[j].hi, |bytes|) <= pos
      invariant fed == Kept(bytes, ranges, 0, pos)
    {
      var start, end := ranges[k].lo, ranges[k].hi;
      if start > |bytes| { break; }
      StepOver(bytes, ranges, k, pos);
      var pos' := if pos < Min(end, |bytes|) then Min(end, |bytes|) else pos;
      KeptSplits(bytes, ranges, 0, pos, pos');
      if start > pos {
        fed := fed + bytes[pos..Min(start, |bytes|)];
      } else {
        KeptOfNothing(bytes, ranges, pos);
      }
      pos := pos';
      k := k + 1;
    }
    forall i | pos <= i < |bytes| ensures !Covered(ranges, i) { NotYetCovered(bytes, ranges, k, pos, i); }
    UncoveredIsKept(bytes, ranges, pos, |bytes|);
    KeptSplits(bytes, ranges, 0, pos, |bytes|);
    KeptOfNothing(bytes, ranges, |bytes|);
    if pos < |bytes| {
      fed := fed + bytes[pos..];
    }
  }

  lemma KeptOfNothing(bytes: seq<Byte>, ranges: seq<Range>, at: nat)
    requires at <= |bytes|
    ensures Kept(bytes, ranges, at, at) == []
  {
  }

  // ---------------------------------------------------------------- where the ranges are

  /** Offsets of the checksum and of the certificate directory entry. */
  datatype Layout = Layout(checksum: nat, entry: nat)

  function Locate(b: seq<Byte>): (l: Option<Layout>)
    ensures l.Some? ==> l.value.checksum + 4 <= l.value.entry
  {
    if |b| < 0x40 || b[..2] != [0x4d, 0x5a] then None
    else
      var pe := FromLe(b[0x3c..0x40]);
      if pe + 0x18 > |b| || b[pe..pe + 4] != [0x50, 0x45, 0, 0] then None
      else
        var opt := pe + 24;
        if opt + 0x70 > |b| then None
        else
          var magic := FromLe(b[opt..opt + 2]);
          if magic == 0x10b then Some(Layout(opt + 64, opt + 96 + 32))
          else if magic == 0x20b then Some(Layout(opt + 64, opt + 112 + 32))
          else None
  }

  /** The certificate table, when the directory entry is in the file and names one. */
  function Certificates(b: seq<Byte>, entry: nat): seq<Range> {
    if entry + 8 > |b| then []
    else
      var off, len := FromLe(b[entry..entry + 4]), FromLe(b[entry + 4..entry + 8]);
      if len > 0 && off < |b| then [Range(off, Min(off + len, |b|))] else []
  }

  function Excluded(b: seq<Byte>, l: Layout): (r: seq<Range>)
    ensures forall i :: 0 <= i < |r| ==> r[i].lo <= r[i].hi
  {
    [Range(l.checksum, l.checksum + 4), Range(l.entry, l.entry + 8)] + Certificates(b, l.entry)
  }

  ghost function HashInput(b: seq<Byte>): Option<seq<Byte>> {
    match Locate(b)
    case None => None
    case Some(l) => Some(Kept(b, Excluded(b, l), 0, |b|))
  }

  method PeAuthentihash(b: seq<Byte>, sha256: seq<Byte> -> nat) returns (h: Option<nat>)
    ensures h.Some? <==> HashInput(b).Some?
    ensures h.Some? <==> |b| >= 0x40 && b[..2] == [0x4d, 0x5a]
                         && var opt := FromLe(b[0x3c..0x40]) + 24;
                            && opt + 0x70 <= |b| && b[opt - 24..opt - 20] == [0x50, 0x45, 0, 0]
                            && (FromLe(b[opt..opt + 2]) == 0x10b || FromLe(b[opt..opt + 2]) == 0x20b)
    ensures h.Some? ==> h.value == sha256(HashInput(b).value)
  {
    LocatedExactly(b);
    hide Locate, FromLe, Kept, Covered;
    var l := Locate(b);
    if l.None? { return None; }
    var ranges := Sort(Lexicographic(), Excluded(b, l.value));
    SortIsSortedPermutation(Lexicographic(), Excluded(b, l.value));
    forall r | r in ranges ensures r.lo <= r.hi { SortKeepsMembers(Lexicographic(), Excluded(b, l.value), r); }
    var fed := FeedOutside(b, ranges);
    SortedCoversTheSame(b, Excluded(b, l.value));
    return Some(sha256(fed));
  }

  lemma LocatedExactly(b: seq<Byte>)
    ensures Locate(b).Some? <==>
              |b| >= 0x40 && b[..2] == [0x4d, 0x5a]
              && var opt := FromLe(b[0x3c..0x40]) + 24;
                 && opt + 0x70 <= |b| && b[opt - 24..opt - 20] == [0x50, 0x45, 0, 0]
                 && (FromLe(b[opt..opt + 2]) == 0x10b || FromLe(b[opt..opt + 2]) == 0x20b)
  {
    hide FromLe;
  }

  lemma SortedCoversTheSame(b: seq<Byte>, ranges: seq<Range>)
    ensures Kept(b, Sort(Lexicographic(), ranges), 0, |b|) == Kept(b, ranges, 0, |b|)
  {
    var sorted := Sort(Lexicographic(), ranges);
    forall i: nat ensures Covered(sorted, i) == Covered(ranges, i) {
      forall r ensures r in sorted <==> r in ranges { SortKeepsMembers(Lexicographic(), ranges, r); }
    }
    KeptDependsOnOutside(b, sorted, b, ranges, 0, |b|);
  }

  // ---------------------------------------------------------------- the file in its parts

  /** A PE file: the DOS header behind its two letters and before the offset of the PE header,
      the stub, the COFF header, the optional header up to the checksum and from there to the
      data directories, the four of them before the certificates, and what follows; `wide` is
      PE32+. The certificates lie between `body` and `tail`. */
  datatype Image = Image(
    dos: seq<Byte>,
    stub: seq<Byte>,
    coff: seq<Byte>,
    wide: bool,
    fields: seq<Byte>,
    checksum: seq<Byte>,
    more: seq<Byte>,
    directories: seq<Byte>,
    body: seq<Byte>,
    certificates: seq<Byte>,
    tail: seq<Byte>)

  predicate Sized(x: Image) {
    && |x.dos| == 58 && |x.coff| == 20 && |x.fields| == 62 && |x.checksum| == 4
    && |x.more| == (if x.wide then 44 else 28) && |x.directories| == 4 * 8
    && 64 + |x.stub| < 0x1_0000_0000
    && CertificatesAt(x) < 0x1_0000_0000 && |x.certificates| < 0x1_0000_0000
  }

  function BeforeChecksum(x: Image): seq<Byte> {
    [0x4d, 0x5a] + x.dos + ToLe(64 + |x.stub|, 4) + x.stub + [0x50, 0x45, 0, 0] + x.coff
    + (if x.wide then [0x0b, 0x02] else [0x0b, 0x01]) + x.fields
  }

  function BeforeEntry(x: Image): seq<Byte> {
    x.more + x.directories
  }

  function CertificatesAt(x: Image): nat {
    |BeforeChecksum(x)| + 4 + |BeforeEntry(x)| + 8 + |x.body|
  }

  /** The directory entry names the certificates by offset and length. */
  function ImageBytes(x: Image): seq<Byte> {
    BeforeChecksum(x) + x.checksum + BeforeEntry(x) + (ToLe(CertificatesAt(x), 4) + ToLe(|x.certificates|, 4))
    + x.body + x.certificates + x.tail
  }

  /** Of every such file, exactly the checksum, the directory entry and the certificates stay out
      of the hash. */
  lemma ImageHash(x: Image)
    requires Sized(x)
    ensures HashInput(ImageBytes(x)) == Some(BeforeChecksum(x) + BeforeEntry(x) + x.body + x.tail)
  {
    ImageLayout(x);
    ImageStretches(x);
    var at, entry, cert := |BeforeChecksum(x)|, |BeforeChecksum(x)| + 4 + |BeforeEntry(x)|, CertificatesAt(x);
    var b, ranges := ImageBytes(x), Excluded(ImageBytes(x), Layout(at, entry));
    forall k: nat
      ensures Covered(ranges, k) <==> at <= k < at + 4 || entry <= k < entry + 8 || cert <= k < cert + |x.certificates|
    {
      ImageIsCovered(x, k);
    }
    hide *;
    KeptBetween(b, ranges, at, at + 4, entry, entry + 8, cert, cert + |x.certificates|);
    HashedIsKept(b, Layout(at, entry));
  }

  lemma HashedIsKept(b: seq<Byte>, l: Layout)
    requires Locate(b) == Some(l)
    ensures HashInput(b) == Some(Kept(b, Excluded(b, l), 0, |b|))
  {
  }

  lemma ImageLayout(x: Image)
    requires Sized(x)
    ensures var at := |BeforeChecksum(x)|; Locate(ImageBytes(x)) == Some(Layout(at, at + 4 + |BeforeEntry(x)|))
  {
    var b, pe := ImageBytes(x), 64 + |x.stub|;
    HeaderFields(x);
    Ranges();
    FromTo(pe, 4);
    Magics();
    hide FromLe, ToLe, ImageBytes;
    assert b[..2] == [0x4d, 0x5a] && b[0x3c..0x40] == ToLe(pe, 4) && b[pe..pe + 4] == [0x50, 0x45, 0, 0];
  }

  lemma Magics()
    ensures FromLe([0x0b, 0x01]) == 0x10b && FromLe([0x0b, 0x02]) == 0x20b
  {
    assert FromLe([0x01]) == 0x01 + 256 * FromLe([]) && FromLe([0x02]) == 0x02 + 256 * FromLe([]);
    assert [0x0b, 0x01][1..] == [0x01] && [0x0b, 0x02][1..] == [0x02];
  }

  /** Where the parts of the header end up. */
  lemma HeaderFields(x: Image)
    requires Sized(x)
    ensures var b, pe := ImageBytes(x), 64 + |x.stub|;
            && |BeforeChecksum(x)| == pe + 88 && |b| >= pe + 88 + 4 + |BeforeEntry(x)| + 8
            && b[..2] == [0x4d, 0x5a] && b[0x3c..0x40] == ToLe(pe, 4) && b[pe..pe + 4] == [0x50, 0x45, 0, 0]
            && b[pe + 24..pe + 26] == if x.wide then [0x0b, 0x02] else [0x0b, 0x01]
  {
    var b, p, pe := ImageBytes(x), BeforeChecksum(x), 64 + |x.stub|;
    PrefixFields(x);
    hide ToLe, BeforeChecksum;
    assert b[..|p|] == p;
    assert b[..2] == p[..2] && b[0x3c..0x40] == p[0x3c..0x40] && b[pe..pe + 4] == p[pe..pe + 4] && b[pe + 24..pe + 26] == p[pe + 24..pe + 26];
  }

  lemma PrefixFields(x: Image)
    requires Sized(x)
    ensures var p, pe := BeforeChecksum(x), 64 + |x.stub|;
            && |p| == pe + 88
            && p[..2] == [0x4d, 0x5a] && p[0x3c..0x40] == ToLe(pe, 4) && p[pe..pe + 4] == [0x50, 0x45, 0, 0]
            && p[pe + 24..pe + 26] == if x.wide then [0x0b, 0x02] else [0x0b, 0x01]
  {
    hide ToLe;
  }

  lemma ImageCertificates(x: Image)
    requires Sized(x)
    ensures var b, at := ImageBytes(x), |BeforeChecksum(x)| + 4 + |BeforeEntry(x)|;
            Certificates(b, at) == if x.certificates == [] then [] else [Range(CertificatesAt(x), CertificatesAt(x) + |x.certificates|)]
  {
    var b, at := ImageBytes(x), |BeforeChecksum(x)| + 4 + |BeforeEntry(x)|;
    Ranges();
    FromTo(CertificatesAt(x), 4);
    FromTo(|x.certificates|, 4);
    hide FromLe, ToLe, BeforeChecksum, BeforeEntry;
    assert b[at..at + 4] == ToLe(CertificatesAt(x), 4) && b[at + 4..at + 8] == ToLe(|x.certificates|, 4);
  }

  /** Three stretches left out of seven, which end at these positions. */
  lemma KeptBetween(b: seq<Byte>, ranges: seq<Range>, a1: nat, a2: nat, a3: nat, a4: nat, a5: nat, a6: nat)
    requires a1 <= a2 <= a3 <= a4 <= a5 <= a6 <= |b|
    requires forall k: nat :: k < |b| ==> (Covered(ranges, k) <==> a1 <= k < a2 || a3 <= k < a4 || a5 <= k < a6)
    ensures Kept(b, ranges, 0, |b|) == b[..a1] + b[a2..a3] + b[a4..a5] + b[a6..]
  {
    hide Covered, Kept;
    Leaves(b, ranges, 0, a1, a2);
    Leaves(b, ranges, a2, a3, a4);
    Leaves(b, ranges, a4, a5, a6);
    UncoveredIsKept(b, ranges, a6, |b|);
    KeptSplits(b, ranges, 0, a2, |b|);
    KeptSplits(b, ranges, a2, a4, |b|);
    KeptSplits(b, ranges, a4, a6, |b|);
    assert b[0..a1] == b[..a1] && b[a6..|b|] == b[a6..];
  }

  /** A stretch that is kept and then one that is not. */
  lemma Leaves(b: seq<Byte>, ranges: seq<Range>, start: nat, mid: nat, stop: nat)
    requires start <= mid <= stop <= |b|
    requires forall i :: start <= i < mid ==> !Covered(ranges, i)
    requires forall i :: mid <= i < stop ==> Covered(ranges, i)
    ensures Kept(b, ranges, start, stop) == b[start..mid]
  {
    hide Covered, Kept;
    UncoveredIsKept(b, ranges, start, mid);
    CoveredIsDropped(b, ranges, mid, stop);
    KeptSplits(b, ranges, start, mid, stop);
  }

  lemma ImageIsCovered(x: Image, k: nat)
    requires Sized(x)
    ensures var at, entry, cert := |BeforeChecksum(x)|, |BeforeChecksum(x)| + 4 + |BeforeEntry(x)|, CertificatesAt(x);
            Covered(Excluded(ImageBytes(x), Layout(at, entry)), k)
            <==> at <= k < at + 4 || entry <= k < entry + 8 || cert <= k < cert + |x.certificates|
  {
    hide *;
    var at, entry, cert := |BeforeChecksum(x)|, |BeforeChecksum(x)| + 4 + |BeforeEntry(x)|, CertificatesAt(x);
    ImageExcluded(x);
    CoveredBy(Range(at, at + 4), Range(entry, entry + 8), Stretch(cert, x.certificates), k);
    StretchCovers(cert, x.certificates, k);
  }

  /** The range of some bytes at a position, if there are any. */
  ghost function Stretch(at: nat, bytes: seq<Byte>): seq<Range> {
    if bytes == [] then [] else [Range(at, at + |bytes|)]
  }

  lemma StretchCovers(at: nat, bytes: seq<Byte>, k: nat)
    ensures Covered(Stretch(at, bytes), k) <==> at <= k < at + |bytes|
  {
    if bytes != [] { assert Stretch(at, bytes)[0] in Stretch(at, bytes); }
  }

  lemma ImageExcluded(x: Image)
    requires Sized(x)
    ensures var at, entry := |BeforeChecksum(x)|, |BeforeChecksum(x)| + 4 + |BeforeEntry(x)|;
            Excluded(ImageBytes(x), Layout(at, entry))
            == [Range(at, at + 4), Range(entry, entry + 8)] + Stretch(CertificatesAt(x), x.certificates)
  {
    ImageCertificates(x);
    hide FromLe, ToLe, BeforeChecksum, BeforeEntry, ImageBytes, Certificates, CertificatesAt, Sized;
  }

  lemma ImageStretches(x: Image)
    requires Sized(x)
    ensures var b, at, entry, cert := ImageBytes(x), |BeforeChecksum(x)|, |BeforeChecksum(x)| + 4 + |BeforeEntry(x)|, CertificatesAt(x);
            && |b| == cert + |x.certificates| + |x.tail| && entry + 8 <= cert
            && b[..at] == BeforeChecksum(x) && b[at + 4..entry] == BeforeEntry(x) && b[entry + 8..cert] == x.body
            && b[cert + |x.certificates|..] == x.tail
  {
    hide ToLe, BeforeChecksum, BeforeEntry;
  }

  // ---------------------------------------------------------------- signing a file

  function Overwrite(b: seq<Byte>, at: nat, x: seq<Byte>): (r: seq<Byte>)
    requires at + |x| <= |b|
    ensures |r| == |b|
    ensures forall i :: 0 <= i < |b| ==> r[i] == if at <= i < at + |x| then x[i - at] else b[i]
  {
    b[..at] + x + b[at + |x|..]
  }

  /** What signing does: any new checksum, padding behind the file, the certificates behind
      that, and the directory entry pointing to them. */
  function Sign(b: seq<Byte>, l: Layout, checksum: seq<Byte>, pad: seq<Byte>, certificates: seq<Byte>): seq<Byte>
    requires |checksum| == 4 && l.checksum + 4 <= l.entry && l.entry + 8 <= |b|
  {
    Overwrite(Overwrite(b, l.checksum, checksum), l.entry, ToLe(|b| + |pad|, 4) + ToLe(|certificates|, 4)) + pad + certificates
  }

  /** The file has no certificate table yet: the length in its directory entry is zero. */
  predicate Unsigned(b: seq<Byte>, l: Layout) {
    l.entry + 8 <= |b| && FromLe(b[l.entry + 4..l.entry + 8]) == 0
  }

  /** The parts of the file that are looked at lie outside what signing overwrites. */
  lemma LocateIgnoresSignature(b: seq<Byte>, l: Layout, checksum: seq<Byte>, pad: seq<Byte>, certificates: seq<Byte>)
    requires Locate(b) == Some(l) && |checksum| == 4 && l.entry + 8 <= |b|
    ensures Locate(Sign(b, l, checksum, pad, certificates)) == Some(l)
  {
    var s := Sign(b, l, checksum, pad, certificates);
    var pe := FromLe(b[0x3c..0x40]);
    hide FromLe, ToLe, Overwrite;
    assert forall i :: 0 <= i < pe + 24 + 64 && i < |b| ==> s[i] == b[i];
    assert s[..2] == b[..2] && s[0x3c..0x40] == b[0x3c..0x40] && s[pe..pe + 4] == b[pe..pe + 4];
    assert s[pe + 24..pe + 26] == b[pe + 24..pe + 26];
  }

  lemma SignedCertificates(b: seq<Byte>, l: Layout, checksum: seq<Byte>, pad: seq<Byte>, certificates: seq<Byte>)
    requires |checksum| == 4 && l.checksum + 4 <= l.entry && l.entry + 8 <= |b|
    requires |b| + |pad| < Bytes.Range(4) && |certificates| < Bytes.Range(4)
    ensures var s := Sign(b, l, checksum, pad, certificates);
            && |s| == |b| + |pad| + |certificates| && s[|b|..|b| + |pad|] == pad
            && Certificates(s, l.entry) == if |certificates| > 0 then [Range(|b| + |pad|, |s|)] else []
  {
    var s := Sign(b, l, checksum, pad, certificates);
    FromTo(|b| + |pad|, 4);
    FromTo(|certificates|, 4);
    hide FromLe, ToLe;
    assert s[l.entry..l.entry + 4] == ToLe(|b| + |pad|, 4);
    assert s[l.entry + 4..l.entry + 8] == ToLe(|certificates|, 4);
  }

  /** Signing an unsigned file adds exactly the padding to what is hashed, whatever the new
      checksum and the certificates are. */
  lemma SigningHashesPadding(b: seq<Byte>, l: Layout, checksum: seq<Byte>, pad: seq<Byte>, certificates: seq<Byte>)
    requires Locate(b) == Some(l) && Unsigned(b, l) && |checksum| == 4
    requires |b| + |pad| < Bytes.Range(4) && |certificates| < Bytes.Range(4)
    ensures HashInput(b).Some?
    ensures HashInput(Sign(b, l, checksum, pad, certificates)) == Some(HashInput(b).value + pad)
  {
    var s := Sign(b, l, checksum, pad, certificates);
    LocateIgnoresSignature(b, l, checksum, pad, certificates);
    SignedCertificates(b, l, checksum, pad, certificates);
    SameInside(b, l, checksum, pad, certificates);
    BehindTheFile(b, l, checksum, pad, certificates);
    hide Locate, FromLe, ToLe, Certificates, Sign, Covered, Bytes.Range, Kept, Excluded;
    KeptWithTail(b, Excluded(b, l), s, Excluded(s, l), |b| + |pad|);
  }

  /** The hash is the same exactly when no padding was needed. */
  lemma SigningKeepsHash(b: seq<Byte>, l: Layout, checksum: seq<Byte>, pad: seq<Byte>, certificates: seq<Byte>)
    requires Locate(b) == Some(l) && Unsigned(b, l) && |checksum| == 4
    requires |b| + |pad| < Bytes.Range(4) && |certificates| < Bytes.Range(4)
    ensures HashInput(Sign(b, l, checksum, pad, certificates)) == HashInput(b) <==> pad == []
  {
    hide Locate, Sign, HashInput, Unsigned;
    SigningHashesPadding(b, l, checksum, pad, certificates);
    assert |HashInput(b).value + pad| == |HashInput(b).value| + |pad|;
    if pad == [] { assert HashInput(b).value + pad == HashInput(b).value; }
  }

  /** A longer file that agrees outside the excluded ranges: what is kept grows by what stands
      before `mid`, and the rest is excluded. */
  lemma KeptWithTail(b: seq<Byte>, rb: seq<Range>, s: seq<Byte>, rs: seq<Range>, mid: nat)
    requires |b| <= mid <= |s|
    requires forall i: nat :: i < |b| ==> Covered(rb, i) == Covered(rs, i) && (!Covered(rb, i) ==> b[i] == s[i])
    requires forall i: nat :: |b| <= i < mid ==> !Covered(rs, i)
    requires forall i: nat :: mid <= i < |s| ==> Covered(rs, i)
    ensures Kept(s, rs, 0, |s|) == Kept(b, rb, 0, |b|) + s[|b|..mid]
  {
    hide Covered, Kept;
    KeptDependsOnOutside(b, rb, s, rs, 0, |b|);
    KeptSplits(s, rs, 0, |b|, mid);
    KeptSplits(s, rs, 0, mid, |s|);
    UncoveredIsKept(s, rs, |b|, mid);
    CoveredIsDropped(s, rs, mid, |s|);
  }

  /** Behind the old file the certificates are excluded and the padding is not. */
  lemma BehindTheFile(b: seq<Byte>, l: Layout, checksum: seq<Byte>, pad: seq<Byte>, certificates: seq<Byte>)
    requires |checksum| == 4 && l.checksum + 4 <= l.entry && l.entry + 8 <= |b|
    requires |b| + |pad| < Bytes.Range(4) && |certificates| < Bytes.Range(4)
    ensures var s := Sign(b, l, checksum, pad, certificates);
            forall i: nat :: |b| <= i < |s| ==> (Covered(Excluded(s, l), i) <==> |b| + |pad| <= i)
  {
    var s := Sign(b, l, checksum, pad, certificates);
    SignedCertificates(b, l, checksum, pad, certificates);
    hide Sign, FromLe, ToLe, Bytes.Range;
    var more := Certificates(s, l.entry);
    forall i: nat | |b| <= i < |s| ensures Covered(Excluded(s, l), i) <==> |b| + |pad| <= i {
      CoveredBy(Range(l.checksum, l.checksum + 4), Range(l.entry, l.entry + 8), more, i);
      assert Covered(more, i) <==> |b| + |pad| <= i by {
        if |certificates| > 0 { assert more[0] in more; }
      }
    }
  }

  /** Inside the old file, the same positions are excluded, and nothing else has changed. */
  lemma SameInside(b: seq<Byte>, l: Layout, checksum: seq<Byte>, pad: seq<Byte>, certificates: seq<Byte>)
    requires Unsigned(b, l) && |checksum| == 4 && l.checksum + 4 <= l.entry
    requires |b| + |pad| < Bytes.Range(4) && |certificates| < Bytes.Range(4)
    ensures var s := Sign(b, l, checksum, pad, certificates);
            forall i: nat :: i < |b| ==>
              && Covered(Excluded(b, l), i) == Covered(Excluded(s, l), i)
              && (!Covered(Excluded(b, l), i) ==> b[i] == s[i])
  {
    var s := Sign(b, l, checksum, pad, certificates);
    SignedCertificates(b, l, checksum, pad, certificates);
    var c1, c2, mb, ms := Range(l.checksum, l.checksum + 4), Range(l.entry, l.entry + 8), Certificates(b, l.entry), Certificates(s, l.entry);
    assert mb == [];
    forall i: nat | i < |b|
      ensures Covered(Excluded(b, l), i) == Covered(Excluded(s, l), i)
      ensures !Covered(Excluded(b, l), i) ==> b[i] == s[i]
    {
      CoveredBy(c1, c2, mb, i);
      CoveredBy(c1, c2, ms, i);
      hide FromLe, ToLe, Certificates, Bytes.Range;
    }
  }

  lemma CoveredBy(x: Range, y: Range, more: seq<Range>, i: nat)
    ensures Covered([x, y] + more, i) <==> x.lo <= i < x.hi || y.lo <= i < y.hi || Covered(more, i)
  {
    var all := [x, y] + more;
    assert all[0] == x && all[1] == y;
    assert forall r :: r in all <==> r == x || r == y || r in more;
  }

  /** Two signatures of one file have the same hash exactly when they pad alike. */
  lemma ResigningKeepsHash(b: seq<Byte>, l: Layout, checksum: seq<Byte>, pad: seq<Byte>, certificates: seq<Byte>,
                           checksum': seq<Byte>, pad': seq<Byte>, certificates': seq<Byte>)
    requires Locate(b) == Some(l) && Unsigned(b, l) && |checksum| == |checksum'| == 4
    requires |b| + |pad| < Bytes.Range(4) && |certificates| < Bytes.Range(4)
    requires |b| + |pad'| < Bytes.Range(4) && |certificates'| < Bytes.Range(4)
    ensures HashInput(Sign(b, l, checksum, pad, certificates)) == HashInput(Sign(b, l, checksum', pad', certificates')) <==> pad == pad'
  {
    hide Locate, Sign, HashInput, Unsigned;
    SigningHashesPadding(b, l, checksum, pad, certificates);
    SigningHashesPadding(b, l, checksum', pad', certificates');
    var n := |HashInput(b).value|;
    assert (HashInput(b).value + pad)[n..] == pad && (HashInput(b).value + pad')[n..] == pad';
  }
}
