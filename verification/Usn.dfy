/** Packed USN_RECORD_V2 entries of the NTFS change journal (usn.rs). File names are
    text, decoded from 16-bit units with U+FFFD for every unpaired surrogate. */
module Usn {
  import opened Bytes
  import opened Utf16

  const HEADER: nat := 60

  datatype UsnRecord = UsnRecord(usn: Int64, fileReference: nat, parentReference: nat, reason: nat, fileName: string)

  // ---------------------------------------------------------------- one record

  function RecordLen(b: seq<Byte>): nat
    requires |b| >= HEADER
  {
    FromLe(b[..4])
  }

  /** The record at the front of `b` is whole and of version 2: the parser steps over it. */
  predicate HasRecord(b: seq<Byte>) {
    && |b| >= HEADER
    && HEADER <= RecordLen(b) <= |b|
    && FromLe(b[4..6]) == 2
  }

  function NameLen(b: seq<Byte>): nat
    requires HasRecord(b)
  {
    FromLe(b[56..58])
  }

  function NameOffset(b: seq<Byte>): nat
    requires HasRecord(b)
  {
    FromLe(b[58..60])
  }

  /** A name that would leave its record: the record is stepped over without a result. */
  predicate NameFits(b: seq<Byte>)
    requires HasRecord(b)
  {
    NameOffset(b) + NameLen(b) <= RecordLen(b)
  }

  function Decode(b: seq<Byte>): UsnRecord
    requires HasRecord(b) && NameFits(b)
  {
    Ranges();
    UsnRecord(ToSigned(FromLe(b[24..32])), FromLe(b[8..16]), FromLe(b[16..24]), FromLe(b[40..44]),
              NameOf(b[NameOffset(b)..NameOffset(b) + NameLen(b)]))
  }

  function Front(b: seq<Byte>): seq<UsnRecord>
    requires HasRecord(b)
  {
    if NameFits(b) then [Decode(b)] else []
  }

  // ---------------------------------------------------------------- a buffer

  function Parse(b: seq<Byte>): seq<UsnRecord>
    decreases |b|
  {
    if HasRecord(b) then Front(b) + Parse(b[RecordLen(b)..]) else []
  }

  /** The parser reaches the end of the buffer. */
  predicate Consumed(b: seq<Byte>)
    decreases |b|
  {
    b == [] || (HasRecord(b) && Consumed(b[RecordLen(b)..]))
  }

  method ParseUsnRecords(buf: seq<Byte>) returns (out: seq<UsnRecord>)
    ensures out == Parse(buf)
  {
    hide HasRecord, NameFits, NameLen, NameOffset, RecordLen, Decode, FromLe, NameOf, ToSigned, Parse, Front, Range;
    out := [];
    var offset := 0;
    assert buf[0..] == buf;
    while offset + 60 <= |buf|
      invariant offset <= |buf|
      invariant Parse(buf) == out + Parse(buf[offset..])
    {
      FieldsAt(buf, offset);
      var recordLen := FromLe(buf[offset..offset + 4]);
      if recordLen < 60 || offset + recordLen > |buf| { break; }
      var major := FromLe(buf[offset + 4..offset + 6]);
      if major != 2 { break; }
      Ranges();
      var fileReference := FromLe(buf[offset + 8..offset + 16]);
      var parentReference := FromLe(buf[offset + 16..offset + 24]);
      var usn := ToSigned(FromLe(buf[offset + 24..offset + 32]));
      var reason := FromLe(buf[offset + 40..offset + 44]);
      var nameLen := FromLe(buf[offset + 56..offset + 58]);
      var nameOff := FromLe(buf[offset + 58..offset + 60]);
      if nameOff + nameLen <= recordLen {
        var name := NameOf(buf[offset + nameOff..offset + nameOff + nameLen]);
        out := out + [UsnRecord(usn, fileReference, parentReference, reason, name)];
      }
      ParseStep(buf[offset..]);
      assert buf[offset + recordLen..] == buf[offset..][recordLen..];
      offset := offset + recordLen;
    }
    if offset + 60 > |buf| { TooShortForRecord(buf[offset..]); }
    ParseStep(buf[offset..]);
  }

  lemma ParseStep(b: seq<Byte>)
    ensures Parse(b) == if HasRecord(b) then Front(b) + Parse(b[RecordLen(b)..]) else []
    ensures HasRecord(b) ==> Front(b) == if NameFits(b) then [Decode(b)] else []
  {
  }

  lemma ConsumedStep(b: seq<Byte>)
    ensures Consumed(b) <==> b == [] || (HasRecord(b) && Consumed(b[RecordLen(b)..]))
    ensures b == [] ==> !HasRecord(b)
  {
  }

  lemma TooShortForRecord(b: seq<Byte>)
    requires |b| < HEADER
    ensures !HasRecord(b)
  {
  }

  /** The fields at an offset of the buffer are those of the record that starts there. */
  lemma FieldsAt(buf: seq<Byte>, offset: nat)
    requires offset + 60 <= |buf|
    ensures var b, len := buf[offset..], FromLe(buf[offset..offset + 4]);
            && (HasRecord(b) <==> 60 <= len && offset + len <= |buf| && FromLe(buf[offset + 4..offset + 6]) == 2)
            && (HasRecord(b) ==>
                  var nameLen, nameOff := FromLe(buf[offset + 56..offset + 58]), FromLe(buf[offset + 58..offset + 60]);
                  && RecordLen(b) == len
                  && (NameFits(b) <==> nameOff + nameLen <= len)
                  && (NameFits(b) ==>
                        Decode(b) == UsnRecord(SignedAt(buf, offset + 24), FromLe(buf[offset + 8..offset + 16]), FromLe(buf[offset + 16..offset + 24]),
                                               FromLe(buf[offset + 40..offset + 44]), NameOf(buf[offset + nameOff..offset + nameOff + nameLen]))))
  {
    ShiftedSlices(buf, offset);
    var b := buf[offset..];
    hide FromLe, NameOf, ToSigned;
    if HasRecord(b) && NameFits(b) {
      assert buf[offset + NameOffset(b)..offset + NameOffset(b) + NameLen(b)] == b[NameOffset(b)..NameOffset(b) + NameLen(b)];
    }
  }

  function SignedAt(buf: seq<Byte>, at: nat): Int64
    requires at + 8 <= |buf|
  {
    Ranges();
    ToSigned(FromLe(buf[at..at + 8]))
  }

  lemma ShiftedSlices(buf: seq<Byte>, offset: nat)
    requires offset + 60 <= |buf|
    ensures var b := buf[offset..];
            && buf[offset..offset + 4] == b[..4] && buf[offset + 4..offset + 6] == b[4..6]
            && buf[offset + 8..offset + 16] == b[8..16] && buf[offset + 16..offset + 24] == b[16..24]
            && buf[offset + 24..offset + 32] == b[24..32] && buf[offset + 40..offset + 44] == b[40..44]
            && buf[offset + 56..offset + 58] == b[56..58] && buf[offset + 58..offset + 60] == b[58..60]
  {
  }

  // ---------------------------------------------------------------- growing and cutting a buffer

  /** More bytes behind a whole record change nothing about it. */
  lemma RecordIgnoresRest(a: seq<Byte>, b: seq<Byte>)
    requires HasRecord(a)
    ensures HasRecord(a + b) && RecordLen(a + b) == RecordLen(a) && Front(a + b) == Front(a)
    ensures (a + b)[RecordLen(a)..] == a[RecordLen(a)..] + b
  {
    var c := a + b;
    assert c[..4] == a[..4] && c[4..6] == a[4..6] && c[8..16] == a[8..16] && c[16..24] == a[16..24];
    assert c[24..32] == a[24..32] && c[40..44] == a[40..44] && c[56..58] == a[56..58] && c[58..60] == a[58..60];
    hide FromLe, NameOf, ToSigned;
    if NameFits(a) {
      var n := NameOffset(a);
      assert c[n..n + NameLen(a)] == a[n..n + NameLen(a)];
    }
  }

  /** Cutting the buffer anywhere loses records from the end only. */
  lemma {:induction false} TruncationGivesPrefix(a: seq<Byte>, b: seq<Byte>)
    ensures Parse(a) <= Parse(a + b)
    decreases |a|
  {
    hide HasRecord, Front, RecordLen;
    if HasRecord(a) {
      RecordIgnoresRest(a, b);
      TailIsShorter(a);
      TruncationGivesPrefix(a[RecordLen(a)..], b);
    }
  }

  lemma TailIsShorter(a: seq<Byte>)
    requires HasRecord(a)
    ensures HEADER <= RecordLen(a) <= |a|
  {
  }

  lemma Regroup<T>(x: seq<T>, y: seq<T>, z: seq<T>)
    ensures x + (y + z) == (x + y) + z
  {
  }

  /** A stream that has been consumed to its end can be parsed apart from what follows. */
  lemma {:induction false} ParseDistributes(a: seq<Byte>, b: seq<Byte>)
    requires Consumed(a)
    ensures Parse(a + b) == Parse(a) + Parse(b)
    decreases |a|
  {
    hide HasRecord, Front, RecordLen, Parse, Consumed;
    ConsumedStep(a);
    ParseStep(a);
    ParseStep(a + b);
    if a == [] {
      assert a + b == b;
    } else {
      RecordIgnoresRest(a, b);
      TailIsShorter(a);
      ParseDistributes(a[RecordLen(a)..], b);
      Regroup(Front(a), Parse(a[RecordLen(a)..]), Parse(b));
    }
  }

  /** Behind a consumed stream, parsing stops at what is too short for a record, at a length below
      60 or beyond the buffer, and at another version. */
  lemma ParsingStopsAtDamage(a: seq<Byte>, b: seq<Byte>)
    requires Consumed(a)
    requires |b| < 60 || FromLe(b[..4]) < 60 || FromLe(b[..4]) > |b| || FromLe(b[4..6]) != 2
    ensures Parse(a + b) == Parse(a)
  {
    assert Parse(b) == [];
    hide *;
    ParseDistributes(a, b);
    assert Parse(a) + [] == Parse(a);
  }

  /** A whole record whose name would leave it is stepped over, and nothing else is lost. */
  lemma ParsingSkipsBadNames(a: seq<Byte>, b: seq<Byte>, rest: seq<Byte>)
    requires Consumed(a) && 60 <= |b| == FromLe(b[..4]) && FromLe(b[4..6]) == 2
    requires FromLe(b[58..60]) + FromLe(b[56..58]) > |b|
    ensures Parse(a + b + rest) == Parse(a) + Parse(rest)
  {
    RecordSkipped(b, rest);
    hide *;
    ParseDistributes(a, b + rest);
    Regroup(a, b, rest);
  }

  lemma RecordSkipped(b: seq<Byte>, rest: seq<Byte>)
    requires 60 <= |b| == FromLe(b[..4]) && FromLe(b[4..6]) == 2
    requires FromLe(b[58..60]) + FromLe(b[56..58]) > |b|
    ensures Parse(b + rest) == Parse(rest)
  {
    assert HasRecord(b) && Front(b) == [] && RecordLen(b) == |b|;
    RecordIgnoresRest(b, rest);
    ParseStep(b + rest);
    hide HasRecord, Front, RecordLen, Parse, FromLe;
    assert b[|b|..] + rest == rest;
    assert [] + Parse(rest) == Parse(rest);
  }

  // ---------------------------------------------------------------- the printer

  /** The fields the parser does not look at, and the padding behind the name. */
  datatype Filler = Filler(minor: seq<Byte>, timestamp: seq<Byte>, info: seq<Byte>, padding: seq<Byte>)

  /** What fits the fixed-width fields of a record. */
  predicate Printable(r: UsnRecord, f: Filler) {
    && r.fileReference < Range(8) && r.parentReference < Range(8) && r.reason < Range(4)
    && |NameBytes(r.fileName)| < Range(2)
    && |f.minor| == 2 && |f.timestamp| == 8 && |f.info| == 12
    && HEADER + |NameBytes(r.fileName)| + |f.padding| < Range(4)
  }

  function Print(r: UsnRecord, f: Filler): (b: seq<Byte>)
    requires Printable(r, f)
    ensures |b| == HEADER + |NameBytes(r.fileName)| + |f.padding|
  {
    ToLe(HEADER + |NameBytes(r.fileName)| + |f.padding|, 4) + ToLe(2, 2) + f.minor
    + ToLe(r.fileReference, 8) + ToLe(r.parentReference, 8) + ToLe(FromSigned(r.usn), 8) + f.timestamp
    + ToLe(r.reason, 4) + f.info + ToLe(|NameBytes(r.fileName)|, 2) + ToLe(HEADER, 2) + NameBytes(r.fileName) + f.padding
  }

  /** Where the printer puts each field. */
  lemma PrintedFields(r: UsnRecord, f: Filler)
    requires Printable(r, f)
    ensures var b, n := Print(r, f), |NameBytes(r.fileName)|;
            && b[..4] == ToLe(|b|, 4) && b[4..6] == ToLe(2, 2)
            && b[8..16] == ToLe(r.fileReference, 8) && b[16..24] == ToLe(r.parentReference, 8)
            && b[24..32] == ToLe(FromSigned(r.usn), 8) && b[40..44] == ToLe(r.reason, 4)
            && b[56..58] == ToLe(n, 2) && b[58..60] == ToLe(HEADER, 2) && b[60..60 + n] == NameBytes(r.fileName)
  {
    hide ToLe, NameBytes, FromSigned, Range;
  }

  lemma PrintedRecordIsRead(r: UsnRecord, f: Filler)
    requires Printable(r, f)
    ensures HasRecord(Print(r, f)) && RecordLen(Print(r, f)) == |Print(r, f)| && Front(Print(r, f)) == [r]
  {
    var b, n := Print(r, f), |NameBytes(r.fileName)|;
    PrintedFields(r, f);
    Ranges();
    FromTo(|b|, 4);
    FromTo(2, 2);
    FromTo(r.fileReference, 8);
    FromTo(r.parentReference, 8);
    FromTo(FromSigned(r.usn), 8);
    FromTo(r.reason, 4);
    FromTo(n, 2);
    FromTo(HEADER, 2);
    NameReadBack(r.fileName);
    hide Print, FromLe, ToLe, Range, NameOf, NameBytes, FromSigned;
  }

  function PrintAll(rs: seq<UsnRecord>, fs: seq<Filler>): seq<Byte>
    requires |rs| == |fs| && forall i :: 0 <= i < |rs| ==> Printable(rs[i], fs[i])
  {
    if rs == [] then [] else Print(rs[0], fs[0]) + PrintAll(rs[1..], fs[1..])
  }

  /** A record that fills its buffer exactly is parsed off. */
  lemma RecordThenRest(a: seq<Byte>, rest: seq<Byte>)
    requires HasRecord(a) && RecordLen(a) == |a|
    ensures Parse(a + rest) == Front(a) + Parse(rest)
    ensures Consumed(rest) ==> Consumed(a + rest)
  {
    RecordIgnoresRest(a, rest);
    TailIsShorter(a);
    assert a[|a|..] + rest == rest;
    hide HasRecord, Front, RecordLen;
  }

  /** What the printer writes is consumed to its end. */
  lemma {:induction false} PrintedIsConsumed(rs: seq<UsnRecord>, fs: seq<Filler>)
    requires |rs| == |fs| && forall i :: 0 <= i < |rs| ==> Printable(rs[i], fs[i])
    ensures Consumed(PrintAll(rs, fs))
  {
    if rs != [] {
      PrintedRecordIsRead(rs[0], fs[0]);
      PrintedIsConsumed(rs[1..], fs[1..]);
      hide Print, Printable, HasRecord, Front, RecordLen, Parse, Consumed;
      RecordThenRest(Print(rs[0], fs[0]), PrintAll(rs[1..], fs[1..]));
    }
  }

  /** Parsing inverts printing, whatever stands in the other fields and in the padding, and
      whatever follows the records. */
  lemma {:induction false} ParseInvertsPrint(rs: seq<UsnRecord>, fs: seq<Filler>, rest: seq<Byte>)
    requires |rs| == |fs| && forall i :: 0 <= i < |rs| ==> Printable(rs[i], fs[i])
    ensures Parse(PrintAll(rs, fs) + rest) == rs + Parse(rest)
  {
    hide Print, Printable, HasRecord, Front, RecordLen, Parse, Consumed;
    if rs == [] {
      assert [] + rest == rest && rs + Parse(rest) == Parse(rest);
    } else {
      var b, more := Print(rs[0], fs[0]), PrintAll(rs[1..], fs[1..]);
      PrintedRecordIsRead(rs[0], fs[0]);
      RecordThenRest(b, more + rest);
      ParseInvertsPrint(rs[1..], fs[1..], rest);
      assert (b + more) + rest == b + (more + rest);
      assert rs + Parse(rest) == [rs[0]] + (rs[1..] + Parse(rest));
    }
  }
}
