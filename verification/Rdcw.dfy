/** Packed FILE_NOTIFY_INFORMATION entries (rdcw_parse.rs). File names are
    text, decoded from 16-bit units with U+FFFD for every unpaired surrogate. */
module Rdcw {
  import opened Bytes
  import opened Utf16

  const HEADER_LEN: nat := 12

  datatype NotifyRecord = NotifyRecord(action: nat, fileName: string)

  // ---------------------------------------------------------------- one entry

  function Next(b: seq<Byte>): nat
    requires |b| >= HEADER_LEN
  {
    FromLe(b[..4])
  }

  function NameLen(b: seq<Byte>): nat
    requires |b| >= HEADER_LEN
  {
    FromLe(b[8..12])
  }

  /** The entry at the front of `b` lies in the buffer, and a link to a next entry leads past
      this one and stays inside. */
  predicate HasEntry(b: seq<Byte>) {
    && |b| >= HEADER_LEN
    && NameLen(b) % 2 == 0 && HEADER_LEN + NameLen(b) <= |b|
    && (Next(b) == 0 || HEADER_LEN + NameLen(b) <= Next(b) <= |b|)
  }

  function Decode(b: seq<Byte>): NotifyRecord
    requires HasEntry(b)
  {
    NotifyRecord(FromLe(b[4..8]), NameOf(b[HEADER_LEN..HEADER_LEN + NameLen(b)]))
  }

  function Parse(b: seq<Byte>): seq<NotifyRecord>
    decreases |b|
  {
    if !HasEntry(b) then []
    else [Decode(b)] + if Next(b) == 0 then [] else Parse(b[Next(b)..])
  }

  method ParseNotifyRecords(buf: seq<Byte>) returns (out: seq<NotifyRecord>)
    ensures out == Parse(buf)
  {
    hide Next, NameLen, HasEntry, Decode, FromLe, NameOf, Parse;
    out := [];
    var offset := 0;
    assert buf[0..] == buf;
    while |buf| - offset >= HEADER_LEN
      invariant offset <= |buf|
      invariant Parse(buf) == out + Parse(buf[offset..])
      decreases |buf| - offset
    {
      FieldsAt(buf, offset);
      ParseStep(buf[offset..]);
      var next := FromLe(buf[offset..offset + 4]);
      var action := FromLe(buf[offset + 4..offset + 8]);
      var nameLen := FromLe(buf[offset + 8..offset + 12]);
      if nameLen % 2 != 0 || nameLen > |buf| - offset - HEADER_LEN { return; }
      if next != 0 && (next < HEADER_LEN + nameLen || next > |buf| - offset) { return; }
      var name := NameOf(buf[offset + HEADER_LEN..offset + HEADER_LEN + nameLen]);
      out := out + [NotifyRecord(action, name)];
      if next == 0 { return; }
      assert buf[offset + next..] == buf[offset..][next..];
      offset := offset + next;
    }
    TooShortForEntry(buf[offset..]);
  }

  lemma ParseStep(b: seq<Byte>)
    ensures Parse(b) == if !HasEntry(b) then [] else [Decode(b)] + if Next(b) == 0 then [] else Parse(b[Next(b)..])
  {
  }

  lemma TooShortForEntry(b: seq<Byte>)
    requires |b| < HEADER_LEN
    ensures Parse(b) == []
  {
  }

  /** The fields at an offset of the buffer are those of the entry that starts there. */
  lemma FieldsAt(buf: seq<Byte>, offset: nat)
    requires offset + HEADER_LEN <= |buf|
    ensures var b, next, nameLen := buf[offset..], FromLe(buf[offset..offset + 4]), FromLe(buf[offset + 8..offset + 12]);
            && (HasEntry(b) <==>
                  && nameLen % 2 == 0 && nameLen <= |buf| - offset - HEADER_LEN
                  && (next == 0 || (HEADER_LEN + nameLen <= next <= |buf| - offset)))
            && (HasEntry(b) ==>
                  && Next(b) == next
                  && Decode(b) == NotifyRecord(FromLe(buf[offset + 4..offset + 8]),
                                               NameOf(buf[offset + HEADER_LEN..offset + HEADER_LEN + nameLen])))
  {
    var b := buf[offset..];
    assert buf[offset..offset + 4] == b[..4] && buf[offset + 4..offset + 8] == b[4..8] && buf[offset + 8..offset + 12] == b[8..12];
    hide FromLe, NameOf;
    if HasEntry(b) {
      assert buf[offset + HEADER_LEN..offset + HEADER_LEN + NameLen(b)] == b[HEADER_LEN..HEADER_LEN + NameLen(b)];
    }
  }

  // ---------------------------------------------------------------- growing and cutting a buffer

  /** More bytes behind a valid entry change nothing about it. */
  lemma EntryIgnoresRest(a: seq<Byte>, b: seq<Byte>)
    requires HasEntry(a)
    ensures HasEntry(a + b) && Next(a + b) == Next(a) && Decode(a + b) == Decode(a)
    ensures Next(a) <= |a| && (a + b)[Next(a)..] == a[Next(a)..] + b
  {
    var c := a + b;
    assert c[..4] == a[..4] && c[4..8] == a[4..8] && c[8..12] == a[8..12];
    hide FromLe, NameOf;
    assert c[HEADER_LEN..HEADER_LEN + NameLen(a)] == a[HEADER_LEN..HEADER_LEN + NameLen(a)];
  }

  /** Cutting the buffer anywhere loses records from the end only. */
  lemma {:induction false} TruncationGivesPrefix(a: seq<Byte>, b: seq<Byte>)
    ensures Parse(a) <= Parse(a + b)
    decreases |a|
  {
    if HasEntry(a) {
      EntryIgnoresRest(a, b);
      LinkMovesOn(a);
      hide HasEntry, Decode, Next;
      if Next(a) != 0 {
        TruncationGivesPrefix(a[Next(a)..], b);
      }
    }
  }

  lemma LinkMovesOn(a: seq<Byte>)
    requires HasEntry(a)
    ensures Next(a) == 0 || 0 < Next(a) <= |a|
  {
  }

  /** Parsing stops at what is too short for an entry, at an odd or too long name, and at a link
      into the entry or beyond the buffer; nothing of that entry is taken. */
  lemma ParsingStopsAtDamage(b: seq<Byte>)
    requires || |b| < 12 || FromLe(b[8..12]) % 2 != 0 || 12 + FromLe(b[8..12]) > |b|
             || (FromLe(b[..4]) != 0 && (FromLe(b[..4]) < 12 + FromLe(b[8..12]) || FromLe(b[..4]) > |b|))
    ensures Parse(b) == []
  {
  }

  // ---------------------------------------------------------------- the printer

  /** An entry and the padding before the next one. */
  predicate Printable(r: NotifyRecord, padding: seq<Byte>) {
    r.action < Range(4) && HEADER_LEN + |NameBytes(r.fileName)| + |padding| < Range(4)
  }

  function Print(r: NotifyRecord, padding: seq<Byte>, last: bool): (b: seq<Byte>)
    requires Printable(r, padding)
    ensures |b| == HEADER_LEN + |NameBytes(r.fileName)| + |padding|
  {
    ToLe(if last then 0 else HEADER_LEN + |NameBytes(r.fileName)| + |padding|, 4) + ToLe(r.action, 4) + ToLe(|NameBytes(r.fileName)|, 4)
    + NameBytes(r.fileName) + padding
  }

  function PrintAll(rs: seq<NotifyRecord>, pads: seq<seq<Byte>>): seq<Byte>
    requires |rs| == |pads| && forall i :: 0 <= i < |rs| ==> Printable(rs[i], pads[i])
  {
    if rs == [] then [] else Print(rs[0], pads[0], |rs| == 1) + PrintAll(rs[1..], pads[1..])
  }

  lemma PrintedFields(r: NotifyRecord, padding: seq<Byte>, last: bool)
    requires Printable(r, padding)
    ensures var b, n := Print(r, padding, last), |NameBytes(r.fileName)|;
            && b[..4] == ToLe(if last then 0 else |b|, 4) && b[4..8] == ToLe(r.action, 4) && b[8..12] == ToLe(n, 4)
            && b[12..12 + n] == NameBytes(r.fileName)
  {
    hide ToLe, NameBytes, Range;
  }

  lemma PrintedEntryIsRead(r: NotifyRecord, padding: seq<Byte>, last: bool)
    requires Printable(r, padding)
    ensures var b := Print(r, padding, last);
            HasEntry(b) && Next(b) == (if last then 0 else |b|) && Decode(b) == r
  {
    PrintedFields(r, padding, last);
    Ranges();
    FromTo(|Print(r, padding, last)|, 4);
    FromTo(0, 4);
    FromTo(r.action, 4);
    FromTo(|NameBytes(r.fileName)|, 4);
    NameReadBack(r.fileName);
    hide Print, FromLe, ToLe, Range, NameOf, NameBytes;
  }

  /** Parsing inverts printing for any padding between the entries, and whatever lies behind
      the last one. */
  lemma {:induction false} ParseInvertsPrint(rs: seq<NotifyRecord>, pads: seq<seq<Byte>>, rest: seq<Byte>)
    requires |rs| == |pads| && rs != [] && forall i :: 0 <= i < |rs| ==> Printable(rs[i], pads[i])
    ensures Parse(PrintAll(rs, pads) + rest) == rs
  {
    hide Print, Printable, HasEntry, Decode, Next, Parse;
    var b, more := Print(rs[0], pads[0], |rs| == 1), PrintAll(rs[1..], pads[1..]);
    PrintedEntryIsRead(rs[0], pads[0], |rs| == 1);
    EntryThenRest(b, more + rest);
    assert (b + more) + rest == b + (more + rest);
    if |rs| > 1 {
      ParseInvertsPrint(rs[1..], pads[1..], rest);
      assert rs == [rs[0]] + rs[1..];
    }
  }

  /** An entry that fills its buffer, or is the last, is parsed off. */
  lemma EntryThenRest(b: seq<Byte>, rest: seq<Byte>)
    requires HasEntry(b) && (Next(b) == 0 || Next(b) == |b|)
    ensures Parse(b + rest) == [Decode(b)] + if Next(b) == 0 then [] else Parse(rest)
  {
    EntryIgnoresRest(b, rest);
    ParseStep(b + rest);
    hide HasEntry, Decode, Next, Parse;
    assert b[|b|..] + rest == rest;
  }
}
