/** The encrypted spool file: its writer, the stable read (stable_read.rs), and its reader
    (spool_crypto.rs).

    The AEAD is a pair of functions. What is needed of it is said where it is needed: that it
    decrypts what it encrypted, and, for the results on foreign files, that a key opens what it
    has sealed and nothing else. */
module Spool {
  import opened Options
  import opened Bytes

  const SPOOL_FORMAT_VERSION: Byte := 2
  const TAG: nat := 16

  /** `seal` and `unseal` take a nonce of 24 bytes. */
  datatype Cipher = Cipher(seal: (seq<Byte>, seq<Byte>) -> seq<Byte>, unseal: (seq<Byte>, seq<Byte>) -> Option<seq<Byte>>)

  /** What is sealed under this nonce opens again. */
  predicate Opens(c: Cipher, nonce: seq<Byte>, plain: seq<Byte>) {
    c.unseal(nonce, c.seal(nonce, plain)) == Some(plain) && |c.seal(nonce, plain)| == |plain| + TAG
  }

  ghost predicate Correct(c: Cipher) {
    forall nonce, plain :: Opens(c, nonce, plain)
  }

  const ZEROS: seq<Byte> := [0, 0, 0, 0, 0, 0, 0, 0, 0, 0, 0, 0, 0, 0, 0, 0]

  lemma SomeCipherIsCorrect() returns (c: Cipher)
    ensures Correct(c)
  {
    c := Cipher((nonce: seq<Byte>, plain: seq<Byte>) => plain + ZEROS,
                (nonce: seq<Byte>, sealed: seq<Byte>) => if |sealed| >= TAG then Some(sealed[..|sealed| - TAG]) else None);
    forall nonce, plain ensures Opens(c, nonce, plain) {
      assert (plain + ZEROS)[..|plain|] == plain;
    }
  }

  /** Sixteen bytes that name the file, then the number of the chunk. */
  function ChunkNonce(prefix: seq<Byte>, index: nat): (nonce: seq<Byte>)
    ensures |nonce| == |prefix| + 8
  {
    prefix + ToLe(index, 8)
  }

  /** No nonce is used twice for 64-bit indexes. */
  lemma NonceIsInjective(prefix: seq<Byte>, i: nat, prefix': seq<Byte>, i': nat)
    requires |prefix| == |prefix'| && i < Range(8) && i' < Range(8)
    requires ChunkNonce(prefix, i) == ChunkNonce(prefix', i')
    ensures prefix == prefix' && i == i'
  {
    var n := |prefix|;
    assert ChunkNonce(prefix, i)[..n] == prefix && ChunkNonce(prefix', i')[..n] == prefix';
    assert ChunkNonce(prefix, i)[n..] == ToLe(i, 8) && ChunkNonce(prefix', i')[n..] == ToLe(i', 8);
    FromTo(i, 8);
    FromTo(i', 8);
  }

  // ---------------------------------------------------------------- the format

  function Concat(chunks: seq<seq<Byte>>): seq<Byte> {
    if chunks == [] then [] else chunks[0] + Concat(chunks[1..])
  }

  /** Length of the plain chunk, then the sealed chunk. */
  function Frame(c: Cipher, prefix: seq<Byte>, index: nat, chunk: seq<Byte>): seq<Byte> {
    ToLe(|chunk|, 4) + c.seal(ChunkNonce(prefix, index), chunk)
  }

  function Frames(c: Cipher, prefix: seq<Byte>, chunks: seq<seq<Byte>>, index: nat): seq<Byte>
    decreases |chunks|
  {
    if chunks == [] then [] else Frame(c, prefix, index, chunks[0]) + Frames(c, prefix, chunks[1..], index + 1)
  }

  /** The whole file, as written. */
  function Written(c: Cipher, prefix: seq<Byte>, chunks: seq<seq<Byte>>): seq<Byte> {
    [SPOOL_FORMAT_VERSION] + prefix + Frames(c, prefix, chunks, 0)
  }

  lemma {:induction false} ConcatAppend(chunks: seq<seq<Byte>>, x: seq<Byte>)
    ensures Concat(chunks + [x]) == Concat(chunks) + x
  {
    if chunks == [] {
      assert (chunks + [x])[1..] == [];
    } else {
      ConcatAppend(chunks[1..], x);
      assert (chunks + [x])[1..] == chunks[1..] + [x];
    }
  }

  lemma {:induction false} FramesAppend(c: Cipher, prefix: seq<Byte>, chunks: seq<seq<Byte>>, x: seq<Byte>, index: nat)
    ensures Frames(c, prefix, chunks + [x], index) == Frames(c, prefix, chunks, index) + Frame(c, prefix, index + |chunks|, x)
    decreases |chunks|
  {
    hide Frame;
    if chunks == [] {
      assert (chunks + [x])[1..] == [];
    } else {
      FramesAppend(c, prefix, chunks[1..], x, index + 1);
      assert (chunks + [x])[1..] == chunks[1..] + [x];
    }
  }

  // ---------------------------------------------------------------- reading it back

  datatype SpoolError = TooShort | BadVersion | TruncatedHeader | TruncatedChunk | NotAuthentic

  function DecryptFrames(c: Cipher, prefix: seq<Byte>, rest: seq<Byte>, index: nat): Result<seq<Byte>, SpoolError>
    decreases |rest|
  {
    if rest == [] then Ok([])
    else if |rest| < 4 then Err(TruncatedHeader)
    else
      var end := 4 + FromLe(rest[..4]) + TAG;
      if |rest| < end then Err(TruncatedChunk)
      else
        match c.unseal(ChunkNonce(prefix, index), rest[4..end])
        case None => Err(NotAuthentic)
        case Some(plain) =>
          match DecryptFrames(c, prefix, rest[end..], index + 1)
          case Ok(more) => Ok(plain + more)
          case Err(e) => Err(e)
  }

  function DecryptSpec(c: Cipher, blob: seq<Byte>): Result<seq<Byte>, SpoolError> {
    if |blob| < 17 then Err(TooShort)
    else if blob[0] != SPOOL_FORMAT_VERSION then Err(BadVersion)
    else DecryptFrames(c, blob[1..17], blob[17..], 0)
  }

  function Prepend(out: seq<Byte>, r: Result<seq<Byte>, SpoolError>): Result<seq<Byte>, SpoolError> {
    match r
    case Ok(more) => Ok(out + more)
    case Err(e) => Err(e)
  }

  method DecryptFile(c: Cipher, blob: seq<Byte>) returns (r: Result<seq<Byte>, SpoolError>)
    ensures r == DecryptSpec(c, blob)
  {
    if |blob| < 1 + 16 { return Err(TooShort); }
    if blob[0] != SPOOL_FORMAT_VERSION { return Err(BadVersion); }
    var prefix := blob[1..17];
    var rest := blob[17..];
    var out := [];
    var index := 0;
    PrependNothing(DecryptFrames(c, prefix, rest, index));
    while |rest| > 0
      invariant DecryptSpec(c, blob) == Prepend(out, DecryptFrames(c, prefix, rest, index))
      decreases |rest|
    {
      if |rest| < 4 { return Err(TruncatedHeader); }
      var len := FromLe(rest[..4]);
      if |rest[4..]| < len + TAG { return Err(TruncatedChunk); }
      var end := 4 + len + TAG;
      var plain := c.unseal(ChunkNonce(prefix, index), rest[4..end]);
      if plain.None? { return Err(NotAuthentic); }
      AppendIsAssociative(out, plain.value, DecryptFrames(c, prefix, rest[end..], index + 1));
      out := out + plain.value;
      rest := rest[end..];
      index := index + 1;
    }
    assert out + [] == out;
    r := Ok(out);
  }

  lemma PrependNothing(r: Result<seq<Byte>, SpoolError>)
    ensures Prepend([], r) == r
  {
    if r.Ok? { assert [] + r.value == r.value; }
  }

  lemma AppendIsAssociative(x: seq<Byte>, y: seq<Byte>, r: Result<seq<Byte>, SpoolError>)
    ensures Prepend(x, Prepend(y, r)) == Prepend(x + y, r)
  {
    if r.Ok? { assert x + (y + r.value) == (x + y) + r.value; }
  }

  // ---------------------------------------------------------------- round trip

  /** One frame is read back and leaves what follows. */
  lemma FrameIsRead(c: Cipher, prefix: seq<Byte>, index: nat, chunk: seq<Byte>, rest: seq<Byte>)
    requires Opens(c, ChunkNonce(prefix, index), chunk) && |chunk| < Range(4)
    ensures DecryptFrames(c, prefix, Frame(c, prefix, index, chunk) + rest, index)
         == Prepend(chunk, DecryptFrames(c, prefix, rest, index + 1))
  {
    var all, sealed := Frame(c, prefix, index, chunk) + rest, c.seal(ChunkNonce(prefix, index), chunk);
    FromTo(|chunk|, 4);
    hide FromLe, ToLe, ChunkNonce;
    assert all[..4] == ToLe(|chunk|, 4);
    assert all[4..4 + |sealed|] == sealed;
    assert all[4 + |sealed|..] == rest;
  }

  /** Every chunk opens again under the nonce of its position. */
  ghost predicate ChunksOpen(c: Cipher, prefix: seq<Byte>, chunks: seq<seq<Byte>>, index: nat) {
    forall i :: 0 <= i < |chunks| ==> Opens(c, ChunkNonce(prefix, index + i), chunks[i])
  }

  lemma {:induction false} FramesAreRead(c: Cipher, prefix: seq<Byte>, chunks: seq<seq<Byte>>, index: nat)
    requires ChunksOpen(c, prefix, chunks, index) && forall i :: 0 <= i < |chunks| ==> |chunks[i]| < Range(4)
    ensures DecryptFrames(c, prefix, Frames(c, prefix, chunks, index), index) == Ok(Concat(chunks))
    decreases |chunks|
  {
    hide Opens, Frame, Range;
    if chunks != [] {
      assert Opens(c, ChunkNonce(prefix, index + 0), chunks[0]);
      assert ChunksOpen(c, prefix, chunks[1..], index + 1) by {
        forall i | 0 <= i < |chunks[1..]| ensures Opens(c, ChunkNonce(prefix, index + 1 + i), chunks[1..][i]) {
          assert Opens(c, ChunkNonce(prefix, index + (i + 1)), chunks[i + 1]);
        }
      }
      hide ChunksOpen;
      FramesAreRead(c, prefix, chunks[1..], index + 1);
      FrameIsRead(c, prefix, index, chunks[0], Frames(c, prefix, chunks[1..], index + 1));
    }
  }

  lemma WrittenIsRead(c: Cipher, prefix: seq<Byte>, chunks: seq<seq<Byte>>)
    requires ChunksOpen(c, prefix, chunks, 0) && |prefix| == 16
    requires forall i :: 0 <= i < |chunks| ==> |chunks[i]| < Range(4)
    ensures DecryptSpec(c, Written(c, prefix, chunks)) == Ok(Concat(chunks))
  {
    var blob := Written(c, prefix, chunks);
    assert blob[1..17] == prefix && blob[17..] == Frames(c, prefix, chunks, 0);
    FramesAreRead(c, prefix, chunks, 0);
  }

  /** Whatever the chunk boundaries, the reader gives back what the writer was given. */
  lemma RoundTrip(c: Cipher, prefix: seq<Byte>, chunks: seq<seq<Byte>>)
    requires Correct(c) && |prefix| == 16
    requires forall i :: 0 <= i < |chunks| ==> |chunks[i]| < Range(4)
    ensures DecryptSpec(c, Written(c, prefix, chunks)) == Ok(Concat(chunks))
  {
    hide Opens;
    assert ChunksOpen(c, prefix, chunks, 0);
    hide *;
    WrittenIsRead(c, prefix, chunks);
  }

  /** The file byte by byte: version 2, sixteen bytes of prefix, and then for each chunk its length
      in four bytes and what was sealed under the prefix and the chunk's number, which is sixteen
      bytes longer. */
  lemma FileLayout(c: Cipher, prefix: seq<Byte>, chunks: seq<seq<Byte>>, i: nat)
    requires ChunksOpen(c, prefix, chunks, 0) && |prefix| == 16 && i < |chunks|
    ensures var blob, at, n := Written(c, prefix, chunks), 17 + |Concat(chunks[..i])| + 20 * i, |chunks[i]|;
            && |blob| == 17 + |Concat(chunks)| + 20 * |chunks| && at + 20 + n <= |blob|
            && blob[0] == 2 && blob[1..17] == prefix
            && blob[at..at + 4] == ToLe(n, 4) && blob[at + 4..at + 20 + n] == c.seal(prefix + ToLe(i, 8), chunks[i])
  {
    hide *;
    FileAround(c, prefix, chunks, i);
    FileLengths(c, prefix, chunks, i);
    FramesLength(c, prefix, chunks, 0);
    InPlace(prefix, Frames(c, prefix, chunks[..i], 0), ToLe(|chunks[i]|, 4), c.seal(prefix + ToLe(i, 8), chunks[i]),
            Frames(c, prefix, chunks[i + 1..], i + 1));
  }

  lemma FileLengths(c: Cipher, prefix: seq<Byte>, chunks: seq<seq<Byte>>, i: nat)
    requires ChunksOpen(c, prefix, chunks, 0) && |prefix| == 16 && i < |chunks|
    ensures |Frames(c, prefix, chunks[..i], 0)| == |Concat(chunks[..i])| + 20 * i
    ensures |c.seal(prefix + ToLe(i, 8), chunks[i])| == |chunks[i]| + 16
    ensures |Written(c, prefix, chunks)| == 17 + |Frames(c, prefix, chunks, 0)|
  {
    ShorterOpen(c, prefix, chunks, i);
    FramesLength(c, prefix, chunks[..i], 0);
    assert Opens(c, ChunkNonce(prefix, 0 + i), chunks[i]);
    hide Frames, ChunksOpen, Concat, ToLe;
  }

  lemma InPlace(prefix: seq<Byte>, before: seq<Byte>, x: seq<Byte>, y: seq<Byte>, behind: seq<Byte>)
    requires |prefix| == 16
    ensures var b, at := [2] + prefix + before + x + y + behind, 17 + |before|;
            && b[0] == 2 && b[1..17] == prefix && at + |x| + |y| <= |b|
            && b[at..at + |x|] == x && b[at + |x|..at + |x| + |y|] == y
  {
    PartsAt([2] + prefix + before, x, y, behind);
    StartsWith(prefix, before + x + y + behind);
    Regroup([2] + prefix, before, x, y, behind);
  }

  lemma FileAround(c: Cipher, prefix: seq<Byte>, chunks: seq<seq<Byte>>, i: nat)
    requires i < |chunks|
    ensures Written(c, prefix, chunks)
         == [2] + prefix + Frames(c, prefix, chunks[..i], 0) + ToLe(|chunks[i]|, 4) + c.seal(prefix + ToLe(i, 8), chunks[i])
            + Frames(c, prefix, chunks[i + 1..], i + 1)
  {
    FramesSplit(c, prefix, chunks, i, 0);
    FramesSplit(c, prefix, chunks[i..], 1, i);
    assert chunks[i..][..1] == [chunks[i]] && chunks[i..][1..] == chunks[i + 1..];
    OneFrame(c, prefix, chunks[i], i);
    hide Frames, ToLe;
    var x, y := ToLe(|chunks[i]|, 4), c.seal(prefix + ToLe(i, 8), chunks[i]);
    assert Frame(c, prefix, i, chunks[i]) == x + y;
    Join([2] + prefix, Frames(c, prefix, chunks[..i], 0), x, y, Frames(c, prefix, chunks[i + 1..], i + 1));
  }

  lemma Join(a: seq<Byte>, b: seq<Byte>, x: seq<Byte>, y: seq<Byte>, z: seq<Byte>)
    ensures a + (b + ((x + y) + z)) == a + b + x + y + z
  {
  }

  lemma Regroup(a: seq<Byte>, b: seq<Byte>, x: seq<Byte>, y: seq<Byte>, z: seq<Byte>)
    ensures a + (b + x + y + z) == a + b + x + y + z
  {
  }

  lemma PartsAt(a: seq<Byte>, x: seq<Byte>, y: seq<Byte>, z: seq<Byte>)
    ensures var b := a + x + y + z;
            && |b| == |a| + |x| + |y| + |z|
            && b[|a|..|a| + |x|] == x && b[|a| + |x|..|a| + |x| + |y|] == y
  {
  }

  lemma StartsWith(prefix: seq<Byte>, more: seq<Byte>)
    requires |prefix| == 16
    ensures var b := [2] + prefix + more; b[0] == 2 && b[1..17] == prefix
  {
  }

  lemma OneFrame(c: Cipher, prefix: seq<Byte>, chunk: seq<Byte>, index: nat)
    ensures Frames(c, prefix, [chunk], index) == Frame(c, prefix, index, chunk)
  {
    assert [chunk][1..] == [];
    assert Frame(c, prefix, index, chunk) + [] == Frame(c, prefix, index, chunk);
  }

  lemma ShorterOpen(c: Cipher, prefix: seq<Byte>, chunks: seq<seq<Byte>>, k: nat)
    requires ChunksOpen(c, prefix, chunks, 0) && k <= |chunks|
    ensures ChunksOpen(c, prefix, chunks[..k], 0)
  {
    hide Opens, ChunkNonce;
    forall i | 0 <= i < k ensures Opens(c, ChunkNonce(prefix, 0 + i), chunks[..k][i]) {
      assert Opens(c, ChunkNonce(prefix, 0 + i), chunks[i]);
    }
  }

  lemma {:induction false} FramesSplit(c: Cipher, prefix: seq<Byte>, chunks: seq<seq<Byte>>, k: nat, index: nat)
    requires k <= |chunks|
    ensures Frames(c, prefix, chunks, index) == Frames(c, prefix, chunks[..k], index) + Frames(c, prefix, chunks[k..], index + k)
    decreases k
  {
    hide Frame;
    if k == 0 {
      assert chunks[..0] == [] && chunks[0..] == chunks;
    } else {
      FramesSplit(c, prefix, chunks[1..], k - 1, index + 1);
      assert chunks[..k][1..] == chunks[1..][..k - 1] && chunks[1..][k - 1..] == chunks[k..];
    }
  }

  lemma {:induction false} FramesLength(c: Cipher, prefix: seq<Byte>, chunks: seq<seq<Byte>>, index: nat)
    requires ChunksOpen(c, prefix, chunks, index)
    ensures |Frames(c, prefix, chunks, index)| == |Concat(chunks)| + 20 * |chunks|
    decreases |chunks|
  {
    if chunks != [] {
      assert Opens(c, ChunkNonce(prefix, index + 0), chunks[0]);
      hide Opens, ChunkNonce;
      forall i | 0 <= i < |chunks[1..]| ensures Opens(c, ChunkNonce(prefix, index + 1 + i), chunks[1..][i]) {
        assert Opens(c, ChunkNonce(prefix, index + (i + 1)), chunks[i + 1]);
      }
      FramesLength(c, prefix, chunks[1..], index + 1);
    }
  }

  // ---------------------------------------------------------------- what is accepted

  /** Everything the key has sealed: nonces and plain chunks. */
  type Log = set<(seq<Byte>, seq<Byte>)>

  /** An ideal AEAD after sealing `log`: each of these opens again, and nothing else opens. */
  ghost predicate Ideal(c: Cipher, log: Log) {
    && (forall e :: e in log ==> Opens(c, e.0, e.1))
    && (forall nonce, sealed :: c.unseal(nonce, sealed).Some? ==>
          exists e :: e in log && e.0 == nonce && sealed == c.seal(nonce, e.1))
  }

  /** A cipher that appends zeros and looks up what it may open. */
  ghost function LookUpCipher(log: Log): Cipher {
    Cipher((nonce: seq<Byte>, plain: seq<Byte>) => plain + ZEROS,
           (nonce: seq<Byte>, sealed: seq<Byte>) =>
             if |sealed| >= TAG && sealed[|sealed| - TAG..] == ZEROS && (nonce, sealed[..|sealed| - TAG]) in log
             then Some(sealed[..|sealed| - TAG]) else None)
  }

  /** The ideal is met after sealing anything. */
  lemma IdealIsMet(log: Log)
    ensures Ideal(LookUpCipher(log), log)
  {
    var c := LookUpCipher(log);
    forall e | e in log ensures Opens(c, e.0, e.1) {
      var sealed := e.1 + ZEROS;
      assert sealed[..|sealed| - TAG] == e.1 && sealed[|sealed| - TAG..] == ZEROS;
      assert (e.0, e.1) == e;
    }
    forall nonce, sealed | c.unseal(nonce, sealed).Some?
      ensures exists e :: e in log && e.0 == nonce && sealed == c.seal(nonce, e.1)
    {
      var e := (nonce, sealed[..|sealed| - TAG]);
      assert sealed == e.1 + ZEROS;
      assert e in log;
    }
  }

  /** Under this prefix, the key sealed the chunks of one file and nothing else; the log may
      hold any number of other files. */
  ghost predicate LogOfFile(log: Log, prefix: seq<Byte>, chunks: seq<seq<Byte>>) {
    && (forall i: nat :: i < |chunks| ==> (ChunkNonce(prefix, i), chunks[i]) in log)
    && (forall e :: e in log && |e.0| == 24 && e.0[..16] == prefix ==>
          exists i: nat :: i < |chunks| && e.0 == ChunkNonce(prefix, i) && e.1 == chunks[i])
  }

  /** There is such a log for every file and every other content of the log. */
  lemma EveryFileHasALog(prefix: seq<Byte>, chunks: seq<seq<Byte>>, others: Log) returns (log: Log)
    requires |prefix| == 16
    requires forall e :: e in others ==> |e.0| == 24 && e.0[..16] != prefix
    ensures LogOfFile(log, prefix, chunks) && others <= log
  {
    var mine := set i: nat | i < |chunks| :: (ChunkNonce(prefix, i), chunks[i]);
    log := mine + others;
    forall i: nat | i < |chunks| ensures (ChunkNonce(prefix, i), chunks[i]) in log {
      assert (ChunkNonce(prefix, i), chunks[i]) in mine;
    }
  }

  /** A chunk that opens at a position is the chunk that was written at that position. */
  lemma OpensOnlyItsOwn(c: Cipher, log: Log, prefix: seq<Byte>, chunks: seq<seq<Byte>>, index: nat, sealed: seq<Byte>)
    requires Ideal(c, log) && LogOfFile(log, prefix, chunks) && |prefix| == 16
    requires |chunks| <= Range(8) && index < Range(8)
    requires c.unseal(ChunkNonce(prefix, index), sealed).Some?
    ensures index < |chunks| && sealed == c.seal(ChunkNonce(prefix, index), chunks[index])
    ensures c.unseal(ChunkNonce(prefix, index), sealed) == Some(chunks[index]) && |sealed| == |chunks[index]| + TAG
  {
    var nonce := ChunkNonce(prefix, index);
    assert nonce[..16] == prefix;
    var e :| e in log && e.0 == nonce && sealed == c.seal(nonce, e.1);
    var i: nat :| i < |chunks| && e.0 == ChunkNonce(prefix, i) && e.1 == chunks[i];
    NonceIsInjective(prefix, i, prefix, index);
    assert Opens(c, e.0, e.1);
  }

  /** What the key has sealed for the file opens at its place. */
  lemma OwnChunksOpen(c: Cipher, log: Log, prefix: seq<Byte>, chunks: seq<seq<Byte>>, k: nat)
    requires Ideal(c, log) && LogOfFile(log, prefix, chunks) && k <= |chunks|
    ensures ChunksOpen(c, prefix, chunks[..k], 0)
  {
    hide Opens, ChunkNonce;
    forall i | 0 <= i < k ensures Opens(c, ChunkNonce(prefix, 0 + i), chunks[..k][i]) {
      var e := (ChunkNonce(prefix, i), chunks[i]);
      assert e in log && Opens(c, e.0, e.1);
    }
  }

  lemma FrameWasOpened(c: Cipher, prefix: seq<Byte>, rest: seq<Byte>, index: nat)
    requires rest != [] && DecryptFrames(c, prefix, rest, index).Ok?
    ensures |rest| >= 4 && |rest| >= 4 + FromLe(rest[..4]) + TAG
    ensures var end := 4 + FromLe(rest[..4]) + TAG;
            var plain := c.unseal(ChunkNonce(prefix, index), rest[4..end]);
            && plain.Some?
            && DecryptFrames(c, prefix, rest, index) == Prepend(plain.value, DecryptFrames(c, prefix, rest[end..], index + 1))
  {
  }

  /** The first accepted frame is the one written at this position. */
  lemma FirstFrame(c: Cipher, log: Log, prefix: seq<Byte>, chunks: seq<seq<Byte>>, rest: seq<Byte>, index: nat)
    returns (more: seq<Byte>)
    requires Ideal(c, log) && LogOfFile(log, prefix, chunks) && |prefix| == 16
    requires |chunks| < Range(8) && index <= |chunks|
    requires rest != [] && DecryptFrames(c, prefix, rest, index).Ok?
    ensures index < |chunks| && |more| < |rest|
    ensures rest == Frame(c, prefix, index, chunks[index]) + more
    ensures DecryptFrames(c, prefix, rest, index) == Prepend(chunks[index], DecryptFrames(c, prefix, more, index + 1))
  {
    hide Ideal, LogOfFile, DecryptFrames, ChunkNonce, FromLe, ToLe, Range;
    FrameWasOpened(c, prefix, rest, index);
    var end := 4 + FromLe(rest[..4]) + TAG;
    var sealed := rest[4..end];
    OpensOnlyItsOwn(c, log, prefix, chunks, index, sealed);
    ToFrom(rest[..4]);
    assert rest == (rest[..4] + sealed) + rest[end..];
    assert rest[..4] + sealed == Frame(c, prefix, index, chunks[index]);
    more := rest[end..];
  }

  /** Frames that are accepted from position `index` on are those written from there up to
      some `k`. */
  lemma {:induction false} AcceptedFrames(c: Cipher, log: Log, prefix: seq<Byte>, chunks: seq<seq<Byte>>, rest: seq<Byte>, index: nat)
    returns (k: nat)
    requires Ideal(c, log) && LogOfFile(log, prefix, chunks) && |prefix| == 16
    requires |chunks| < Range(8) && index <= |chunks|
    requires DecryptFrames(c, prefix, rest, index).Ok?
    ensures index <= k <= |chunks|
    ensures rest == Frames(c, prefix, chunks[index..k], index)
    ensures DecryptFrames(c, prefix, rest, index) == Ok(Concat(chunks[index..k]))
    decreases |rest|
  {
    hide Ideal, LogOfFile, Frame, Range;
    if rest == [] {
      k := index;
    } else {
      var more := FirstFrame(c, log, prefix, chunks, rest, index);
      hide DecryptFrames;
      k := AcceptedFrames(c, log, prefix, chunks, more, index + 1);
      assert chunks[index..k][1..] == chunks[index + 1..k];
    }
  }

  /** A file with this prefix is accepted exactly when it is the writer's output cut after some
      number of chunks, and then that is what it decrypts to: chunks are never reordered,
      spliced from another file, repeated or altered. */
  lemma AcceptedFilesAreInitialRuns(c: Cipher, log: Log, prefix: seq<Byte>, chunks: seq<seq<Byte>>, blob: seq<Byte>)
    requires Ideal(c, log) && LogOfFile(log, prefix, chunks)
    requires |prefix| == 16 && |chunks| < Range(8) && forall i :: 0 <= i < |chunks| ==> |chunks[i]| < Range(4)
    requires |blob| >= 17 && blob[1..17] == prefix
    ensures DecryptSpec(c, blob).Ok? <==> exists k: nat :: k <= |chunks| && blob == Written(c, prefix, chunks[..k])
    ensures forall k: nat :: k <= |chunks| && blob == Written(c, prefix, chunks[..k]) ==>
              DecryptSpec(c, blob) == Ok(Concat(chunks[..k]))
  {
    forall k: nat | k <= |chunks| && blob == Written(c, prefix, chunks[..k])
      ensures DecryptSpec(c, blob) == Ok(Concat(chunks[..k]))
    {
      OwnChunksOpen(c, log, prefix, chunks, k);
      hide *;
      WrittenIsRead(c, prefix, chunks[..k]);
    }
    if DecryptSpec(c, blob).Ok? {
      var k := AcceptedFrames(c, log, prefix, chunks, blob[17..], 0);
      hide *;
      assert blob == [blob[0]] + blob[1..17] + blob[17..];
      assert chunks[0..k] == chunks[..k];
      StartsWithVersion(c, blob);
      WrittenIs(c, prefix, chunks[..k]);
    }
  }

  lemma StartsWithVersion(c: Cipher, blob: seq<Byte>)
    requires DecryptSpec(c, blob).Ok?
    ensures |blob| >= 17 && blob[0] == SPOOL_FORMAT_VERSION
  {
  }

  lemma WrittenIs(c: Cipher, prefix: seq<Byte>, chunks: seq<seq<Byte>>)
    ensures Written(c, prefix, chunks) == [SPOOL_FORMAT_VERSION] + prefix + Frames(c, prefix, chunks, 0)
  {
  }

  // ---------------------------------------------------------------- the stable read

  datatype ReadError = DeletedBeforeRead | PermissionDenied | TooLarge(size: nat) | ChangedDuringRead | SpoolFull | Io

  datatype IoKind = NotFound | NoPermission | OtherIo

  function MapOpenErr(e: IoKind): ReadError {
    match e
    case NotFound => DeletedBeforeRead
    case NoPermission => PermissionDenied
    case OtherIo => Io
  }

  /** What identifies the state of a file: its size and everything else that is compared. */
  datatype FileKey = FileKey(size: nat, other: nat)

  /** What one read call gives: bytes, and whether they could be written on; or an error. */
  datatype ReadStep = Data(bytes: seq<Byte>, written: bool) | Fails(error: IoKind)

  /** What one attempt meets. `path` is the fresh name it draws for its spool file. */
  datatype Attempt = Attempt(
    openError: Option<IoKind>,
    before: Result<FileKey, IoKind>,
    path: nat,
    prefix: seq<Byte>,
    createFails: bool,
    headerFails: bool,
    steps: seq<ReadStep>,
    after: Result<FileKey, IoKind>)

  datatype StableReadResult = StableReadResult(digest: nat, size: nat, path: nat)

  /** The bytes of all reads, one chunk per read. */
  function Chunks(steps: seq<ReadStep>): (chunks: seq<seq<Byte>>)
    ensures |chunks| <= |steps|
  {
    if steps == [] then []
    else
      var front := Chunks(steps[..|steps| - 1]);
      match steps[|steps| - 1]
      case Data(bytes, _) => front + [bytes]
      case Fails(_) => front
  }

  /** How the copy loop ends: the first event that stops it, or the total. */
  function CopyResult(steps: seq<ReadStep>, total: nat, max: nat): Result<nat, ReadError>
    decreases |steps|
  {
    if steps == [] then Ok(total)
    else
      match steps[0]
      case Fails(e) => Err(MapOpenErr(e))
      case Data(bytes, written) =>
        if total + |bytes| > max then Err(TooLarge(total + |bytes|))
        else if !written then Err(Io)
        else CopyResult(steps[1..], total + |bytes|, max)
  }

  function ReadOnceSpec(a: Attempt, max: nat, free: nat): Result<nat, ReadError> {
    if a.openError.Some? then Err(MapOpenErr(a.openError.value))
    else if a.before.Err? then Err(MapOpenErr(a.before.error))
    else if a.before.value.size > max then Err(TooLarge(a.before.value.size))
    else if a.before.value.size > free then Err(SpoolFull)
    else if a.createFails || a.headerFails then Err(Io)
    else
      match CopyResult(a.steps, 0, max)
      case Err(e) => Err(e)
      case Ok(total) =>
        if total != a.before.value.size then Err(ChangedDuringRead)
        else if a.after.Err? then Err(MapOpenErr(a.after.error))
        else if a.after.value != a.before.value then Err(ChangedDuringRead)
        else Ok(total)
  }

  /** What the spool file of a complete copy holds. */
  function Stored(cipher: Option<Cipher>, prefix: seq<Byte>, chunks: seq<seq<Byte>>): seq<Byte> {
    match cipher
    case Some(c) => Written(c, prefix, chunks)
    case None => Concat(chunks)
  }

  /** The copy succeeded but the second look at the file failed: the one way out that leaves
      the spool file behind. */
  predicate Leaves(a: Attempt, max: nat, free: nat) {
    && a.openError.None? && a.before.Ok? && a.before.value.size <= max && a.before.value.size <= free
    && !a.createFails && !a.headerFails
    && CopyResult(a.steps, 0, max) == Ok(a.before.value.size) && a.after.Err?
  }

  lemma {:induction false} CopyAddsUp(steps: seq<ReadStep>, total: nat, max: nat)
    requires CopyResult(steps, total, max).Ok?
    ensures CopyResult(steps, total, max) == Ok(total + |Concat(Chunks(steps))|)
    ensures steps == [] || total + |Concat(Chunks(steps))| <= max
    decreases |steps|
  {
    if steps != [] {
      CopyAddsUp(steps[1..], total + |steps[0].bytes|, max);
      ChunksFromFront(steps);
    }
  }

  lemma {:induction false} ChunksFromFront(steps: seq<ReadStep>)
    requires steps != [] && steps[0].Data?
    ensures Chunks(steps) == [steps[0].bytes] + Chunks(steps[1..])
    ensures Concat(Chunks(steps)) == steps[0].bytes + Concat(Chunks(steps[1..]))
  {
    if |steps| > 1 {
      ChunksFromFront(steps[..|steps| - 1]);
      assert steps[1..][..|steps| - 2] == steps[..|steps| - 1][1..];
    } else {
      assert steps[..0] == [];
    }
    assert Chunks(steps)[1..] == Chunks(steps[1..]);
  }

  lemma NothingCopied(a: Attempt, cipher: Option<Cipher>, max: nat)
    ensures a.steps[..0] == [] && a.steps[0..] == a.steps && Chunks([]) == [] && Concat([]) == []
    ensures Stored(cipher, a.prefix, []) == if cipher.Some? then [SPOOL_FORMAT_VERSION] + a.prefix else []
  {
  }

  lemma CopyOfNothing(total: nat, max: nat)
    ensures CopyResult([], total, max) == Ok(total)
  {
  }

  /** One turn of the copy loop. */
  lemma OneStep(a: Attempt, cipher: Option<Cipher>, max: nat, k: nat, total: nat)
    requires k < |a.steps|
    ensures CopyResult(a.steps[k..], total, max)
         == match a.steps[k]
            case Fails(e) => Err(MapOpenErr(e))
            case Data(bytes, written) =>
              if total + |bytes| > max then Err(TooLarge(total + |bytes|))
              else if !written then Err(Io)
              else CopyResult(a.steps[k + 1..], total + |bytes|, max)
    ensures a.steps[k].Data? ==>
              var chunks, bytes := Chunks(a.steps[..k]), a.steps[k].bytes;
              && Chunks(a.steps[..k + 1]) == chunks + [bytes]
              && Concat(chunks + [bytes]) == Concat(chunks) + bytes
              && Stored(cipher, a.prefix, chunks + [bytes])
                 == Stored(cipher, a.prefix, chunks) + if cipher.Some? then Frame(cipher.value, a.prefix, |chunks|, bytes) else bytes
  {
    assert a.steps[k..][1..] == a.steps[k + 1..] && a.steps[..k + 1][..k] == a.steps[..k];
    if a.steps[k].Data? {
      StoredAppend(cipher, a.prefix, Chunks(a.steps[..k]), a.steps[k].bytes);
      ConcatAppend(Chunks(a.steps[..k]), a.steps[k].bytes);
    }
  }

  class SpoolDir {
    var files: map<nat, seq<Byte>>

    /** One copy of the file into the spool. */
    method ReadOnce(a: Attempt, max: nat, free: nat, cipher: Option<Cipher>, digest: seq<Byte> -> nat)
      returns (r: Result<StableReadResult, ReadError>)
      requires a.path !in files
      modifies this
      ensures r.Ok? <==> ReadOnceSpec(a, max, free).Ok?
      ensures r.Err? ==> ReadOnceSpec(a, max, free) == Err(r.error)
      ensures r.Ok? ==>
                var content := Concat(Chunks(a.steps));
                && r.value == StableReadResult(digest(content), |content|, a.path)
                && a.before.Ok? && a.after == a.before && a.before.value.size == |content| <= max
      ensures files == if r.Ok? || Leaves(a, max, free) then old(files)[a.path := Stored(cipher, a.prefix, Chunks(a.steps))] else old(files)
    {
      if a.openError.Some? { return Err(MapOpenErr(a.openError.value)); }
      if a.before.Err? { return Err(MapOpenErr(a.before.error)); }
      var before := a.before.value;
      if before.size > max { return Err(TooLarge(before.size)); }
      if before.size > free { return Err(SpoolFull); }
      if a.createFails { return Err(Io); }
      ghost var files0 := files;
      files := files[a.path := []];
      if a.headerFails {
        files := files - {a.path};
        assert files == files0;
        return Err(Io);
      }
      var total, content, stopped := CopyLoop(a, max, cipher);
      if stopped.Some? {
        files := files - {a.path};
        assert files == files0;
        return Err(stopped.value);
      }
      CopyAddsUp(a.steps, 0, max);
      if total != before.size {
        files := files - {a.path};
        assert files == files0;
        return Err(ChangedDuringRead);
      }
      if a.after.Err? { return Err(MapOpenErr(a.after.error)); }
      if a.after.value != before {
        files := files - {a.path};
        assert files == files0;
        return Err(ChangedDuringRead);
      }
      return Ok(StableReadResult(digest(content), total, a.path));
    }

    /** Header, then chunk by chunk; `content` is what has gone into the hasher. */
    method CopyLoop(a: Attempt, max: nat, cipher: Option<Cipher>) returns (total: nat, content: seq<Byte>, stopped: Option<ReadError>)
      requires a.path in files
      modifies this
      ensures stopped.None? <==> CopyResult(a.steps, 0, max).Ok?
      ensures stopped.Some? ==> CopyResult(a.steps, 0, max) == Err(stopped.value)
      ensures stopped.None? ==> CopyResult(a.steps, 0, max) == Ok(total) && content == Concat(Chunks(a.steps))
      ensures stopped.None? ==> files == old(files)[a.path := Stored(cipher, a.prefix, Chunks(a.steps))]
      ensures a.path in files && files == old(files)[a.path := files[a.path]]
    {
      hide Chunks, Stored, Concat, Frame, CopyResult;
      var file := if cipher.Some? then [SPOOL_FORMAT_VERSION] + a.prefix else [];
      total, content, stopped := 0, [], None;
      var chunkIndex := 0;
      var k := 0;
      NothingCopied(a, cipher, max);
      while k < |a.steps|
        invariant 0 <= k <= |a.steps| && files == old(files)
        invariant CopyResult(a.steps, 0, max) == CopyResult(a.steps[k..], total, max)
        invariant content == Concat(Chunks(a.steps[..k]))
        invariant file == Stored(cipher, a.prefix, Chunks(a.steps[..k])) && chunkIndex == |Chunks(a.steps[..k])|
      {
        OneStep(a, cipher, max, k, total);
        match a.steps[k] {
          case Fails(e) =>
            files := files[a.path := file];
            stopped := Some(MapOpenErr(e));
            return;
          case Data(bytes, written) =>
            content := content + bytes;
            total := total + |bytes|;
            if total > max {
              files := files[a.path := file];
              stopped := Some(TooLarge(total));
              return;
            }
            if !written {
              files := files[a.path := file];
              stopped := Some(Io);
              return;
            }
            file := file + (if cipher.Some? then Frame(cipher.value, a.prefix, chunkIndex, bytes) else bytes);
            chunkIndex := chunkIndex + 1;
        }
        k := k + 1;
      }
      assert a.steps[..k] == a.steps && a.steps[k..] == [];
      CopyOfNothing(total, max);
      files := files[a.path := file];
    }

    /** Retries a changed file up to `retries` times; attempt `i` meets `attempts[i]`. */
    method StableRead(attempts: seq<Attempt>, max: nat, free: nat, retries: nat, cipher: Option<Cipher>, digest: seq<Byte> -> nat)
      returns (r: Result<StableReadResult, ReadError>, used: nat)
      requires |attempts| == retries + 1
      requires forall i :: 0 <= i < |attempts| ==> attempts[i].path !in files
      modifies this
      ensures 1 <= used <= retries + 1
      // every attempt but the last found the file changed
      ensures forall i :: 0 <= i < used - 1 ==> ReadOnceSpec(attempts[i], max, free) == Err(ChangedDuringRead)
      ensures r.Err? ==> ReadOnceSpec(attempts[used - 1], max, free) == Err(r.error)
      ensures r == Err(ChangedDuringRead) ==> used == retries + 1
      // what is returned is one unchanged state of the file, and it is what the spool holds
      ensures r.Ok? ==>
                var a := attempts[used - 1];
                var content := Concat(Chunks(a.steps));
                && r.value == StableReadResult(digest(content), |content|, a.path)
                && a.before.Ok? && a.after == a.before && a.before.value.size == |content| <= max
                && files == old(files)[a.path := Stored(cipher, a.prefix, Chunks(a.steps))]
      ensures r.Err? && !Leaves(attempts[used - 1], max, free) ==> files == old(files)
    {
      var attempt := 0;
      while true
        invariant 0 <= attempt <= retries
        invariant files == old(files)
        invariant forall i :: 0 <= i < attempt ==> ReadOnceSpec(attempts[i], max, free) == Err(ChangedDuringRead)
        decreases retries - attempt
      {
        r := ReadOnce(attempts[attempt], max, free, cipher, digest);
        if r == Err(ChangedDuringRead) && attempt < retries {
          attempt := attempt + 1;
          continue;
        }
        return r, attempt + 1;
      }
    }
  }

  lemma StoredAppend(cipher: Option<Cipher>, prefix: seq<Byte>, chunks: seq<seq<Byte>>, x: seq<Byte>)
    ensures Stored(cipher, prefix, chunks + [x])
         == Stored(cipher, prefix, chunks) + if cipher.Some? then Frame(cipher.value, prefix, |chunks|, x) else x
  {
    match cipher
    case Some(c) =>
      FramesAppend(c, prefix, chunks, x, 0);
      hide Frames, Frame;
      var header := [SPOOL_FORMAT_VERSION] + prefix;
      assert header + (Frames(c, prefix, chunks, 0) + Frame(c, prefix, |chunks|, x))
          == (header + Frames(c, prefix, chunks, 0)) + Frame(c, prefix, |chunks|, x);
    case None => ConcatAppend(chunks, x);
  }

  /** Reading a file through the spool gives back its bytes: what a successful encrypted read
      leaves there decrypts to the content that was hashed. */
  lemma SpoolKeepsContent(c: Cipher, a: Attempt, max: nat, free: nat)
    requires Correct(c) && |a.prefix| == 16 && ReadOnceSpec(a, max, free).Ok?
    requires forall i :: 0 <= i < |Chunks(a.steps)| ==> |Chunks(a.steps)[i]| < Range(4)
    ensures DecryptSpec(c, Stored(Some(c), a.prefix, Chunks(a.steps))) == Ok(Concat(Chunks(a.steps)))
    ensures ReadOnceSpec(a, max, free) == Ok(|Concat(Chunks(a.steps))|)
  {
    CopyAddsUp(a.steps, 0, max);
    RoundTrip(c, a.prefix, Chunks(a.steps));
  }
}
