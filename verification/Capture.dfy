/** The agent side of capture: the durable queue (state.rs) and the pipeline that drives one
    candidate through it (capture.rs), against the server of module Ingest.

    The network may lose a request or a reply, the agent may crash between any two persisted
    steps (`fuel`), and the server may crash inside a call. Spool encryption is the business of
    module Spool: a spool file is modelled by its plain bytes. */
module Capture {
  import opened Options
  import Ingest

  type CandidateId = nat
  type Path = nat
  type SpoolPath = nat

  datatype CaptureState =
    | Observed
    | Debouncing
    | Opening
    | CopyingAndHashing
    | Hashed
    | Announced
    | DedupHit
    | UploadRequired
    | Uploading
    | Finalizing
    | OccurrenceQueued
    | Complete
    | GapRecorded

  datatype Outcome = DeletedBeforeRead | PermissionDenied | TooLarge | ChangedDuringRead | UploadFailed

  datatype Candidate = Candidate(
    path: Path,
    priority: int,
    state: CaptureState,
    attempts: nat,
    nextRetryAt: int,
    size: Option<nat>,
    sha: Option<Ingest.Digest>,
    spoolPath: Option<SpoolPath>,
    terminal: Option<Outcome>)

  datatype Gap = Gap(path: Path, outcome: Outcome, sha: Option<Ingest.Digest>)

  /** What the stable read of the file ends in. */
  datatype ReadResult = ReadOk(bytes: Ingest.Bytes) | ReadGap(outcome: Outcome) | SpoolFull | ReadIo

  datatype Fate = Delivered | RequestLost | ReplyLost

  /** One run's surroundings. Ids are the UUIDs that would be drawn; `beforeUpload` and
      `beforeFinalize` are calls of other clients that reach the server in between. */
  datatype Env = Env(
    now: int,
    read: ReadResult,
    spoolPath: SpoolPath,
    announceFate: Fate,
    announceFuel: Option<nat>,
    sessionId: Ingest.UploadId,
    beforeUpload: seq<Ingest.Call>,
    uploadFate: Fate,
    beforeFinalize: seq<Ingest.Call>,
    finalizeFate: Fate,
    finalizeFuel: Option<nat>,
    artifactId: Ingest.ArtifactId,
    scanFails: bool)

  /** How one run over a candidate ended: to the end, or cut off between two persisted steps by
      a crash or by an error of the database. */
  datatype RunEnd = Finished | Crashed

  /** What can happen to an agent. `escapes` tells an error that reaches the worker loop, which
      then sets a retry, from a crash of the process. */
  datatype Event =
    | Discover(path: Path, priority: int, debounceMs: nat, now: int)
    | Work(now: int, env: Env, fuel: Option<nat>, escapes: bool)
    | Start(current: Ingest.BootId)
    | Others(calls: seq<Ingest.Call>)

  /** Boot ids are unique: a start finds the id of the last start, or one never seen. */
  predicate BootsAreFresh(boot: Ingest.BootId, seen: set<Ingest.BootId>, schedule: seq<Event>)
    decreases |schedule|
  {
    if schedule == [] then true
    else if schedule[0].Start? then
      && (schedule[0].current == boot || schedule[0].current !in seen)
      && BootsAreFresh(schedule[0].current, seen + {schedule[0].current}, schedule[1..])
    else BootsAreFresh(boot, seen, schedule[1..])
  }

  /** Nothing fails around the run. */
  predicate Undisturbed(env: Env) {
    && env.read.ReadOk?
    && env.announceFate.Delivered? && env.announceFuel.None?
    && env.uploadFate.Delivered? && env.beforeUpload == [] && env.beforeFinalize == []
    && env.finalizeFate.Delivered? && env.finalizeFuel.None? && !env.scanFails
  }

  // ---------------------------------------------------------------- the durable state

  type Pair = (Ingest.BootId, nat)

  /** The agent's durable state; `requests` is a history of the (boot, sequence) pairs sent. */
  datatype State = State(
    candidates: map<CandidateId, Candidate>,
    spool: map<SpoolPath, Ingest.Bytes>,
    boot: Ingest.BootId,
    sequence: nat,
    requests: seq<Pair>)

  /** Whose agent it is, and how the server hashes. */
  datatype Identity = Identity(tenant: Ingest.Tenant, agent: Ingest.AgentId, sha256: Ingest.Bytes -> Ingest.Digest)

  predicate Active(c: Candidate) {
    !c.state.Complete? && !c.state.GapRecorded?
  }

  /** The bytes have not been read yet. */
  predicate BeforeHashed(s: CaptureState) {
    s.Observed? || s.Debouncing? || s.Opening? || s.CopyingAndHashing?
  }

  /** The bytes have been read and not yet been acknowledged. */
  predicate InUploadPhase(s: CaptureState) {
    s.Hashed? || s.Announced? || s.UploadRequired? || s.Uploading? || s.Finalizing?
  }

  /** The server has answered for them. */
  predicate Acknowledged(s: CaptureState) {
    s.DedupHit? || s.OccurrenceQueued? || s.Complete?
  }

  ghost predicate MyOccurrence(me: Identity, o: Ingest.OccurrenceKey) {
    o.tenant == me.tenant && o.agent == me.agent
  }

  /** The server holds the artifact and at least one occurrence of it from this agent. */
  ghost predicate OnServer(me: Identity, srv: Ingest.State, d: Ingest.Digest) {
    && Ingest.ObjectKey(me.tenant, d) in srv.artifacts
    && exists o :: o in srv.occurrences && MyOccurrence(me, o) && srv.occurrences[o] == d
  }

  ghost predicate InSpool(me: Identity, spool: map<SpoolPath, Ingest.Bytes>, c: Candidate) {
    && c.spoolPath.Some? && c.spoolPath.value in spool
    && c.sha == Some(me.sha256(spool[c.spoolPath.value]))
    && c.size == Some(|spool[c.spoolPath.value]|)
  }

  /** What each state of the capture state machine promises. */
  ghost predicate RowOk(me: Identity, spool: map<SpoolPath, Ingest.Bytes>, srv: Ingest.State, c: Candidate) {
    && (InUploadPhase(c.state) ==> InSpool(me, spool, c))
    && (Acknowledged(c.state) ==> c.sha.Some? && OnServer(me, srv, c.sha.value))
    && FileOk(spool, c)
  }

  /** A spool file is named from HASHED on, and is there until the candidate is complete. */
  predicate FileOk(spool: map<SpoolPath, Ingest.Bytes>, c: Candidate) {
    && (BeforeHashed(c.state) ==> c.spoolPath.None?)
    && (c.spoolPath.Some? && !c.state.Complete? ==> c.spoolPath.value in spool)
  }

  ghost predicate RowsOk(me: Identity, a: State, srv: Ingest.State) {
    forall id :: id in a.candidates ==> RowOk(me, a.spool, srv, a.candidates[id])
  }

  /** No two candidates share a spool file. */
  ghost predicate SpoolIsPrivate(a: State) {
    forall i, j ::
      i in a.candidates && j in a.candidates && i != j && a.candidates[i].spoolPath.Some? ==>
        a.candidates[i].spoolPath != a.candidates[j].spoolPath
  }

  /** The spool files no active candidate and no gap names. */
  ghost function Strays(a: State): set<SpoolPath> {
    set p | p in a.spool && !Named(a, p)
  }

  ghost predicate Named(a: State, p: SpoolPath) {
    exists id :: id in a.candidates && Names(a.candidates[id], p)
  }

  /** The file is this candidate's, which is active or was closed with a gap. */
  predicate Names(c: Candidate, p: SpoolPath) {
    c.spoolPath == Some(p) && (Active(c) || c.state == GapRecorded)
  }

  function OwnFile(c: Candidate): set<SpoolPath> {
    if c.spoolPath.Some? then {c.spoolPath.value} else {}
  }

  /** The transitions before the stable read. */
  function StepsToRead(s: CaptureState): nat {
    if s.Observed? || s.Debouncing? then 2 else 1
  }

  /** The run gets as far as writing the spool file. */
  predicate Writes(before: CaptureState, env: Env, fuel: Option<nat>) {
    BeforeHashed(before) && env.read.ReadOk? && (fuel.None? || fuel.value > StepsToRead(before))
  }

  /** The run is cut right after that, before its HASHED row. */
  predicate CutBeforeHashedRow(before: CaptureState, env: Env, fuel: Option<nat>) {
    BeforeHashed(before) && env.read.ReadOk? && fuel == Some(StepsToRead(before) + 1)
  }

  /** The row keeps naming its spool file, which goes with the end of a run that completes the
      candidate. */
  ghost predicate FileGoes(spool: map<SpoolPath, Ingest.Bytes>, spool': map<SpoolPath, Ingest.Bytes>, c: Candidate, c': Candidate, ended: bool) {
    && c'.spoolPath == c.spoolPath
    && spool' == if ended && c'.state.Complete? then spool - OwnFile(c) else spool
  }

  lemma FileStays(spool: map<SpoolPath, Ingest.Bytes>, c: Candidate, c': Candidate, ended: bool)
    requires c'.spoolPath == c.spoolPath && (ended ==> !c'.state.Complete?)
    ensures FileGoes(spool, spool, c, c', ended)
  {
  }

  lemma FileGone(spool: map<SpoolPath, Ingest.Bytes>, spool': map<SpoolPath, Ingest.Bytes>, c: Candidate, c': Candidate)
    requires c'.spoolPath == c.spoolPath && c'.state.Complete?
    requires spool' == if c'.spoolPath.Some? then spool - {c'.spoolPath.value} else spool
    ensures FileGoes(spool, spool', c, c', true)
  {
  }

  /** Updates of the row before do not matter. */
  lemma FileStillGoes(spool: map<SpoolPath, Ingest.Bytes>, spool': map<SpoolPath, Ingest.Bytes>, c: Candidate, d: Candidate, c': Candidate, ended: bool)
    requires d.spoolPath == c.spoolPath && FileGoes(spool, spool', d, c', ended)
    ensures FileGoes(spool, spool', c, c', ended)
  {
  }

  /** Nothing but this candidate's row moves. */
  ghost predicate OnlyRow(rows: map<CandidateId, Candidate>, rows': map<CandidateId, Candidate>, id: CandidateId): (only: bool)
    ensures only ==> id in rows'
  {
    id in rows' && rows' == rows[id := rows'[id]]
  }

  lemma RowUpdated(rows: map<CandidateId, Candidate>, id: CandidateId, c: Candidate)
    requires id in rows
    ensures OnlyRow(rows, rows, id) && OnlyRow(rows, rows[id := c], id)
  {
  }

  lemma RowTwice(rows: map<CandidateId, Candidate>, between: map<CandidateId, Candidate>, rows': map<CandidateId, Candidate>, id: CandidateId)
    requires OnlyRow(rows, between, id) && OnlyRow(between, rows', id)
    ensures OnlyRow(rows, rows', id)
  {
  }

  /** What a run does to the spool and to the file its row names. */
  ghost predicate RunFiles(spool: map<SpoolPath, Ingest.Bytes>, spool': map<SpoolPath, Ingest.Bytes>, c: Candidate, c': Candidate,
                           env: Env, fuel: Option<nat>, ended: bool)
  {
    // a completed candidate's file is gone, read in this run or before
    && (ended && c'.state == Complete ==> spool' == spool - OwnFile(c))
    // any other run leaves the spool as it was, but for the file it has read
    && (!ended || c'.state != Complete ==> spool' == if Writes(c.state, env, fuel) then spool[env.spoolPath := env.read.bytes] else spool)
    && c'.spoolPath == (if Writes(c.state, env, fuel) && !CutBeforeHashedRow(c.state, env, fuel) then Some(env.spoolPath) else c.spoolPath)
    && (CutBeforeHashedRow(c.state, env, fuel) ==> !ended)
  }

  /** The read phase alone. */
  ghost predicate ReadFiles(spool: map<SpoolPath, Ingest.Bytes>, spool': map<SpoolPath, Ingest.Bytes>, c: Candidate, c': Candidate,
                            env: Env, fuel: Option<nat>)
  {
    && spool' == (if Writes(c.state, env, fuel) then spool[env.spoolPath := env.read.bytes] else spool)
    && c'.spoolPath == (if Writes(c.state, env, fuel) && !CutBeforeHashedRow(c.state, env, fuel) then Some(env.spoolPath) else c.spoolPath)
  }

  lemma CutBeforeRead(spool: map<SpoolPath, Ingest.Bytes>, c: Candidate, c': Candidate, env: Env, fuel: Option<nat>)
    requires c'.spoolPath == c.spoolPath && fuel.Some? && fuel.value < StepsToRead(c.state)
    ensures ReadFiles(spool, spool, c, c', env, fuel) && !CutBeforeHashedRow(c.state, env, fuel)
  {
  }

  /** `left` is the fuel after the transitions before the read. */
  lemma ReadTaken(spool: map<SpoolPath, Ingest.Bytes>, spool': map<SpoolPath, Ingest.Bytes>, c: Candidate, c': Candidate,
                  env: Env, fuel: Option<nat>, left: Option<nat>)
    requires BeforeHashed(c.state) && (fuel.Some? ==> fuel.value >= StepsToRead(c.state))
    requires left == if fuel.None? then None else Some(fuel.value - StepsToRead(c.state))
    requires spool' == if env.read.ReadOk? && left != Some(0) then spool[env.spoolPath := env.read.bytes] else spool
    requires c'.spoolPath == if env.read.ReadOk? && left != Some(0) && left != Some(1) then Some(env.spoolPath) else c.spoolPath
    ensures ReadFiles(spool, spool', c, c', env, fuel)
    ensures CutBeforeHashedRow(c.state, env, fuel) ==> env.read.ReadOk? && left == Some(1)
  {
  }

  lemma NothingRead(spool: map<SpoolPath, Ingest.Bytes>, c: Candidate, env: Env, fuel: Option<nat>)
    requires !BeforeHashed(c.state)
    ensures ReadFiles(spool, spool, c, c, env, fuel) && !CutBeforeHashedRow(c.state, env, fuel)
  {
  }

  lemma ReadEnds(spool: map<SpoolPath, Ingest.Bytes>, spool': map<SpoolPath, Ingest.Bytes>, c: Candidate, c': Candidate,
                 env: Env, fuel: Option<nat>, ended: bool)
    requires ReadFiles(spool, spool', c, c', env, fuel) && !c'.state.Complete?
    requires CutBeforeHashedRow(c.state, env, fuel) ==> !ended
    ensures RunFiles(spool, spool', c, c', env, fuel, ended)
  {
  }

  lemma ReadAndGo(spool: map<SpoolPath, Ingest.Bytes>, read: map<SpoolPath, Ingest.Bytes>, spool': map<SpoolPath, Ingest.Bytes>,
                  c: Candidate, d: Candidate, c': Candidate, env: Env, fuel: Option<nat>, ended: bool)
    requires env.spoolPath !in spool && FileOk(spool, c)
    requires ReadFiles(spool, read, c, d, env, fuel) && !CutBeforeHashedRow(c.state, env, fuel)
    requires FileGoes(read, spool', d, c', ended)
    ensures RunFiles(spool, spool', c, c', env, fuel, ended)
  {
    if ended && c'.state == Complete && Writes(c.state, env, fuel) {
      assert spool[env.spoolPath := env.read.bytes] - {env.spoolPath} == spool;
    }
  }

  /** A run that was cut, with the row it found and the row it left. */
  datatype CutRun = CutRun(env: Env, fuel: Option<nat>, before: Candidate, after: Candidate)

  /** The files such a run leaves to nobody: the one just written, when the cut comes before the
      HASHED row, and the candidate's own, when it comes between COMPLETE and the removal. */
  function LeftBy(cut: CutRun): set<SpoolPath> {
    if CutBeforeHashedRow(cut.before.state, cut.env, cut.fuel) then {cut.env.spoolPath}
    else if cut.after.state == Complete then OwnFile(cut.after)
    else {}
  }

  /** No two active candidates are for the same file. */
  ghost predicate PathsUnique(a: State) {
    forall i, j ::
      i in a.candidates && j in a.candidates && i != j && Active(a.candidates[i]) && Active(a.candidates[j]) ==>
        a.candidates[i].path != a.candidates[j].path
  }

  /** Every pair sent so far was new, the counter is past all pairs of this boot, and the server
      knows this agent only under pairs that were sent. */
  ghost predicate PairsFresh(me: Identity, a: State, srv: Ingest.State) {
    && (forall i, j :: 0 <= i < j < |a.requests| ==> a.requests[i] != a.requests[j])
    && (forall p :: p in a.requests && p.0 == a.boot ==> p.1 <= a.sequence)
    && (forall o :: o in srv.occurrences && MyOccurrence(me, o) ==> (o.boot, o.sequence) in a.requests)
  }

  ghost predicate Good(me: Identity, a: State, srv: Ingest.State) {
    && Ingest.Sound(srv, me.sha256)
    && RowsOk(me, a, srv)
    && SpoolIsPrivate(a)
    && PathsUnique(a)
    && PairsFresh(me, a, srv)
  }

  // ---------------------------------------------------------------- steps that keep it

  lemma RowOkStays(me: Identity, spool: map<SpoolPath, Ingest.Bytes>, srv: Ingest.State, srv': Ingest.State, c: Candidate)
    requires RowOk(me, spool, srv, c) && Ingest.Extends(srv, srv')
    ensures RowOk(me, spool, srv', c)
  {
    if Acknowledged(c.state) {
      var o :| o in srv.occurrences && MyOccurrence(me, o) && srv.occurrences[o] == c.sha.value;
      assert o in srv'.occurrences && srv'.occurrences[o] == c.sha.value;
    }
  }

  /** The server moves on without touching what it promised. */
  lemma ServerStepKeepsGood(me: Identity, a: State, srv: Ingest.State, srv': Ingest.State)
    requires Good(me, a, srv) && Ingest.Extends(srv, srv') && Ingest.Sound(srv', me.sha256)
    requires forall o :: o in srv'.occurrences && MyOccurrence(me, o) ==> (o.boot, o.sequence) in a.requests
    ensures Good(me, a, srv')
  {
    forall id | id in a.candidates ensures RowOk(me, a.spool, srv', a.candidates[id]) {
      RowOkStays(me, a.spool, srv, srv', a.candidates[id]);
    }
  }

  ghost function WithRow(a: State, id: CandidateId, c: Candidate): State {
    a.(candidates := a.candidates[id := c])
  }

  /** One row changes, keeping its file and, unless it is new, its spool file. */
  lemma RowStepKeepsGood(me: Identity, a: State, srv: Ingest.State, id: CandidateId, c: Candidate)
    requires Good(me, a, srv) && id in a.candidates && RowOk(me, a.spool, srv, c)
    requires c.path == a.candidates[id].path && (Active(c) ==> Active(a.candidates[id]))
    requires c.spoolPath == a.candidates[id].spoolPath
             || (c.spoolPath.Some? && forall j :: j in a.candidates ==> a.candidates[j].spoolPath != c.spoolPath)
    ensures Good(me, WithRow(a, id, c), srv)
  {
  }

  /** A new row for a file that no active candidate has. */
  lemma NewRowKeepsGood(me: Identity, a: State, srv: Ingest.State, id: CandidateId, c: Candidate)
    requires Good(me, a, srv) && id !in a.candidates && BeforeHashed(c.state) && c.spoolPath.None?
    requires forall j :: j in a.candidates && Active(a.candidates[j]) ==> a.candidates[j].path != c.path
    ensures Good(me, WithRow(a, id, c), srv)
  {
    hide InSpool, OnServer, Ingest.Sound;
  }

  /** A new pair of this boot is sent. */
  lemma SentPairKeepsGood(me: Identity, a: State, srv: Ingest.State, n: nat)
    requires Good(me, a, srv) && (a.boot, n) !in a.requests && n <= a.sequence
    ensures Good(me, a.(requests := a.requests + [(a.boot, n)]), srv)
  {
    hide RowsOk, SpoolIsPrivate, PathsUnique, Ingest.Sound;
    SameRows(me, a, srv, n);
  }

  lemma SameRows(me: Identity, a: State, srv: Ingest.State, n: nat)
    requires RowsOk(me, a, srv) && SpoolIsPrivate(a) && PathsUnique(a)
    ensures var a' := a.(requests := a.requests + [(a.boot, n)]); RowsOk(me, a', srv) && SpoolIsPrivate(a') && PathsUnique(a')
  {
    hide RowOk;
  }

  lemma NewSpoolFileKeepsGood(me: Identity, a: State, srv: Ingest.State, p: SpoolPath, bytes: Ingest.Bytes)
    requires Good(me, a, srv) && p !in a.spool
    ensures Good(me, a.(spool := a.spool[p := bytes]), srv)
  {
  }

  lemma DroppedSpoolFileKeepsGood(me: Identity, a: State, srv: Ingest.State, id: CandidateId)
    requires Good(me, a, srv) && id in a.candidates && a.candidates[id].state.Complete? && a.candidates[id].spoolPath.Some?
    ensures Good(me, a.(spool := a.spool - {a.candidates[id].spoolPath.value}), srv)
  {
  }

  ghost predicate OthersName(a: State, id: CandidateId, p: SpoolPath) {
    exists j :: j in a.candidates && j != id && Names(a.candidates[j], p)
  }

  lemma NamedHereOrElsewhere(a: State, id: CandidateId, c: Candidate, p: SpoolPath)
    ensures Named(WithRow(a, id, c), p) <==> OthersName(a, id, p) || Names(c, p)
  {
    var a' := WithRow(a, id, c);
    if Named(a', p) {
      var j: CandidateId :| j in a'.candidates && Names(a'.candidates[j], p);
      assert j == id || (j in a.candidates && Names(a.candidates[j], p));
    }
    if OthersName(a, id, p) {
      var j: CandidateId :| j in a.candidates && j != id && Names(a.candidates[j], p);
      assert j in a'.candidates && Names(a'.candidates[j], p);
    }
    if Names(c, p) { assert id in a'.candidates && Names(a'.candidates[id], p); }
  }

  /** A row that keeps its state and its file, or a new one without a file. */
  lemma SameStrays(a: State, id: CandidateId, c: Candidate)
    requires if id in a.candidates then c.spoolPath == a.candidates[id].spoolPath && c.state == a.candidates[id].state else c.spoolPath.None?
    ensures Strays(WithRow(a, id, c)) == Strays(a)
  {
    forall p: SpoolPath ensures Named(a, p) <==> Named(WithRow(a, id, c), p) {
      NamedHereOrElsewhere(a, id, c, p);
      if id in a.candidates {
        assert WithRow(a, id, a.candidates[id]) == a;
        NamedHereOrElsewhere(a, id, a.candidates[id], p);
      } else if Named(a, p) {
        var j: CandidateId :| j in a.candidates && Names(a.candidates[j], p);
        assert j != id;
      }
    }
  }

  lemma SameFiles(a: State, a': State)
    requires a'.candidates == a.candidates && a'.spool == a.spool
    ensures Strays(a') == Strays(a)
  {
    assert forall p: SpoolPath :: Named(a', p) == Named(a, p);
  }

  /** What a run does to the strays: nothing, unless it is cut at one of the two places. */
  lemma StraysAfterRun(a: State, a': State, id: CandidateId, env: Env, fuel: Option<nat>, ended: bool)
    requires id in a.candidates && Active(a.candidates[id]) && FileOk(a.spool, a.candidates[id]) && SpoolIsPrivate(a)
    requires env.spoolPath !in a.spool && forall j :: j in a.candidates ==> a.candidates[j].spoolPath != Some(env.spoolPath)
    requires id in a'.candidates && a'.candidates == a.candidates[id := a'.candidates[id]]
    requires RunFiles(a.spool, a'.spool, a.candidates[id], a'.candidates[id], env, fuel, ended)
    ensures Strays(a') == Strays(a) + if ended then {} else LeftBy(CutRun(env, fuel, a.candidates[id], a'.candidates[id]))
  {
    var c, c' := a.candidates[id], a'.candidates[id];
    forall p: SpoolPath
      ensures p in Strays(a') <==> p in Strays(a) || (!ended && p in LeftBy(CutRun(env, fuel, c, c')))
    {
      assert WithRow(a, id, c) == a;
      NamedHereOrElsewhere(a, id, c, p);
      NamedHereOrElsewhere(a, id, c', p);
      assert Named(a', p) <==> Named(WithRow(a, id, c'), p) by { assert WithRow(a, id, c').candidates == a'.candidates; }
      NotNamedElsewhere(a, id, p);
    }
  }

  lemma NotNamedElsewhere(a: State, id: CandidateId, p: SpoolPath)
    requires id in a.candidates && SpoolIsPrivate(a)
    ensures a.candidates[id].spoolPath == Some(p) ==> !OthersName(a, id, p)
  {
  }

  /** The next pair has never been sent. */
  lemma NextPairIsNew(me: Identity, a: State, srv: Ingest.State)
    requires Good(me, a, srv)
    ensures (a.boot, a.sequence + 1) !in a.requests
    ensures Ingest.OccurrenceKey(me.tenant, me.agent, a.boot, a.sequence + 1) !in srv.occurrences
    ensures Good(me, a.(sequence := a.sequence + 1), srv)
    ensures Good(me, a.(sequence := a.sequence + 1, requests := a.requests + [(a.boot, a.sequence + 1)]), srv)
  {
  }

  function BackoffSecs(attempts: nat): int {
    var n := if attempts < 6 then attempts else 6;
    var secs := [5, 10, 20, 40, 80, 160, 320][n];
    if secs < 300 then secs else 300
  }

  /** Five seconds, doubled with each attempt, up to five minutes. */
  lemma BackoffDoubles(attempts: nat)
    ensures BackoffSecs(0) == 5
    ensures BackoffSecs(attempts + 1) == if 2 * BackoffSecs(attempts) < 300 then 2 * BackoffSecs(attempts) else 300
  {
  }

  predicate Due(candidates: map<CandidateId, Candidate>, id: CandidateId, now: int) {
    id in candidates && Active(candidates[id]) && candidates[id].nextRetryAt <= now
  }

  predicate Ahead(candidates: map<CandidateId, Candidate>, i: CandidateId, j: CandidateId)
    requires i in candidates && j in candidates
  {
    candidates[i].priority < candidates[j].priority || (candidates[i].priority == candidates[j].priority && i <= j)
  }

  function Closed(c: Candidate, why: Outcome): Candidate {
    c.(state := GapRecorded, terminal := Some(why))
  }

  function Retried(c: Candidate, now: int): Candidate {
    c.(attempts := c.attempts + 1, nextRetryAt := now + BackoffSecs(c.attempts))
  }

  /** A run that comes to its end leaves nothing undecided: the candidate is complete, closed
      with a gap, put off under spool pressure, or, as long as attempts are left, due again
      with one attempt more. */
  predicate Decided(attempts: nat, after: Candidate, now: int, maxAttempts: nat) {
    || after.state.Complete?
    || after.state.GapRecorded?
    || (BeforeHashed(after.state) && after.attempts == attempts && after.nextRetryAt == now + 30)
    || (after.attempts == attempts + 1 && attempts < maxAttempts && after.nextRetryAt == now + BackoffSecs(attempts))
  }

  lemma RetryDecides(c: Candidate, now: int, maxAttempts: nat)
    requires Active(c)
    ensures Closed(c, UploadFailed).spoolPath == c.spoolPath == Retried(c, now).spoolPath
    ensures !Closed(c, UploadFailed).state.Complete? && !Retried(c, now).state.Complete? && !c.state.Complete?
    ensures Retried(c, now) == c.(attempts := c.attempts + 1, nextRetryAt := now + BackoffSecs(c.attempts))
    ensures Decided(c.attempts, Closed(c, UploadFailed), now, maxAttempts)
    ensures c.attempts < maxAttempts ==> Decided(c.attempts, Retried(c, now), now, maxAttempts)
  {
  }

  // ---------------------------------------------------------------- the agent

  class Agent {
    const server: Ingest.Server
    const tenant: Ingest.Tenant
    const agent: Ingest.AgentId
    const maxAttempts: nat
    var candidates: map<CandidateId, Candidate>
    var nextId: CandidateId
    var spool: map<SpoolPath, Ingest.Bytes>
    var boot: Ingest.BootId
    var sequence: nat
    var gaps: seq<Gap>
    ghost var requests: seq<Pair>
    ghost var boots: set<Ingest.BootId>

    ghost function Me(): Identity {
      Identity(tenant, agent, server.sha256)
    }

    ghost function View(): State
      reads this
    {
      State(candidates, spool, boot, sequence, requests)
    }

    ghost predicate Valid()
      reads this, server
    {
      && Good(Me(), View(), server.View())
      && (forall id :: id in candidates ==> id < nextId)
      && boot in boots && (forall p :: p in requests ==> p.0 in boots)
    }

    /** A path no spool file and no candidate has. */
    predicate UnusedSpoolPath(p: SpoolPath)
      reads this
    {
      p !in spool && forall id :: id in candidates ==> candidates[id].spoolPath != Some(p)
    }

    predicate Mine(t: Ingest.Tenant, occ: Option<Ingest.Occurrence>) {
      occ.Some? && t == tenant && occ.value.agent == agent
    }

    constructor (srv: Ingest.Server, t: Ingest.Tenant, who: Ingest.AgentId, attempts: nat, bootId: Ingest.BootId)
      requires srv.Valid() && forall o :: o in srv.occurrences ==> o.agent != who
      ensures Valid() && server == srv && tenant == t && agent == who && candidates == map[] && spool == map[] && boot == bootId
      ensures boots == {bootId} && requests == []
    {
      server, tenant, agent, maxAttempts := srv, t, who, attempts;
      candidates, nextId, spool, boot, sequence, gaps, requests, boots := map[], 0, map[], bootId, 0, [], [], {bootId};
    }

    // -------------------------------------------------------------- StateDb

    /** INSERT … ON CONFLICT(path) WHERE active DO NOTHING. */
    method Enqueue(path: Path, priority: int, debounceMs: nat, now: int) returns (id: Option<CandidateId>)
      requires Valid()
      modifies this`candidates, this`nextId
      ensures Valid()
      ensures id.None? <==> exists i :: i in old(candidates) && Active(old(candidates)[i]) && old(candidates)[i].path == path
      ensures id.None? ==> candidates == old(candidates)
      ensures id.Some? ==>
                && id.value !in old(candidates)
                && candidates == old(candidates)[id.value := Candidate(path, priority, if debounceMs > 0 then Debouncing else Observed,
                                                                       0, now + debounceMs / 1000, None, None, None, None)]
    {
      hide Good;
      var taken := set i | i in candidates && Active(candidates[i]) && candidates[i].path == path;
      if taken != {} {
        var i :| i in taken;
        return None;
      }
      assert forall i :: i in candidates && Active(candidates[i]) && candidates[i].path == path ==> i in taken;
      NewRowKeepsGood(Me(), View(), server.View(), nextId,
                      Candidate(path, priority, if debounceMs > 0 then Debouncing else Observed,
                                0, now + debounceMs / 1000, None, None, None, None));
      candidates := candidates[nextId := Candidate(path, priority, if debounceMs > 0 then Debouncing else Observed,
                                                   0, now + debounceMs / 1000, None, None, None, None)];
      id := Some(nextId);
      nextId := nextId + 1;
    }

    /** The due candidate that comes first by priority and age. */
    method FirstDue(now: int) returns (id: Option<CandidateId>)
      ensures id.None? <==> forall i :: !Due(candidates, i, now)
      ensures id.Some? ==> Due(candidates, id.value, now) && forall i :: Due(candidates, i, now) ==> Ahead(candidates, id.value, i)
    {
      var todo := candidates.Keys;
      id := None;
      while todo != {}
        invariant todo <= candidates.Keys
        invariant id.Some? ==> Due(candidates, id.value, now)
        invariant forall i :: Due(candidates, i, now) && i !in todo ==> id.Some? && Ahead(candidates, id.value, i)
        decreases |todo|
      {
        var i :| i in todo;
        todo := todo - {i};
        var c := candidates[i];
        if Active(c) && c.nextRetryAt <= now {
          if id.None? || c.priority < candidates[id.value].priority || (c.priority == candidates[id.value].priority && i < id.value) {
            id := Some(i);
          }
        }
      }
    }

    /** Picks the first due candidate, and pushes its retry time ahead so that it is not picked
        twice. */
    method LeaseNextDue(leaseSecs: nat, now: int) returns (id: Option<CandidateId>)
      requires Valid()
      modifies this`candidates
      ensures Valid()
      ensures id.None? ==> candidates == old(candidates) && forall i :: !Due(candidates, i, now)
      ensures id.Some? ==>
                && Due(old(candidates), id.value, now)
                && (forall i :: Due(old(candidates), i, now) ==>
                      || old(candidates)[id.value].priority < old(candidates)[i].priority
                      || (old(candidates)[id.value].priority == old(candidates)[i].priority && id.value <= i))
                && candidates == old(candidates)[id.value := old(candidates)[id.value].(nextRetryAt := now + leaseSecs)]
    {
      hide Valid, Good, OnServer;
      id := FirstDue(now);
      if id.Some? {
        RowHolds(id.value);
        var _, _ := Persist(id.value, candidates[id.value].(nextRetryAt := now + leaseSecs), None);
      }
    }

    /** One UPDATE of one row, or a crash before it. */
    method Persist(id: CandidateId, c: Candidate, fuel0: Option<nat>) returns (ok: bool, fuel: Option<nat>)
      requires Valid() && id in candidates && RowOk(Me(), spool, server.View(), c)
      requires c.path == candidates[id].path && (Active(c) ==> Active(candidates[id]))
      requires c.spoolPath == candidates[id].spoolPath
               || (c.spoolPath.Some? && forall j :: j in candidates ==> candidates[j].spoolPath != c.spoolPath)
      modifies this`candidates
      ensures Valid()
      ensures candidates == if ok then old(candidates)[id := c] else old(candidates)
      ensures ok <==> fuel0 != Some(0)
      ensures fuel == if fuel0.None? || fuel0 == Some(0) then fuel0 else Some(fuel0.value - 1)
    {
      if fuel0 == Some(0) { return false, fuel0; }
      RowStepKeepsGood(Me(), View(), server.View(), id, c);
      candidates := candidates[id := c];
      return true, if fuel0.None? then None else Some(fuel0.value - 1);
    }

    method Transition(id: CandidateId, to: CaptureState, fuel0: Option<nat>) returns (ok: bool, fuel: Option<nat>)
      requires Valid() && id in candidates && Active(candidates[id])
      requires RowOk(Me(), spool, server.View(), candidates[id].(state := to))
      modifies this`candidates
      ensures Valid()
      ensures candidates == if ok then old(candidates)[id := old(candidates)[id].(state := to)] else old(candidates)
      ensures ok <==> fuel0 != Some(0)
      ensures fuel == if fuel0.None? || fuel0 == Some(0) then fuel0 else Some(fuel0.value - 1)
    {
      ok, fuel := Persist(id, candidates[id].(state := to), fuel0);
    }

    method SetRetry(id: CandidateId, at: int, fuel0: Option<nat>) returns (ok: bool, fuel: Option<nat>)
      requires Valid() && id in candidates
      modifies this`candidates
      ensures Valid()
      ensures candidates ==
                if ok then old(candidates)[id := old(candidates)[id].(attempts := old(candidates)[id].attempts + 1, nextRetryAt := at)]
                else old(candidates)
      ensures ok <==> fuel0 != Some(0)
      ensures fuel0.None? ==> fuel.None?
    {
      ok, fuel := Persist(id, candidates[id].(attempts := candidates[id].attempts + 1, nextRetryAt := at), fuel0);
    }

    /** Back-pressure: later, and without burning an attempt. */
    method Defer(id: CandidateId, at: int, fuel0: Option<nat>) returns (ok: bool, fuel: Option<nat>)
      requires Valid() && id in candidates
      modifies this`candidates
      ensures Valid()
      ensures candidates == if ok then old(candidates)[id := old(candidates)[id].(nextRetryAt := at)] else old(candidates)
      ensures ok <==> fuel0 != Some(0)
      ensures fuel0.None? ==> fuel.None?
    {
      ok, fuel := Persist(id, candidates[id].(nextRetryAt := at), fuel0);
    }

    /** `record_gap` and then `finish_gap`. */
    method CloseWithGap(id: CandidateId, why: Outcome, sha: Option<Ingest.Digest>, fuel0: Option<nat>) returns (ok: bool, fuel: Option<nat>)
      requires Valid() && id in candidates && Active(candidates[id])
      modifies this`candidates, this`gaps
      ensures Valid()
      ensures old(gaps) <= gaps
      // the gap row is there before the candidate is closed
      ensures candidates == old(candidates) || gaps == old(gaps) + [Gap(old(candidates)[id].path, why, sha)]
      ensures candidates == old(candidates) || candidates == old(candidates)[id := Closed(old(candidates)[id], why)]
      ensures ok ==> candidates == old(candidates)[id := Closed(old(candidates)[id], why)]
      ensures ok ==> gaps == old(gaps) + [Gap(old(candidates)[id].path, why, sha)]
      ensures fuel0.None? ==> ok && fuel.None?
    {
      RowCloses(id, why);
      hide Valid, Good, OnServer, InSpool, RowOk, View, Me;
      if fuel0 == Some(0) { return false, fuel0; }
      fuel := if fuel0.None? then None else Some(fuel0.value - 1);
      gaps := gaps + [Gap(candidates[id].path, why, sha)];
      ok, fuel := Persist(id, Closed(candidates[id], why), fuel);
    }

    /** The next occurrence sequence number of this boot. */
    method NextSequence(fuel0: Option<nat>) returns (ok: bool, fuel: Option<nat>, seqno: nat)
      requires Valid()
      modifies this`sequence
      ensures Valid()
      ensures ok ==> sequence == old(sequence) + 1 && seqno == sequence && (boot, seqno) !in requests
      ensures ok ==> Ingest.OccurrenceKey(tenant, agent, boot, seqno) !in server.occurrences
      ensures !ok ==> sequence == old(sequence)
      ensures ok <==> fuel0 != Some(0)
      ensures fuel0.None? ==> fuel.None?
    {
      if fuel0 == Some(0) { return false, fuel0, 0; }
      fuel := if fuel0.None? then None else Some(fuel0.value - 1);
      NextPairIsNew(Me(), View(), server.View());
      sequence := sequence + 1;
      return true, fuel, sequence;
    }

    /** Start-up: a changed boot id restarts the sequence. Boot ids are unique. */
    method RefreshBootIdentity(current: Ingest.BootId) returns (changed: bool)
      requires Valid()
      requires current == boot || current !in boots
      modifies this`boot, this`sequence, this`boots
      ensures boots == old(boots) + {current}
      ensures Valid() && boot == current && (changed <==> current != old(boot))
      ensures sequence == if changed then 0 else old(sequence)
    {
      if boot == current { return false; }
      boot, boots := current, boots + {current};
      sequence := 0;
      return true;
    }

    // -------------------------------------------------------------- the pipeline

    method RemoveSpoolFile(id: CandidateId)
      requires Valid() && id in candidates && candidates[id].state.Complete?
      modifies this`spool
      ensures Valid()
      ensures spool == if candidates[id].spoolPath.Some? then old(spool) - {candidates[id].spoolPath.value} else old(spool)
    {
      if candidates[id].spoolPath.Some? {
        DroppedSpoolFileKeepsGood(Me(), View(), server.View(), id);
        spool := spool - {candidates[id].spoolPath.value};
      }
    }

    method RetryOrFail(id: CandidateId, now: int, fuel: Option<nat>) returns (end: RunEnd)
      requires Valid() && id in candidates && Active(candidates[id])
      modifies this`candidates, this`gaps
      ensures Valid() && OnlyRow(old(candidates), candidates, id)
      ensures FileGoes(old(spool), spool, old(candidates)[id], candidates[id], end.Finished?)
      ensures fuel.None? ==> end == Finished
      ensures end.Finished? ==>
                if old(candidates)[id].attempts >= maxAttempts then
                  && candidates[id] == Closed(old(candidates)[id], UploadFailed)
                  && gaps == old(gaps) + [Gap(old(candidates)[id].path, UploadFailed, old(candidates)[id].sha)]
                else candidates[id] == Retried(old(candidates)[id], now) && gaps == old(gaps)
      ensures end.Finished? ==> Decided(old(candidates)[id].attempts, candidates[id], now, maxAttempts)
    {
      var c := candidates[id];
      RetryDecides(c, now, maxAttempts);
      RowUpdated(candidates, id, Closed(c, UploadFailed));
      RowUpdated(candidates, id, Retried(c, now));
      hide *;
      var ok, left;
      if c.attempts >= maxAttempts {
        ok, left := CloseWithGap(id, UploadFailed, c.sha, fuel);
      } else {
        ok, left := SetRetry(id, now + BackoffSecs(c.attempts), fuel);
      }
      end := if ok then Finished else Crashed;
      FileStays(spool, c, candidates[id], ok);
    }

    lemma FileHolds(id: CandidateId)
      requires Valid() && id in candidates
      ensures FileOk(spool, candidates[id])
    {
    }

    /** Before HASHED no state promises anything. */
    lemma RowMayMove(id: CandidateId, to: CaptureState)
      requires Valid() && id in candidates && BeforeHashed(candidates[id].state) && BeforeHashed(to)
      ensures RowOk(Me(), spool, server.View(), candidates[id].(state := to))
      ensures OnlyRow(candidates, candidates, id) && OnlyRow(candidates, candidates[id := candidates[id].(state := to)], id)
    {
      FileHolds(id);
      hide Valid;
    }

    lemma RowCloses(id: CandidateId, why: Outcome)
      requires Valid() && id in candidates && Active(candidates[id])
      ensures RowOk(Me(), spool, server.View(), Closed(candidates[id], why))
    {
      RowHolds(id);
      hide Valid, OnServer, InSpool;
    }

    lemma RowCompletes(id: CandidateId)
      requires Valid() && id in candidates && Acknowledged(candidates[id].state) && Active(candidates[id])
      ensures RowOk(Me(), spool, server.View(), candidates[id].(state := Complete))
    {
      RowHolds(id);
      hide Valid, OnServer, InSpool;
    }

    lemma RowHolds(id: CandidateId)
      requires Valid() && id in candidates
      ensures RowOk(Me(), spool, server.View(), candidates[id])
    {
    }

    /** The copy of the file in the spool. */
    method WriteSpool(p: SpoolPath, bytes: Ingest.Bytes)
      requires Valid() && UnusedSpoolPath(p)
      modifies this`spool
      ensures Valid() && spool == old(spool)[p := bytes]
    {
      NewSpoolFileKeepsGood(Me(), View(), server.View(), p, bytes);
      spool := spool[p := bytes];
    }

    /** To COPYING_AND_HASHING, from any state before it. */
    method BeginRead(id: CandidateId, fuel0: Option<nat>) returns (ok: bool, fuel: Option<nat>)
      requires Valid() && id in candidates && BeforeHashed(candidates[id].state)
      modifies this`candidates
      ensures Valid() && id in candidates && BeforeHashed(candidates[id].state)
      ensures OnlyRow(old(candidates), candidates, id) && candidates[id] == old(candidates)[id].(state := candidates[id].state)
      ensures ok ==> candidates[id].state == CopyingAndHashing
      ensures ok <==> fuel0.None? || fuel0.value >= StepsToRead(old(candidates)[id].state)
      ensures ok ==> fuel == if fuel0.None? then None else Some(fuel0.value - StepsToRead(old(candidates)[id].state))
    {
      hide Valid, Good, OnServer, RowOk, InSpool, View, Me, OnlyRow;
      ok, fuel := true, fuel0;
      RowMayMove(id, Opening);
      if candidates[id].state.Debouncing? || candidates[id].state.Observed? {
        ok, fuel := Transition(id, Opening, fuel);
        if !ok { return; }
      }
      ghost var rows := candidates;
      RowMayMove(id, CopyingAndHashing);
      ok, fuel := Transition(id, CopyingAndHashing, fuel);
      RowTwice(old(candidates), rows, candidates, id);
    }

    /** What the end of the stable read does to the row; `None` means go on. */
    method TakeRead(id: CandidateId, env: Env, fuel0: Option<nat>) returns (stop: Option<RunEnd>, fuel: Option<nat>)
      requires Valid() && id in candidates && BeforeHashed(candidates[id].state)
      requires UnusedSpoolPath(env.spoolPath)
      modifies this`candidates, this`spool, this`gaps
      ensures Valid() && OnlyRow(old(candidates), candidates, id)
      ensures stop.None? ==>
                && env.read.ReadOk? && spool == old(spool)[env.spoolPath := env.read.bytes]
                && candidates[id] == old(candidates)[id].(state := Hashed, sha := Some(server.sha256(env.read.bytes)),
                                                          size := Some(|env.read.bytes|), spoolPath := Some(env.spoolPath))
      ensures stop.Some? ==> BeforeHashed(candidates[id].state) || candidates[id].state.GapRecorded?
      ensures spool == if env.read.ReadOk? && fuel0 != Some(0) then old(spool)[env.spoolPath := env.read.bytes] else old(spool)
      ensures candidates[id].spoolPath == if env.read.ReadOk? && fuel0 != Some(0) && fuel0 != Some(1) then Some(env.spoolPath)
                                          else old(candidates)[id].spoolPath
      // spool pressure neither burns an attempt nor ends the candidate
      ensures env.read.SpoolFull? ==> candidates[id] == old(candidates)[id].(nextRetryAt := candidates[id].nextRetryAt)
      ensures env.read.ReadOk? && (fuel0 == Some(0) || fuel0 == Some(1)) ==> stop == Some(Crashed)
      ensures stop == Some(Finished) && env.read.SpoolFull? ==> candidates[id].nextRetryAt == env.now + 30
      ensures stop == Some(Finished) && env.read.ReadGap? ==>
                && candidates[id] == Closed(old(candidates)[id], env.read.outcome)
                && gaps == old(gaps) + [Gap(old(candidates)[id].path, env.read.outcome, None)]
      ensures stop == Some(Finished) && env.read.ReadIo? && old(candidates)[id].attempts >= maxAttempts ==>
                && candidates[id] == Closed(old(candidates)[id], UploadFailed)
                && gaps == old(gaps) + [Gap(old(candidates)[id].path, UploadFailed, None)]
      ensures stop == Some(Finished) && env.read.ReadIo? && old(candidates)[id].attempts < maxAttempts ==>
                candidates[id] == Retried(old(candidates)[id], env.now)
      ensures stop == Some(Finished) ==> Decided(old(candidates)[id].attempts, candidates[id], env.now, maxAttempts)
      ensures fuel0.None? ==> fuel.None? && (stop.None? <==> env.read.ReadOk?) && (stop.Some? ==> stop.value == Finished)
    {
      hide Valid, Good, OnServer;
      var ok;
      match env.read
      case ReadOk(bytes) =>
        if fuel0 == Some(0) { return Some(Crashed), fuel0; }
        fuel := if fuel0.None? then None else Some(fuel0.value - 1);
        WriteSpool(env.spoolPath, bytes);
        ok, fuel := Persist(id, candidates[id].(state := Hashed, sha := Some(server.sha256(bytes)), size := Some(|bytes|),
                                                spoolPath := Some(env.spoolPath)), fuel);
        stop := if ok then None else Some(Crashed);
      case SpoolFull =>
        ok, fuel := Defer(id, env.now + 30, fuel0);
        stop := Some(if ok then Finished else Crashed);
      case ReadIo =>
        if candidates[id].attempts >= maxAttempts {
          ok, fuel := CloseWithGap(id, UploadFailed, None, fuel0);
        } else {
          ok, fuel := SetRetry(id, env.now + BackoffSecs(candidates[id].attempts), fuel0);
        }
        stop := Some(if ok then Finished else Crashed);
      case ReadGap(why) =>
        ok, fuel := CloseWithGap(id, why, None, fuel0);
        stop := Some(if ok then Finished else Crashed);
    }

    /** From the queue to HASHED by the stable reader; `None` means go on. */
    method ReadPhase(id: CandidateId, env: Env, fuel0: Option<nat>) returns (stop: Option<RunEnd>, fuel: Option<nat>)
      requires Valid() && id in candidates && BeforeHashed(candidates[id].state)
      requires UnusedSpoolPath(env.spoolPath)
      modifies this`candidates, this`spool, this`gaps
      ensures Valid() && OnlyRow(old(candidates), candidates, id)
      ensures stop.None? ==> candidates[id].state == Hashed && env.read.ReadOk?
      ensures env.read.SpoolFull? ==> candidates[id].attempts == old(candidates)[id].attempts && Active(candidates[id])
      ensures stop.None? ==> candidates[id].attempts == old(candidates)[id].attempts
      ensures stop.Some? ==> !candidates[id].state.Complete?
      ensures CutBeforeHashedRow(old(candidates)[id].state, env, fuel0) ==> stop == Some(Crashed)
      ensures ReadFiles(old(spool), spool, old(candidates)[id], candidates[id], env, fuel0)
      ensures stop == Some(Finished) ==> Decided(old(candidates)[id].attempts, candidates[id], env.now, maxAttempts)
      ensures fuel0.None? ==> fuel.None? && (stop.None? <==> env.read.ReadOk?) && (stop.Some? ==> stop.value == Finished)
    {
      hide Valid, Good, OnServer, RowOk, View, Me, BackoffSecs, Decided, Closed, Retried;
      hide ReadFiles, Writes, CutBeforeHashedRow, StepsToRead;
      var ok;
      ok, fuel := BeginRead(id, fuel0);
      if !ok {
        CutBeforeRead(spool, old(candidates)[id], candidates[id], env, fuel0);
        return Some(Crashed), fuel;
      }
      ghost var left, rows := fuel, candidates;
      stop, fuel := TakeRead(id, env, fuel);
      RowTwice(old(candidates), rows, candidates, id);
      ReadTaken(old(spool), spool, old(candidates)[id], candidates[id], env, fuel0, left);
    }

    lemma RowSettles(id: CandidateId)
      requires Valid() && id in candidates && Active(candidates[id])
      requires candidates[id].sha.Some? && OnServer(Me(), server.View(), candidates[id].sha.value)
      ensures RowOk(Me(), spool, server.View(), candidates[id].(state := OccurrenceQueued))
    {
      RowHolds(id);
      hide Valid, OnServer, InSpool;
    }

    /** The last two transitions and the removal of the spool file. */
    method Settle(id: CandidateId, fuel0: Option<nat>) returns (end: RunEnd)
      requires Valid() && id in candidates && Active(candidates[id])
      requires candidates[id].sha.Some? && OnServer(Me(), server.View(), candidates[id].sha.value)
      modifies this`candidates, this`spool
      ensures Valid() && OnlyRow(old(candidates), candidates, id)
      ensures FileGoes(old(spool), spool, old(candidates)[id], candidates[id], end.Finished?)
      ensures end.Finished? ==> candidates[id] == old(candidates)[id].(state := Complete)
      ensures fuel0.None? ==> end == Finished
    {
      RowSettles(id);
      RowUpdated(candidates, id, candidates[id].(state := OccurrenceQueued));
      hide Valid, Good, OnServer, RowOk, View, Me, FileGoes, OnlyRow;
      var ok, fuel := Transition(id, OccurrenceQueued, fuel0);
      if !ok {
        FileStays(spool, old(candidates)[id], candidates[id], false);
        return Crashed;
      }
      ghost var queued := candidates;
      end := Finish(id, fuel);
      RowTwice(old(candidates), queued, candidates, id);
      FileStillGoes(old(spool), spool, old(candidates)[id], queued[id], candidates[id], end.Finished?);
    }

    ghost predicate OpenForUs(u: Ingest.UploadId)
      reads server
    {
      u in server.sessions && server.sessions[u].state.Open? && server.sessions[u].tenant == tenant
    }

    /** The session is open and holds the bytes of the candidate's spool file. */
    ghost predicate StagedForUs(u: Ingest.UploadId, id: CandidateId)
      reads this`candidates, this`spool, server
    {
      && OpenForUs(u) && u in server.staging && id in candidates
      && candidates[id].spoolPath.Some? && candidates[id].spoolPath.value in spool
      && server.staging[u] == spool[candidates[id].spoolPath.value]
    }

    /** Sends an announce; `None` when no answer arrives. */
    method SendAnnounce(id: CandidateId, env: Env, seqno: nat) returns (answer: Option<Ingest.Announced>)
      requires Valid() && id in candidates && InUploadPhase(candidates[id].state)
      requires env.sessionId !in server.sessions
      requires seqno == sequence && (boot, seqno) !in requests
      requires Ingest.OccurrenceKey(tenant, agent, boot, seqno) !in server.occurrences
      modifies this`requests, server
      ensures Valid() && requests == old(requests) + [(boot, seqno)]
      ensures server.staging == old(server.staging)
      ensures answer.Some? && answer.value.Present? ==> OnServer(Me(), server.View(), candidates[id].sha.value)
      ensures answer.Some? && answer.value.UploadRequired? ==>
                answer.value.upload == env.sessionId && OpenForUs(env.sessionId)
      ensures Undisturbed(env) ==> answer.Some?
    {
      hide Valid, Good, OnServer, OpenForUs;
      MarkSent(seqno);
      if env.announceFate.RequestLost? { return None; }
      answer := CallAnnounce(id, env, seqno);
      if env.announceFate.ReplyLost? { return None; }
    }

    /** A request with this pair leaves. */
    ghost method MarkSent(seqno: nat)
      requires Valid() && seqno == sequence && (boot, seqno) !in requests
      modifies this`requests
      ensures Valid() && requests == old(requests) + [(boot, seqno)]
    {
      SentPairKeepsGood(Me(), View(), server.View(), seqno);
      hide Good;
      requests := requests + [(boot, seqno)];
    }

    method CallAnnounce(id: CandidateId, env: Env, seqno: nat) returns (answer: Option<Ingest.Announced>)
      requires Valid() && id in candidates && InUploadPhase(candidates[id].state)
      requires env.sessionId !in server.sessions
      requires (boot, seqno) in requests && Ingest.OccurrenceKey(tenant, agent, boot, seqno) !in server.occurrences
      modifies server
      ensures Valid() && server.staging == old(server.staging)
      ensures answer.Some? && answer.value.Present? ==> OnServer(Me(), server.View(), candidates[id].sha.value)
      ensures answer.Some? && answer.value.UploadRequired? ==>
                answer.value.upload == env.sessionId && OpenForUs(env.sessionId)
      ensures env.announceFuel.None? ==> answer.Some?
    {
      RowHolds(id);
      var c := candidates[id];
      var occ := Ingest.Occurrence(agent, boot, seqno);
      ghost var before := server.View();
      assert Good(Me(), View(), before) && PairsFresh(Me(), View(), before) && server.Valid();
      hide Good, PairsFresh, Ingest.Sound, Ingest.Extends, Ingest.OccurrencesFrom, Ingest.AnnounceSpec;
      var r := server.Announce(tenant, Ingest.AnnounceRequest(c.sha, c.size.value, Some(occ)), env.sessionId, env.announceFuel);
      MyRowsAreSent(before, server.View(), occ);
      ServerStepKeepsGood(Me(), View(), before, server.View());
      if r.Ok? && r.value.Present? {
        AnsweredIsOnServer(server.View(), occ, c.sha.value);
      }
      answer := if r.Ok? then Some(r.value) else None;
    }

    lemma AnsweredIsOnServer(srv: Ingest.State, occ: Ingest.Occurrence, d: Ingest.Digest)
      requires Ingest.ObjectKey(tenant, d) in srv.artifacts && occ.agent == agent
      requires Ingest.KeyFor(tenant, occ) in srv.occurrences && srv.occurrences[Ingest.KeyFor(tenant, occ)] == d
      ensures OnServer(Me(), srv, d)
    {
      assert MyOccurrence(Me(), Ingest.KeyFor(tenant, occ));
    }

    /** After a call that carried `occ`, the server still knows us only under pairs we sent. */
    lemma MyRowsAreSent(srv: Ingest.State, srv': Ingest.State, occ: Ingest.Occurrence)
      requires PairsFresh(Me(), View(), srv) && (occ.boot, occ.sequence) in requests
      requires Ingest.OccurrencesFrom(srv, srv', tenant, Some(occ))
      ensures forall o :: o in srv'.occurrences && MyOccurrence(Me(), o) ==> (o.boot, o.sequence) in requests
    {
    }

    /** What the answer to an announce does to the row; `None` means the bytes are wanted. */
    method TakeAnswer(id: CandidateId, answer: Ingest.Announced, fuel0: Option<nat>) returns (stop: Option<RunEnd>, fuel: Option<nat>)
      requires Valid() && id in candidates && InUploadPhase(candidates[id].state) && candidates[id].sha.Some?
      requires answer.Present? ==> OnServer(Me(), server.View(), candidates[id].sha.value)
      modifies this`candidates, this`spool
      ensures Valid() && OnlyRow(old(candidates), candidates, id)
      ensures FileGoes(old(spool), spool, old(candidates)[id], candidates[id], stop == Some(Finished))
      ensures stop.None? ==> answer.UploadRequired? && candidates[id] == old(candidates)[id].(state := Uploading) && spool == old(spool)
      ensures stop == Some(Finished) ==> candidates[id] == old(candidates)[id].(state := Complete)
      ensures fuel0.None? ==> fuel.None? && stop == (if answer.Present? then Some(Finished) else None)
    {
      hide Valid, Good, OnServer;
      RowHolds(id);
      var ok;
      ok, fuel := Transition(id, Announced, fuel0);
      if !ok { return Some(Crashed), fuel; }
      if answer.Present? {
        ok, fuel := Transition(id, DedupHit, fuel);
        if !ok { return Some(Crashed), fuel; }
        var end := Settle(id, fuel);
        return Some(end), fuel;
      }
      ok, fuel := Transition(id, UploadRequired, fuel);
      if !ok { return Some(Crashed), fuel; }
      ok, fuel := Transition(id, Uploading, fuel);
      stop := if ok then None else Some(Crashed);
    }

    /** HASHED, or any later upload state after a crash, to UPLOADING. */
    method AnnouncePhase(id: CandidateId, env: Env, fuel0: Option<nat>) returns (stop: Option<RunEnd>, fuel: Option<nat>)
      requires Valid() && id in candidates && InUploadPhase(candidates[id].state)
      requires env.sessionId !in server.sessions
      modifies this`candidates, this`spool, this`gaps, this`sequence, this`requests, server
      ensures Valid() && OnlyRow(old(candidates), candidates, id) && old(requests) <= requests
      ensures FileGoes(old(spool), spool, old(candidates)[id], candidates[id], stop == Some(Finished))
      ensures stop.None? ==>
                && candidates[id] == old(candidates)[id].(state := Uploading)
                && spool == old(spool)
                && OpenForUs(env.sessionId)
      ensures fuel0.None? ==> fuel.None? && (stop.Some? ==> stop.value == Finished)
      ensures (fuel0.None? && Undisturbed(env) && stop.Some?) ==> candidates[id].state == Complete
      ensures stop == Some(Finished) ==> Decided(old(candidates)[id].attempts, candidates[id], env.now, maxAttempts)
    {
      RowHolds(id);
      hide Valid, Good, OnServer, OpenForUs, StagedForUs, RowOk, InSpool, View, Me, BackoffSecs, Decided, Undisturbed;
      var ok, seqno;
      ok, fuel, seqno := NextSequence(fuel0);
      if !ok { return Some(Crashed), fuel; }
      var answer := SendAnnounce(id, env, seqno);
      stop, fuel := AfterAnnounce(id, env.now, answer, fuel);
    }

    method AfterAnnounce(id: CandidateId, now: int, answer: Option<Ingest.Announced>, fuel0: Option<nat>)
      returns (stop: Option<RunEnd>, fuel: Option<nat>)
      requires Valid() && id in candidates && InUploadPhase(candidates[id].state) && candidates[id].sha.Some?
      requires answer.Some? && answer.value.Present? ==> OnServer(Me(), server.View(), candidates[id].sha.value)
      modifies this`candidates, this`spool, this`gaps
      ensures Valid() && OnlyRow(old(candidates), candidates, id)
      ensures FileGoes(old(spool), spool, old(candidates)[id], candidates[id], stop == Some(Finished))
      ensures stop.None? ==>
                && answer.Some? && answer.value.UploadRequired?
                && candidates[id] == old(candidates)[id].(state := Uploading) && spool == old(spool)
      ensures fuel0.None? ==> fuel.None? && (stop.Some? ==> stop.value == Finished)
      ensures (fuel0.None? && answer.Some? && stop.Some?) ==> candidates[id].state == Complete
      ensures stop == Some(Finished) ==> Decided(old(candidates)[id].attempts, candidates[id], now, maxAttempts)
    {
      hide Valid, Good, OnServer, RowOk;
      if answer.None? {
        var end := RetryOrFail(id, now, fuel0);
        return Some(end), if fuel0.None? then None else Some(0);
      }
      stop, fuel := TakeAnswer(id, answer.value, fuel0);
    }

    /** Sends the finalize request; false when no good answer arrives. */
    method SendFinalize(id: CandidateId, env: Env, seqno: nat) returns (ok: bool)
      requires Valid() && id in candidates && InUploadPhase(candidates[id].state)
      requires seqno == sequence && (boot, seqno) !in requests
      requires Ingest.OccurrenceKey(tenant, agent, boot, seqno) !in server.occurrences
      modifies this`requests, server
      ensures Valid() && requests == old(requests) + [(boot, seqno)]
      ensures ok ==> OnServer(Me(), server.View(), candidates[id].sha.value)
      ensures (Undisturbed(env) && old(StagedForUs(env.sessionId, id))) ==> ok
    {
      hide Good, OnServer;
      MarkSent(seqno);
      OtherCallers(env.beforeFinalize);
      if env.finalizeFate.RequestLost? { return false; }
      var done := CallFinalize(id, env, seqno);
      return done && !env.finalizeFate.ReplyLost?;
    }

    method CallFinalize(id: CandidateId, env: Env, seqno: nat) returns (ok: bool)
      requires Valid() && id in candidates && InUploadPhase(candidates[id].state)
      requires (boot, seqno) in requests && Ingest.OccurrenceKey(tenant, agent, boot, seqno) !in server.occurrences
      modifies server
      ensures Valid()
      ensures ok ==> OnServer(Me(), server.View(), candidates[id].sha.value)
      ensures (Undisturbed(env) && old(StagedForUs(env.sessionId, id))) ==> ok
    {
      RowHolds(id);
      var c := candidates[id];
      var occ := Ingest.Occurrence(agent, boot, seqno);
      var req := Ingest.FinalizeRequest(env.sessionId, c.sha, c.size.value, Some(occ), None);
      ghost var before := server.View();
      var r := server.Finalize(tenant, req, env.artifactId, env.scanFails, env.finalizeFuel);
      hide Ingest.FinalizeSpec;
      MyRowsAreSent(before, server.View(), occ);
      ServerStepKeepsGood(Me(), View(), before, server.View());
      if r.Ok? { AnsweredIsOnServer(server.View(), occ, c.sha.value); }
      return r.Ok?;
    }

    /** Sends the bytes of the spool file; false when no good answer arrives. */
    method SendUpload(id: CandidateId, env: Env) returns (ok: bool)
      requires Valid() && id in candidates && InUploadPhase(candidates[id].state)
      modifies server
      ensures Valid()
      ensures (Undisturbed(env) && old(OpenForUs(env.sessionId))) ==> ok && StagedForUs(env.sessionId, id)
    {
      RowHolds(id);
      var bytes := spool[candidates[id].spoolPath.value];
      OtherCallers(env.beforeUpload);
      if env.uploadFate.RequestLost? { return false; }
      ghost var before := server.View();
      var r := server.StageUpload(tenant, env.sessionId, bytes);
      ServerStepKeepsGood(Me(), View(), before, server.View());
      return r.Ok? && env.uploadFate.Delivered?;
    }

    /** UPLOADING to the end of the run. */
    method UploadPhase(id: CandidateId, env: Env, fuel0: Option<nat>) returns (end: RunEnd)
      requires Valid() && id in candidates && candidates[id].state == Uploading
      modifies this`candidates, this`spool, this`gaps, this`sequence, this`requests, server
      ensures Valid() && OnlyRow(old(candidates), candidates, id) && old(requests) <= requests
      ensures FileGoes(old(spool), spool, old(candidates)[id], candidates[id], end.Finished?)
      ensures fuel0.None? ==> end == Finished
      ensures (fuel0.None? && Undisturbed(env) && old(OpenForUs(env.sessionId))) ==> candidates[id].state == Complete
      ensures end.Finished? ==> Decided(old(candidates)[id].attempts, candidates[id], env.now, maxAttempts)
    {
      RowHolds(id);
      hide Valid, Good, OnServer, OpenForUs, StagedForUs, RowOk, InSpool, View, Me, BackoffSecs, Decided, Undisturbed;
      var uploaded := SendUpload(id, env);
      if uploaded {
        end := AfterUpload(id, env, fuel0);
      } else {
        end := RetryOrFail(id, env.now, fuel0);
      }
    }

    method AfterUpload(id: CandidateId, env: Env, fuel0: Option<nat>) returns (end: RunEnd)
      requires Valid() && id in candidates && candidates[id].state == Uploading
      modifies this`candidates, this`spool, this`gaps, this`sequence, this`requests, server
      ensures Valid() && OnlyRow(old(candidates), candidates, id) && old(requests) <= requests
      ensures FileGoes(old(spool), spool, old(candidates)[id], candidates[id], end.Finished?)
      ensures fuel0.None? ==> end == Finished
      ensures (fuel0.None? && Undisturbed(env) && old(StagedForUs(env.sessionId, id))) ==> candidates[id].state == Complete
      ensures end.Finished? ==> Decided(old(candidates)[id].attempts, candidates[id], env.now, maxAttempts)
    {
      hide Valid, Good, OnServer, BackoffSecs, Decided, Undisturbed;
      RowHolds(id);
      var ok, fuel := Transition(id, Finalizing, fuel0);
      if !ok { return Crashed; }
      end := FinalizePhase(id, env, fuel);
    }

    /** FINALIZING to the end of the run. */
    method FinalizePhase(id: CandidateId, env: Env, fuel0: Option<nat>) returns (end: RunEnd)
      requires Valid() && id in candidates && candidates[id].state == Finalizing
      modifies this`candidates, this`spool, this`gaps, this`sequence, this`requests, server
      ensures Valid() && OnlyRow(old(candidates), candidates, id) && old(requests) <= requests
      ensures FileGoes(old(spool), spool, old(candidates)[id], candidates[id], end.Finished?)
      ensures fuel0.None? ==> end == Finished
      ensures (fuel0.None? && Undisturbed(env) && old(StagedForUs(env.sessionId, id))) ==> candidates[id].state == Complete
      ensures end.Finished? ==> Decided(old(candidates)[id].attempts, candidates[id], env.now, maxAttempts)
    {
      RowHolds(id);
      hide Valid, Good, OnServer, OpenForUs, StagedForUs, RowOk, InSpool, View, Me, BackoffSecs, Decided, Undisturbed;
      var ok, fuel, seqno := NextSequence(fuel0);
      if !ok { return Crashed; }
      end := AskToFinalize(id, env, seqno, fuel);
    }

    method AskToFinalize(id: CandidateId, env: Env, seqno: nat, fuel: Option<nat>) returns (end: RunEnd)
      requires Valid() && id in candidates && candidates[id].state == Finalizing && candidates[id].sha.Some?
      requires seqno == sequence && (boot, seqno) !in requests
      requires Ingest.OccurrenceKey(tenant, agent, boot, seqno) !in server.occurrences
      modifies this`candidates, this`spool, this`gaps, this`requests, server
      ensures Valid() && OnlyRow(old(candidates), candidates, id) && old(requests) <= requests
      ensures FileGoes(old(spool), spool, old(candidates)[id], candidates[id], end.Finished?)
      ensures fuel.None? ==> end == Finished
      ensures (fuel.None? && Undisturbed(env) && old(StagedForUs(env.sessionId, id))) ==> candidates[id].state == Complete
      ensures end.Finished? ==> Decided(old(candidates)[id].attempts, candidates[id], env.now, maxAttempts)
    {
      hide Valid, Good, OnServer, OpenForUs, StagedForUs, RowOk, InSpool, View, Me, BackoffSecs, Undisturbed;
      var finalized := SendFinalize(id, env, seqno);
      if finalized {
        end := Settle(id, fuel);
      } else {
        end := RetryOrFail(id, env.now, fuel);
      }
    }

    /** One run over a leased candidate, from whatever state is persisted. Whatever is lost or
        crashes, the promises of module state hold afterwards; and when nothing is, the
        candidate is complete. */
    method ProcessCandidate(id: CandidateId, env: Env, fuel0: Option<nat>) returns (end: RunEnd)
      requires Valid() && id in candidates && Active(candidates[id])
      requires UnusedSpoolPath(env.spoolPath) && env.sessionId !in server.sessions
      modifies this`candidates, this`spool, this`gaps, this`sequence, this`requests, server
      ensures Valid() && OnlyRow(old(candidates), candidates, id) && old(requests) <= requests
      ensures fuel0.None? ==> end == Finished
      ensures (fuel0.None? && Undisturbed(env)) ==> candidates[id].state == Complete
      ensures end.Finished? ==> Decided(old(candidates)[id].attempts, candidates[id], env.now, maxAttempts)
      ensures RunFiles(old(spool), spool, old(candidates)[id], candidates[id], env, fuel0, end.Finished?)
    {
      FileHolds(id);
      hide Valid, Good, OnServer, OpenForUs, StagedForUs, RowOk, InSpool, FileOk, View, Me, BackoffSecs, Decided, Undisturbed;
      hide OnlyRow, FileGoes, ReadFiles, RunFiles, Writes, CutBeforeHashedRow, OwnFile, OpenForUs, Acknowledged, InUploadPhase, StepsToRead;
      var fuel := fuel0;
      if BeforeHashed(candidates[id].state) {
        var stop;
        stop, fuel := ReadPhase(id, env, fuel);
        if stop.Some? {
          ReadEnds(old(spool), spool, old(candidates)[id], candidates[id], env, fuel0, stop.value.Finished?);
          return stop.value;
        }
      } else {
        NothingRead(spool, candidates[id], env, fuel0);
        RowUpdated(candidates, id, candidates[id]);
      }
      ghost var read, rows := spool, candidates;
      end := Resume(id, env, fuel);
      RowTwice(old(candidates), rows, candidates, id);
      ReadAndGo(old(spool), read, spool, old(candidates)[id], rows[id], candidates[id], env, fuel0, end.Finished?);
    }

    /** From HASHED, or any later state after a crash, to the end of the run. */
    method Resume(id: CandidateId, env: Env, fuel0: Option<nat>) returns (end: RunEnd)
      requires Valid() && id in candidates && Active(candidates[id]) && !BeforeHashed(candidates[id].state)
      requires env.sessionId !in server.sessions
      modifies this`candidates, this`spool, this`gaps, this`sequence, this`requests, server
      ensures Valid() && OnlyRow(old(candidates), candidates, id) && old(requests) <= requests
      ensures FileGoes(old(spool), spool, old(candidates)[id], candidates[id], end.Finished?)
      ensures fuel0.None? ==> end == Finished
      ensures (fuel0.None? && Undisturbed(env)) ==> candidates[id].state == Complete
      ensures end.Finished? ==> Decided(old(candidates)[id].attempts, candidates[id], env.now, maxAttempts)
    {
      hide Valid, Good, OnServer, OpenForUs, StagedForUs, RowOk, InSpool, FileOk, View, Me, BackoffSecs, Undisturbed, FileGoes;
      if candidates[id].state.DedupHit? || candidates[id].state.OccurrenceQueued? {
        end := Finish(id, fuel0);
        return;
      }
      var stop, fuel := AnnouncePhase(id, env, fuel0);
      if stop.Some? { return stop.value; }
      ghost var rows := candidates;
      end := UploadPhase(id, env, fuel);
      RowTwice(old(candidates), rows, candidates, id);
      FileStillGoes(old(spool), spool, old(candidates)[id], rows[id], candidates[id], end.Finished?);
    }

    /** To COMPLETE, and then the spool file goes. */
    method Finish(id: CandidateId, fuel0: Option<nat>) returns (end: RunEnd)
      requires Valid() && id in candidates && Acknowledged(candidates[id].state) && Active(candidates[id])
      modifies this`candidates, this`spool
      ensures Valid() && OnlyRow(old(candidates), candidates, id)
      ensures FileGoes(old(spool), spool, old(candidates)[id], candidates[id], end.Finished?)
      ensures end.Finished? ==> candidates[id] == old(candidates)[id].(state := Complete)
      ensures fuel0.None? ==> end == Finished
    {
      RowCompletes(id);
      FileStays(spool, candidates[id], candidates[id], false);
      FileStays(spool, candidates[id], candidates[id].(state := Complete), false);
      RowUpdated(candidates, id, candidates[id].(state := Complete));
      hide *;
      var ok, fuel := Transition(id, Complete, fuel0);
      if !ok { return Crashed; }
      if fuel == Some(0) { return Crashed; }
      RemoveSpoolFile(id);
      FileGone(old(spool), spool, old(candidates)[id], candidates[id]);
      return Finished;
    }

    /** Calls of other clients, each cut wherever it is cut; calls in this agent's name and
        reused session ids are not let through. */
    method OtherCallers(calls: seq<Ingest.Call>)
      requires Valid()
      modifies server
      ensures Valid() && Ingest.Extends(old(server.View()), server.View())
      ensures forall o :: o in server.occurrences && o !in old(server.occurrences) ==> !MyOccurrence(Me(), o)
      ensures calls == [] ==> server.View() == old(server.View())
    {
      for k := 0 to |calls|
        invariant Valid() && Ingest.Extends(old(server.View()), server.View())
        invariant forall o :: o in server.occurrences && o !in old(server.occurrences) ==> !MyOccurrence(Me(), o)
        invariant calls == [] ==> server.View() == old(server.View())
      {
        ghost var before := server.View();
        OtherCall(calls[k]);
        Ingest.ExtendsTrans(old(server.View()), before, server.View());
      }
    }

    method OtherCall(call: Ingest.Call)
      requires Valid()
      modifies server
      ensures Valid() && Ingest.Extends(old(server.View()), server.View())
      ensures forall o :: o in server.occurrences && o !in old(server.occurrences) ==> !MyOccurrence(Me(), o)
    {
      ghost var before := server.View();
      match call
      case AnnounceCall(t, req, uuid, fuel) =>
        if !Mine(t, req.occurrence) && uuid !in server.sessions {
          var _ := server.Announce(t, req, uuid, fuel);
        }
      case StageCall(t, upload, bytes) =>
        var _ := server.StageUpload(t, upload, bytes);
      case FinalizeCall(t, req, uuid, fuel) =>
        if !Mine(t, req.occurrence) {
          var _ := server.Finalize(t, req, uuid, false, fuel);
        }
      ServerStepKeepsGood(Me(), View(), before, server.View());
    }

    /** The worker loop over any schedule of events. */
    method RunAgent(schedule: seq<Event>) returns (ghost cuts: seq<CutRun>)
      requires Valid() && BootsAreFresh(boot, boots, schedule)
      modifies this, server
      ensures Valid() && old(requests) <= requests
      // acknowledged candidates are on the server, with an occurrence of this agent
      ensures forall id :: id in candidates && candidates[id].state in {DedupHit, OccurrenceQueued, Complete} ==>
                && candidates[id].sha.Some? && Ingest.ObjectKey(tenant, candidates[id].sha.value) in server.artifacts
                && exists o :: o in server.occurrences && o.tenant == tenant && o.agent == agent && server.occurrences[o] == candidates[id].sha.value
      // bytes not yet acknowledged are still in the spool
      ensures forall id :: id in candidates && candidates[id].state in {Hashed, Announced, UploadRequired, Uploading, Finalizing} ==>
                && candidates[id].spoolPath.Some? && candidates[id].spoolPath.value in spool
                && candidates[id].sha == Some(server.sha256(spool[candidates[id].spoolPath.value]))
                && candidates[id].size == Some(|spool[candidates[id].spoolPath.value]|)
      // a spool file that neither an active candidate nor a gap names was left by a cut run, and
      // what such a run leaves stays; `cuts` are the runs that were cut
      ensures forall p :: p in Strays(View()) <==> p in old(Strays(View())) || LeftByOne(cuts, p)
      ensures forall k :: 0 <= k < |cuts| ==> IsCut(schedule, cuts[k])
      // no (boot, sequence) pair was sent twice
      ensures forall i, j :: 0 <= i < j < |requests| ==> requests[i] != requests[j]
    {
      hide OnServer, InSpool, LeftBy, Strays;
      var k := 0;
      cuts := [];
      while k < |schedule|
        invariant 0 <= k <= |schedule|
        invariant Valid() && old(requests) <= requests
        invariant BootsAreFresh(boot, boots, schedule[k..])
        invariant forall p :: p in Strays(View()) <==> p in old(Strays(View())) || LeftByOne(cuts, p)
        invariant forall k :: 0 <= k < |cuts| ==> IsCut(schedule, cuts[k])
      {
        assert schedule[k..][1..] == schedule[k + 1..];
        ghost var cut := Step(schedule[k]);
        forall p: SpoolPath ensures LeftByOne(cuts + cut, p) <==> LeftByOne(cuts, p) || (cut != [] && p in LeftBy(cut[0])) {
          LeftByOneMore(cuts, cut, p);
        }
        cuts := cuts + cut;
        k := k + 1;
      }
      forall id | id in candidates { PromisesInDetail(id); }
    }

    lemma PromisesInDetail(id: CandidateId)
      requires Valid() && id in candidates
      ensures var c := candidates[id];
              && (c.state in {DedupHit, OccurrenceQueued, Complete} ==>
                    && c.sha.Some? && Ingest.ObjectKey(tenant, c.sha.value) in server.artifacts
                    && exists o :: o in server.occurrences && o.tenant == tenant && o.agent == agent && server.occurrences[o] == c.sha.value)
              && (c.state in {Hashed, Announced, UploadRequired, Uploading, Finalizing} ==>
                    && c.spoolPath.Some? && c.spoolPath.value in spool
                    && c.sha == Some(server.sha256(spool[c.spoolPath.value])) && c.size == Some(|spool[c.spoolPath.value]|))
    {
      RowHolds(id);
      hide Valid;
      if candidates[id].state in {DedupHit, OccurrenceQueued, Complete} {
        assert Acknowledged(candidates[id].state);
        var o :| o in server.occurrences && MyOccurrence(Me(), o) && server.occurrences[o] == candidates[id].sha.value;
      }
    }

    ghost predicate LeftByOne(cuts: seq<CutRun>, p: SpoolPath) {
      exists k :: 0 <= k < |cuts| && p in LeftBy(cuts[k])
    }

    lemma LeftByOneMore(cuts: seq<CutRun>, cut: seq<CutRun>, p: SpoolPath)
      requires |cut| <= 1
      ensures LeftByOne(cuts + cut, p) <==> LeftByOne(cuts, p) || (cut != [] && p in LeftBy(cut[0]))
    {
      hide LeftBy;
      var all := cuts + cut;
      if LeftByOne(cuts, p) {
        var k :| 0 <= k < |cuts| && p in LeftBy(cuts[k]);
        assert all[k] == cuts[k];
      }
      if cut != [] { assert all[|cuts|] == cut[0]; }
      if LeftByOne(all, p) {
        var k :| 0 <= k < |all| && p in LeftBy(all[k]);
        assert k < |cuts| ==> all[k] == cuts[k];
      }
    }

    /** The schedule has the run, with an end to its fuel. */
    ghost predicate IsCut(schedule: seq<Event>, cut: CutRun) {
      cut.fuel.Some? && exists now, escapes :: Work(now, cut.env, cut.fuel, escapes) in schedule
    }

    /** `cut` is the run the event was cut in, if it was. */
    method Step(e: Event) returns (ghost cut: seq<CutRun>)
      requires Valid() && (e.Start? ==> e.current == boot || e.current !in boots)
      modifies this, server
      ensures Valid() && old(requests) <= requests
      ensures boot == if e.Start? then e.current else old(boot)
      ensures boots == if e.Start? then old(boots) + {e.current} else old(boots)
      ensures |cut| <= 1 && (cut != [] ==> e.Work? && e.fuel.Some? && cut[0].env == e.env && cut[0].fuel == e.fuel)
      ensures Strays(View()) == old(Strays(View())) + if cut == [] then {} else LeftBy(cut[0])
    {
      cut := [];
      ghost var before := View();
      hide Valid, Strays, LeftBy;
      match e
      case Discover(path, priority, debounceMs, now) =>
        var id := Enqueue(path, priority, debounceMs, now);
        if id.Some? { SameStrays(before, id.value, candidates[id.value]); }
      case Work(now, env, fuel, escapes) =>
        cut := WorkOn(now, env, fuel, escapes);
      case Start(current) =>
        var _ := RefreshBootIdentity(current);
        SameFiles(before, View());
      case Others(calls) =>
        OtherCallers(calls);
    }

    /** The worker takes the next due candidate, if there is one. */
    method WorkOn(now: int, env: Env, fuel: Option<nat>, escapes: bool) returns (ghost cut: seq<CutRun>)
      requires Valid()
      modifies this`candidates, this`spool, this`gaps, this`sequence, this`requests, server
      ensures Valid() && old(requests) <= requests
      ensures |cut| <= 1 && (cut != [] ==> fuel.Some? && cut[0].env == env && cut[0].fuel == fuel)
      ensures Strays(View()) == old(Strays(View())) + if cut == [] then {} else LeftBy(cut[0])
    {
      cut := [];
      ghost var a0 := View();
      hide Valid, Strays, LeftBy;
      var id := LeaseNextDue(120, now);
      if id.None? { return; }
      SameStrays(a0, id.value, candidates[id.value]);
      if UnusedSpoolPath(env.spoolPath) && env.sessionId !in server.sessions {
        ghost var a1 := View();
        FilesHold(id.value);
        var end := ProcessCandidate(id.value, env, fuel);
        StraysAfterRun(a1, View(), id.value, env, fuel, end.Finished?);
        if end.Crashed? {
          cut := [CutRun(env, fuel, a1.candidates[id.value], candidates[id.value])];
          ghost var a2 := View();
          if escapes {
            var _, _ := SetRetry(id.value, now + 30, None);
            SameStrays(a2, id.value, candidates[id.value]);
          }
        }
      }
    }

    lemma FilesHold(id: CandidateId)
      requires Valid() && id in candidates
      ensures FileOk(View().spool, View().candidates[id]) && SpoolIsPrivate(View())
    {
    }
  }
}
