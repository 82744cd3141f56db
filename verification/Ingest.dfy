/** The server side of capture: content-addressed storage (cas.rs) and the announce, stage,
    finalize protocol (ingest.rs).

    `fuel` is how many persisted steps a call may still make before the server crashes; `None`
    is a call that is not interrupted. SHA-256 is a function of the bytes. */
module Ingest {
  import opened Numbers
  import opened Options

  type Bytes = seq<nat>
  type Tenant = nat
  type AgentId = nat
  type BootId = nat
  type UploadId = nat
  type ArtifactId = nat

  /** A digest, or the empty text recorded when an announced one is not hexadecimal. */
  datatype Digest = Sha256(number: nat) | NoDigest

  datatype SessionState = Open | Committed | Failed

  datatype Session = Session(tenant: Tenant, announced: Digest, state: SessionState)

  /** `objects/{tenant}/{sha256}`, and the unique key of the artifact table. */
  datatype ObjectKey = ObjectKey(tenant: Tenant, digest: Digest)

  datatype Scope = Endpoint | Intel | UnknownScope

  datatype ArtifactRow = ArtifactRow(id: ArtifactId, size: nat, scope: Scope)

  /** Unique key of `occurrence_event`. */
  datatype OccurrenceKey = OccurrenceKey(tenant: Tenant, agent: AgentId, boot: BootId, sequence: nat)

  datatype AttemptOutcome = Captured | AlreadyPresent | HashMismatched

  datatype Attempt = Attempt(tenant: Tenant, outcome: AttemptOutcome, digest: Option<Digest>)

  /** The identity part of an occurrence as an agent reports it. */
  datatype Occurrence = Occurrence(agent: AgentId, boot: BootId, sequence: nat)

  /** `sha` is `None` when the text is not hexadecimal. */
  datatype AnnounceRequest = AnnounceRequest(sha: Option<Digest>, size: nat, occurrence: Option<Occurrence>)

  datatype Announced = Present(artifact: ArtifactId) | UploadRequired(upload: UploadId)

  datatype FinalizeRequest = FinalizeRequest(
    upload: UploadId,
    sha: Option<Digest>,
    size: nat,
    occurrence: Option<Occurrence>,
    scope: Option<Scope>)

  datatype Finalized = Finalized(artifact: ArtifactId, digest: Digest)

  datatype ServerError = BadRequest | NotFound | Conflict | HashMismatch | ScanFailed | Crashed

  /** The durable state of the server. `commits` is a history: the digest each committed
      session was committed under. */
  datatype State = State(
    staging: map<UploadId, Bytes>,
    objects: map<ObjectKey, Bytes>,
    sessions: map<UploadId, Session>,
    artifacts: map<ObjectKey, ArtifactRow>,
    occurrences: map<OccurrenceKey, Digest>,
    attempts: seq<Attempt>,
    commits: map<UploadId, Digest>)

  // ---------------------------------------------------------------- specification functions

  function KeyFor(t: Tenant, o: Occurrence): OccurrenceKey {
    OccurrenceKey(t, o.agent, o.boot, o.sequence)
  }

  /** ON CONFLICT DO NOTHING: an occurrence already known under this key stays as it was. */
  function WithOccurrence(m: map<OccurrenceKey, Digest>, t: Tenant, occ: Option<Occurrence>, d: Digest): map<OccurrenceKey, Digest> {
    if occ.Some? && KeyFor(t, occ.value) !in m then m[KeyFor(t, occ.value) := d] else m
  }

  ghost function AnnounceSpec(s: State, t: Tenant, req: AnnounceRequest, uuid: UploadId): State {
    if req.sha.None? then s
    else if ObjectKey(t, req.sha.value) in s.artifacts then
      s.(occurrences := WithOccurrence(s.occurrences, t, req.occurrence, req.sha.value),
         attempts := s.attempts + [Attempt(t, AlreadyPresent, req.sha)])
    else s.(sessions := s.sessions[uuid := Session(t, req.sha.value, Open)])
  }

  /** The verdict on a finalize request, before anything is written. */
  datatype Verdict = Refused(error: ServerError) | WrongSize | WrongHash | WrongScope | Accepted(digest: Digest)

  ghost function Judge(s: State, sha256: Bytes -> Digest, t: Tenant, req: FinalizeRequest): Verdict {
    if req.upload !in s.sessions || s.sessions[req.upload].tenant != t then Refused(NotFound)
    else if !s.sessions[req.upload].state.Open? then Refused(Conflict)
    else if req.upload !in s.staging then Refused(NotFound)
    else
      var bytes := s.staging[req.upload];
      if |bytes| != req.size then WrongSize
      else if req.sha != Some(sha256(bytes)) then WrongHash
      else if req.scope == Some(UnknownScope) then WrongScope
      else Accepted(sha256(bytes))
  }

  ghost function CommitSpec(s: State, t: Tenant, req: FinalizeRequest, d: Digest, uuid: ArtifactId): State
    requires req.upload in s.staging && req.upload in s.sessions
  {
    var key := ObjectKey(t, d);
    State(
      s.staging - {req.upload},
      if key in s.objects then s.objects else s.objects[key := s.staging[req.upload]],
      s.sessions[req.upload := s.sessions[req.upload].(state := Committed)],
      if key in s.artifacts then s.artifacts
      else s.artifacts[key := ArtifactRow(uuid, req.size, if req.scope.Some? then req.scope.value else Endpoint)],
      WithOccurrence(s.occurrences, t, req.occurrence, d),
      s.attempts + [Attempt(t, Captured, Some(d))],
      s.commits[req.upload := d])
  }

  /** The promotion alone: the staged bytes under their own digest, the staged copy gone. */
  ghost function PromoteSpec(s: State, u: UploadId, key: ObjectKey): State
    requires u in s.staging
  {
    s.(staging := s.staging - {u}, objects := if key in s.objects then s.objects else s.objects[key := s.staging[u]])
  }

  ghost function Fail(s: State, u: UploadId): State
    requires u in s.sessions
  {
    s.(sessions := s.sessions[u := s.sessions[u].(state := Failed)])
  }

  ghost function Discard(s: State, u: UploadId): State {
    s.(staging := s.staging - {u})
  }

  ghost function Record(s: State, a: Attempt): State {
    s.(attempts := s.attempts + [a])
  }

  ghost function Mismatch(t: Tenant, req: FinalizeRequest): Attempt {
    Attempt(t, HashMismatched, if req.sha.None? then Some(NoDigest) else req.sha)
  }

  /** The bookkeeping of a refusal, in the order of the code. */
  ghost function Refuse(s: State, t: Tenant, req: FinalizeRequest, v: Verdict, fuel: Option<nat>): State
    requires !v.Refused? ==> req.upload in s.sessions
  {
    match v
    case WrongSize =>
      if fuel == Some(1) then Discard(s, req.upload) else Fail(Discard(s, req.upload), req.upload)
    case WrongHash =>
      if fuel == Some(1) then Fail(Record(s, Mismatch(t, req)), req.upload)
      else Discard(Fail(Record(s, Mismatch(t, req)), req.upload), req.upload)
    case WrongScope => Discard(s, req.upload)
    case _ => s
  }

  /** What finalize leaves behind when it can make `fuel` persisted steps: promotion and then
      commit on success, otherwise the bookkeeping of the refusal. */
  ghost function FinalizeSpec(s: State, sha256: Bytes -> Digest, t: Tenant, req: FinalizeRequest, uuid: ArtifactId, fuel: Option<nat>): State {
    var v := Judge(s, sha256, t, req);
    if fuel == Some(0) then s
    else if !v.Accepted? then Refuse(s, t, req, v, fuel)
    else if fuel == Some(1) then PromoteSpec(s, req.upload, ObjectKey(t, v.digest))
    else CommitSpec(s, t, req, v.digest, uuid)
  }

  // ---------------------------------------------------------------- invariant and progress

  /** True in every reachable state, also right after a crash between the promotion of the
      bytes and the transaction. */
  ghost predicate Sound(s: State, sha256: Bytes -> Digest) {
    && (forall k :: k in s.artifacts ==> k in s.objects)
    && (forall k :: k in s.objects ==> sha256(s.objects[k]) == k.digest)
    && (forall u :: u in s.sessions && s.sessions[u].state.Committed? ==>
          u in s.commits && ObjectKey(s.sessions[u].tenant, s.commits[u]) in s.artifacts)
    && (forall o :: o in s.occurrences ==> ObjectKey(o.tenant, s.occurrences[o]) in s.artifacts)
    && (forall k :: k in s.artifacts ==> SizeFits(sha256, k.digest, s.artifacts[k].size))
  }

  /** The size is that of some bytes with this digest. */
  ghost predicate SizeFits(sha256: Bytes -> Digest, d: Digest, size: nat) {
    exists bytes :: sha256(bytes) == d && |bytes| == size
  }

  /** Rows and objects are never changed or taken back, and a closed session stays closed. */
  ghost predicate Extends(s: State, s': State) {
    && (forall k :: k in s.objects ==> k in s'.objects && s'.objects[k] == s.objects[k])
    && (forall k :: k in s.artifacts ==> k in s'.artifacts && s'.artifacts[k] == s.artifacts[k])
    && (forall o :: o in s.occurrences ==> o in s'.occurrences && s'.occurrences[o] == s.occurrences[o])
    && (forall u :: u in s.sessions ==> u in s'.sessions && SessionMoves(s.sessions[u], s'.sessions[u]))
    && s.attempts <= s'.attempts
  }

  ghost predicate SessionMoves(x: Session, y: Session) {
    y == x || (x.state.Open? && y.tenant == x.tenant)
  }

  /** New occurrence rows are only those the request carries. */
  ghost predicate OccurrencesFrom(s: State, s': State, t: Tenant, occ: Option<Occurrence>) {
    forall o :: o in s'.occurrences && o !in s.occurrences ==> occ.Some? && o == KeyFor(t, occ.value)
  }

  lemma Unmoved(s: State, t: Tenant, occ: Option<Occurrence>)
    ensures Extends(s, s) && OccurrencesFrom(s, s, t, occ)
  {
  }

  lemma PromoteKeepsSound(s: State, sha256: Bytes -> Digest, u: UploadId, t: Tenant)
    requires Sound(s, sha256) && u in s.staging
    ensures var s' := PromoteSpec(s, u, ObjectKey(t, sha256(s.staging[u])));
            Sound(s', sha256) && Extends(s, s') && s'.occurrences == s.occurrences
  {
  }

  lemma CommitKeepsSound(s: State, sha256: Bytes -> Digest, t: Tenant, req: FinalizeRequest, uuid: ArtifactId)
    requires Sound(s, sha256) && Judge(s, sha256, t, req).Accepted?
    ensures var s' := CommitSpec(s, t, req, sha256(s.staging[req.upload]), uuid);
            Sound(s', sha256) && Extends(s, s') && OccurrencesFrom(s, s', t, req.occurrence)
  {
    CommitExtends(s, sha256, t, req, uuid);
    var s' := CommitSpec(s, t, req, sha256(s.staging[req.upload]), uuid);
    hide Extends, OccurrencesFrom, SizeFits;
    StagedSizeFits(s, sha256, t, req);
    forall o | o in s'.occurrences ensures ObjectKey(o.tenant, s'.occurrences[o]) in s'.artifacts {
      if o in s.occurrences { assert ObjectKey(o.tenant, s.occurrences[o]) in s.artifacts; }
    }
  }

  lemma StagedSizeFits(s: State, sha256: Bytes -> Digest, t: Tenant, req: FinalizeRequest)
    requires Judge(s, sha256, t, req).Accepted?
    ensures SizeFits(sha256, sha256(s.staging[req.upload]), req.size)
  {
  }

  lemma CommitExtends(s: State, sha256: Bytes -> Digest, t: Tenant, req: FinalizeRequest, uuid: ArtifactId)
    requires Judge(s, sha256, t, req).Accepted?
    ensures var s' := CommitSpec(s, t, req, sha256(s.staging[req.upload]), uuid);
            Extends(s, s') && OccurrencesFrom(s, s', t, req.occurrence)
  {
  }

  /** Steps that touch no row, no object and no closed session. */
  lemma BookkeepingKeepsSound(s: State, sha256: Bytes -> Digest, s': State, t: Tenant, occ: Option<Occurrence>)
    requires Sound(s, sha256)
    requires s'.objects == s.objects && s'.artifacts == s.artifacts && s'.occurrences == s.occurrences && s'.commits == s.commits
    requires s.attempts <= s'.attempts && s.sessions.Keys <= s'.sessions.Keys
    requires forall u :: u in s'.sessions ==>
               if u in s.sessions then s'.sessions[u] == s.sessions[u] || (s.sessions[u].state.Open? && s'.sessions[u] == s.sessions[u].(state := Failed))
               else s'.sessions[u].state.Open?
    ensures Sound(s', sha256) && Extends(s, s') && OccurrencesFrom(s, s', t, occ)
  {
  }

  lemma RefuseTouchesNoRow(s: State, t: Tenant, req: FinalizeRequest, v: Verdict, fuel: Option<nat>)
    requires !v.Refused? ==> req.upload in s.sessions && s.sessions[req.upload].state.Open?
    ensures var s' := Refuse(s, t, req, v, fuel);
            && s'.objects == s.objects && s'.artifacts == s.artifacts && s'.occurrences == s.occurrences && s'.commits == s.commits
            && s.attempts <= s'.attempts
            && (s'.sessions == s.sessions || (req.upload in s.sessions && s.sessions[req.upload].state.Open? && s'.sessions == Fail(s, req.upload).sessions))
  {
    var u := req.upload;
    if !v.Refused? {
      assert Fail(Discard(s, u), u).sessions == Fail(s, u).sessions;
      assert Fail(Record(s, Mismatch(t, req)), u).sessions == Fail(s, u).sessions;
    }
    hide Mismatch;
  }

  /** Wherever finalize stops. */
  lemma FinalizeKeepsSound(s: State, sha256: Bytes -> Digest, t: Tenant, req: FinalizeRequest, uuid: ArtifactId, fuel: Option<nat>)
    requires Sound(s, sha256)
    ensures var s' := FinalizeSpec(s, sha256, t, req, uuid, fuel);
            Sound(s', sha256) && Extends(s, s') && OccurrencesFrom(s, s', t, req.occurrence)
  {
    hide Sound, Extends, OccurrencesFrom, Refuse, CommitSpec, PromoteSpec;
    var s' := FinalizeSpec(s, sha256, t, req, uuid, fuel);
    RefuseTouchesNoRow(s, t, req, Judge(s, sha256, t, req), fuel);
    if Judge(s, sha256, t, req).Accepted? && fuel != Some(0) {
      if fuel == Some(1) {
        PromoteKeepsSound(s, sha256, req.upload, t);
        SameOccurrences(s, s', t, req.occurrence);
      } else {
        CommitKeepsSound(s, sha256, t, req, uuid);
      }
    } else {
      BookkeepingKeepsSound(s, sha256, s', t, req.occurrence);
    }
  }

  lemma SameOccurrences(s: State, s': State, t: Tenant, occ: Option<Occurrence>)
    requires s'.occurrences == s.occurrences
    ensures OccurrencesFrom(s, s', t, occ)
  {
  }

  /** What is accepted: staged bytes of an open session of the tenant that have the size and the
      digest of the request, for a known scope. */
  lemma AcceptedExactly(s: State, sha256: Bytes -> Digest, t: Tenant, req: FinalizeRequest)
    ensures Judge(s, sha256, t, req).Accepted? <==>
              && req.upload in s.sessions && s.sessions[req.upload].tenant == t && s.sessions[req.upload].state == Open
              && req.upload in s.staging && |s.staging[req.upload]| == req.size
              && req.sha == Some(sha256(s.staging[req.upload]))
              && (req.scope == None || req.scope == Some(Endpoint) || req.scope == Some(Intel))
    ensures Judge(s, sha256, t, req).Accepted? ==> Judge(s, sha256, t, req) == Accepted(sha256(s.staging[req.upload]))
  {
    if req.scope.Some? {
      assert req.scope == Some(req.scope.value);
      assert req.scope.value.Endpoint? || req.scope.value.Intel? || req.scope.value.UnknownScope?;
    }
    if req.upload in s.sessions {
      assert s.sessions[req.upload].state.Open? <==> s.sessions[req.upload].state == Open;
    }
  }

  /** An upload of the wrong size, digest or scope, or without an open session of the tenant and
      staged bytes, commits nothing, wherever it stops. */
  lemma RefusalCommitsNothing(s: State, sha256: Bytes -> Digest, t: Tenant, req: FinalizeRequest, uuid: ArtifactId, fuel: Option<nat>)
    requires !(&& req.upload in s.sessions && s.sessions[req.upload].tenant == t && s.sessions[req.upload].state == Open
               && req.upload in s.staging && |s.staging[req.upload]| == req.size
               && req.sha == Some(sha256(s.staging[req.upload]))
               && (req.scope == None || req.scope == Some(Endpoint) || req.scope == Some(Intel)))
    ensures var s' := FinalizeSpec(s, sha256, t, req, uuid, fuel);
            s'.objects == s.objects && s'.artifacts == s.artifacts && s'.occurrences == s.occurrences && s'.commits == s.commits
  {
    hide Refuse;
    AcceptedExactly(s, sha256, t, req);
    RefuseTouchesNoRow(s, t, req, Judge(s, sha256, t, req), fuel);
  }

  lemma RefusedIsUntouched(s: State, sha256: Bytes -> Digest, t: Tenant, req: FinalizeRequest, uuid: ArtifactId, fuel: Option<nat>)
    requires Judge(s, sha256, t, req).Refused?
    ensures FinalizeSpec(s, sha256, t, req, uuid, fuel) == s
  {
  }

  /** The error of a refusal. */
  ghost function ErrorOf(v: Verdict): ServerError
    requires !v.Accepted?
  {
    match v
    case Refused(e) => e
    case WrongHash => HashMismatch
    case _ => BadRequest
  }

  /** Which verdict is given when. */
  lemma VerdictInDetail(s: State, sha256: Bytes -> Digest, t: Tenant, req: FinalizeRequest)
    ensures var known := req.upload in s.sessions && s.sessions[req.upload].tenant == t;
            var v := Judge(s, sha256, t, req);
            && (v.Refused? <==> !known || s.sessions[req.upload].state != Open || req.upload !in s.staging)
            && (v.Refused? ==> v.error == if known && s.sessions[req.upload].state != Open then Conflict else NotFound)
            && (!v.Refused? ==>
                  && (v.WrongSize? <==> |s.staging[req.upload]| != req.size)
                  && (v.WrongHash? <==> |s.staging[req.upload]| == req.size && req.sha != Some(sha256(s.staging[req.upload])))
                  && (v.WrongScope? <==> |s.staging[req.upload]| == req.size && req.sha == Some(sha256(s.staging[req.upload])) && req.scope == Some(UnknownScope)))
  {
  }

  /** What an uncut refusal leaves behind. */
  lemma RefusalInDetail(s: State, sha256: Bytes -> Digest, t: Tenant, req: FinalizeRequest, uuid: ArtifactId)
    requires !Judge(s, sha256, t, req).Accepted?
    ensures var v, s' := Judge(s, sha256, t, req), FinalizeSpec(s, sha256, t, req, uuid, None);
            && (v.Refused? ==> s' == s)
            && (v.WrongSize? || v.WrongHash? ==>
                  && s'.sessions == s.sessions[req.upload := s.sessions[req.upload].(state := Failed)] && s'.staging == s.staging - {req.upload}
                  && s'.attempts == s.attempts + if v.WrongSize? then []
                                                 else [Attempt(t, HashMismatched, if req.sha.None? then Some(NoDigest) else req.sha)])
            && (v.WrongScope? ==> s'.sessions == s.sessions && s'.staging == s.staging - {req.upload} && s'.attempts == s.attempts)
  {
  }

  /** What an uncut acceptance leaves behind. */
  lemma AcceptanceInDetail(s: State, sha256: Bytes -> Digest, t: Tenant, req: FinalizeRequest, uuid: ArtifactId)
    requires Judge(s, sha256, t, req).Accepted?
    ensures var s' := FinalizeSpec(s, sha256, t, req, uuid, None);
            var key := ObjectKey(t, sha256(s.staging[req.upload]));
            && s'.objects == (if key in s.objects then s.objects else s.objects[key := s.staging[req.upload]])
            && s'.artifacts == (if key in s.artifacts then s.artifacts
                                else s.artifacts[key := ArtifactRow(uuid, |s.staging[req.upload]|, if req.scope == None then Endpoint else req.scope.value)])
            && s'.sessions == s.sessions[req.upload := s.sessions[req.upload].(state := Committed)]
            && s'.staging == s.staging - {req.upload}
            && s'.attempts == s.attempts + [Attempt(t, Captured, Some(key.digest))]
  {
  }

  /** A finished commit has recorded the artifact and the occurrence. */
  lemma AcceptanceIsRecorded(s: State, sha256: Bytes -> Digest, t: Tenant, req: FinalizeRequest, uuid: ArtifactId)
    requires Judge(s, sha256, t, req).Accepted?
    ensures var s' := FinalizeSpec(s, sha256, t, req, uuid, None);
            && ObjectKey(t, sha256(s.staging[req.upload])) in s'.artifacts
            && req.sha == Some(sha256(s.staging[req.upload]))
            && s'.occurrences == WithOccurrence(s.occurrences, t, req.occurrence, sha256(s.staging[req.upload]))
            && (req.occurrence.Some? ==> KeyFor(t, req.occurrence.value) in s'.occurrences)
            && Judge(s, sha256, t, req) == Accepted(sha256(s.staging[req.upload]))
            && s'.sessions[req.upload].state == Committed
  {
  }

  lemma AnnounceKeepsSound(s: State, sha256: Bytes -> Digest, t: Tenant, req: AnnounceRequest, uuid: UploadId)
    requires Sound(s, sha256) && uuid !in s.sessions
    ensures var s' := AnnounceSpec(s, t, req, uuid);
            Sound(s', sha256) && Extends(s, s') && OccurrencesFrom(s, s', t, req.occurrence)
  {
    var s' := AnnounceSpec(s, t, req, uuid);
    if req.sha.Some? && ObjectKey(t, req.sha.value) in s.artifacts {
      DedupKeepsSound(s, sha256, t, req);
    } else {
      hide Sound, Extends, OccurrencesFrom;
      BookkeepingKeepsSound(s, sha256, s', t, req.occurrence);
    }
  }

  lemma DedupKeepsSound(s: State, sha256: Bytes -> Digest, t: Tenant, req: AnnounceRequest)
    requires Sound(s, sha256) && req.sha.Some? && ObjectKey(t, req.sha.value) in s.artifacts
    ensures var s' := s.(occurrences := WithOccurrence(s.occurrences, t, req.occurrence, req.sha.value),
                         attempts := s.attempts + [Attempt(t, AlreadyPresent, req.sha)]);
            Sound(s', sha256) && Extends(s, s') && OccurrencesFrom(s, s', t, req.occurrence)
  {
    var m := WithOccurrence(s.occurrences, t, req.occurrence, req.sha.value);
    forall o | o in m ensures ObjectKey(o.tenant, m[o]) in s.artifacts {
      if o in s.occurrences { assert ObjectKey(o.tenant, s.occurrences[o]) in s.artifacts; }
    }
  }

  // ---------------------------------------------------------------- all runs

  datatype Call =
    | AnnounceCall(tenant: Tenant, announce: AnnounceRequest, uuid: UploadId, fuel: Option<nat>)
    | StageCall(tenant: Tenant, upload: UploadId, bytes: Bytes)
    | FinalizeCall(tenant: Tenant, finalize: FinalizeRequest, uuid: ArtifactId, fuel: Option<nat>)

  ghost function StageSpec(s: State, t: Tenant, u: UploadId, bytes: Bytes): State {
    if u in s.sessions && s.sessions[u].tenant == t && s.sessions[u].state.Open?
    then s.(staging := s.staging[u := bytes]) else s
  }

  /** Session ids are drawn fresh. */
  ghost function Serve(s: State, sha256: Bytes -> Digest, c: Call): State {
    match c
    case AnnounceCall(t, req, uuid, fuel) =>
      if uuid in s.sessions || fuel == Some(0) then s else AnnounceSpec(s, t, req, uuid)
    case StageCall(t, u, bytes) => StageSpec(s, t, u, bytes)
    case FinalizeCall(t, req, uuid, fuel) => FinalizeSpec(s, sha256, t, req, uuid, fuel)
  }

  const EMPTY: State := State(map[], map[], map[], map[], map[], [], map[])

  ghost function ServeAll(s: State, sha256: Bytes -> Digest, calls: seq<Call>): State {
    if calls == [] then s else Serve(ServeAll(s, sha256, calls[..|calls| - 1]), sha256, calls[|calls| - 1])
  }

  lemma ExtendsItself(s: State)
    ensures Extends(s, s)
  {
  }

  lemma StagingKeepsSound(s: State, sha256: Bytes -> Digest, staging: map<UploadId, Bytes>)
    requires Sound(s, sha256)
    ensures var s' := s.(staging := staging); Sound(s', sha256) && Extends(s, s')
  {
  }

  lemma ServeKeepsSound(s: State, sha256: Bytes -> Digest, c: Call)
    requires Sound(s, sha256)
    ensures Sound(Serve(s, sha256, c), sha256) && Extends(s, Serve(s, sha256, c))
  {
    ExtendsItself(s);
    hide Sound, Extends, FinalizeSpec, AnnounceSpec;
    match c
    case AnnounceCall(t, req, uuid, fuel) =>
      if uuid !in s.sessions { AnnounceKeepsSound(s, sha256, t, req, uuid); }
    case StageCall(t, u, bytes) => StagingKeepsSound(s, sha256, s.staging[u := bytes]);
    case FinalizeCall(t, req, uuid, fuel) => FinalizeKeepsSound(s, sha256, t, req, uuid, fuel);
  }

  lemma ExtendsTrans(s: State, s': State, s'': State)
    requires Extends(s, s') && Extends(s', s'')
    ensures Extends(s, s'')
  {
    forall u | u in s.sessions ensures u in s''.sessions && SessionMoves(s.sessions[u], s''.sessions[u]) {
      assert SessionMoves(s.sessions[u], s'.sessions[u]) && SessionMoves(s'.sessions[u], s''.sessions[u]);
    }
  }

  /** From any sound state, whatever calls arrive and wherever each of them is cut: every
      artifact row has its bytes under its own digest, a committed session has its artifact, and
      nothing committed is changed or reopened. */
  lemma {:induction false} EveryRunIsSound(s: State, sha256: Bytes -> Digest, calls: seq<Call>)
    requires Sound(s, sha256)
    ensures Sound(ServeAll(s, sha256, calls), sha256)
    ensures Extends(s, ServeAll(s, sha256, calls))
  {
    if calls != [] {
      var s' := ServeAll(s, sha256, calls[..|calls| - 1]);
      EveryRunIsSound(s, sha256, calls[..|calls| - 1]);
      ServeKeepsSound(s', sha256, calls[|calls| - 1]);
      ExtendsTrans(s, s', ServeAll(s, sha256, calls));
    }
  }

  /** The bytes of an artifact row, read back in any reachable state, hash to its key. */
  lemma StoredBytesAreTheirDigest(sha256: Bytes -> Digest, calls: seq<Call>, k: ObjectKey)
    requires k in ServeAll(EMPTY, sha256, calls).artifacts
    ensures var s := ServeAll(EMPTY, sha256, calls);
            k in s.objects && sha256(s.objects[k]) == k.digest
  {
    EveryRunIsSound(EMPTY, sha256, calls);
  }

  /** The recorded size is the length of the stored bytes, unless two different texts of the
      artifact's digest are around. */
  lemma RecordedSizeIsTheLength(sha256: Bytes -> Digest, calls: seq<Call>, k: ObjectKey)
    requires k in ServeAll(EMPTY, sha256, calls).artifacts
    requires forall x, y :: sha256(x) == sha256(y) == k.digest ==> x == y
    ensures var s := ServeAll(EMPTY, sha256, calls);
            k in s.objects && s.artifacts[k].size == |s.objects[k]|
  {
    EveryRunIsSound(EMPTY, sha256, calls);
    hide ServeAll;
    var s := ServeAll(EMPTY, sha256, calls);
    assert SizeFits(sha256, k.digest, s.artifacts[k].size);
    var bytes :| sha256(bytes) == k.digest && |bytes| == s.artifacts[k].size;
    assert sha256(s.objects[k]) == k.digest;
  }

  /** The digest given to announce plays no part in finalize: the session commits whatever was
      staged, if the finalize request names its digest. It commits the announced digest exactly
      when the staged bytes have it. */
  lemma CommitFollowsStagedBytes(s: State, sha256: Bytes -> Digest, t: Tenant, req: FinalizeRequest, uuid: ArtifactId)
    requires Judge(s, sha256, t, req).Accepted?
    ensures var s' := FinalizeSpec(s, sha256, t, req, uuid, None);
            && s'.commits[req.upload] == sha256(s.staging[req.upload])
            && (s'.commits[req.upload] == s.sessions[req.upload].announced <==> req.sha == Some(s.sessions[req.upload].announced))
            && ObjectKey(t, sha256(s.staging[req.upload])) in s'.artifacts
  {
  }

  lemma ThreeCalls(sha256: Bytes -> Digest, x: Call, y: Call, z: Call)
    ensures ServeAll(EMPTY, sha256, [x, y, z]) == Serve(Serve(Serve(EMPTY, sha256, x), sha256, y), sha256, z)
  {
    var all := [x, y, z];
    assert all[..2][..1] == all[..1] && all[..1][..0] == [] && all[..2] == [x, y];
    assert ServeAll(EMPTY, sha256, all[..1]) == Serve(ServeAll(EMPTY, sha256, all[..1][..0]), sha256, x);
    assert ServeAll(EMPTY, sha256, all[..2]) == Serve(ServeAll(EMPTY, sha256, all[..2][..1]), sha256, y);
  }

  /** A session announced under any digest can commit any other bytes: announce, stage and
      finalize from the empty server. */
  lemma AnyBytesCommitUnderAnyAnnouncement(sha256: Bytes -> Digest, t: Tenant, u: UploadId, uuid: ArtifactId, announced: Digest, bytes: Bytes)
    requires announced != sha256(bytes)
    ensures var s := ServeAll(EMPTY, sha256,
                              [AnnounceCall(t, AnnounceRequest(Some(announced), |bytes|, None), u, None),
                               StageCall(t, u, bytes),
                               FinalizeCall(t, FinalizeRequest(u, Some(sha256(bytes)), |bytes|, None, None), uuid, None)]);
            && u in s.sessions && s.sessions[u].state == Committed && s.sessions[u].announced == announced
            && u in s.commits && s.commits[u] == sha256(bytes) != announced
            && ObjectKey(t, announced) !in s.artifacts && ObjectKey(t, sha256(bytes)) in s.artifacts
  {
    var x := AnnounceCall(t, AnnounceRequest(Some(announced), |bytes|, None), u, None);
    var y := StageCall(t, u, bytes);
    var z := FinalizeCall(t, FinalizeRequest(u, Some(sha256(bytes)), |bytes|, None, None), uuid, None);
    ThreeCalls(sha256, x, y, z);
    hide ServeAll;
    var s1 := Serve(EMPTY, sha256, x);
    assert s1 == EMPTY.(sessions := map[u := Session(t, announced, Open)]);
    var s2 := Serve(s1, sha256, y);
    assert s2 == s1.(staging := map[u := bytes]);
    assert Judge(s2, sha256, t, z.finalize) == Accepted(sha256(bytes));
  }

  lemma AnnounceServed(s: State, sha256: Bytes -> Digest, t: Tenant, req: AnnounceRequest, uuid: UploadId, fuel: Option<nat>)
    requires Sound(s, sha256) && uuid !in s.sessions
    ensures var s' := Serve(s, sha256, AnnounceCall(t, req, uuid, fuel));
            && Sound(s', sha256) && Extends(s, s') && OccurrencesFrom(s, s', t, req.occurrence)
            && (req.sha.None? || fuel == Some(0) ==> s' == s)
            && (req.sha.Some? && fuel != Some(0) ==>
                  s' == if ObjectKey(t, req.sha.value) in s.artifacts
                        then s.(occurrences := WithOccurrence(s.occurrences, t, req.occurrence, req.sha.value),
                                attempts := s.attempts + [Attempt(t, AlreadyPresent, req.sha)])
                        else s.(sessions := s.sessions[uuid := Session(t, req.sha.value, Open)]))
  {
    AnnounceKeepsSound(s, sha256, t, req, uuid);
    Unmoved(s, t, req.occurrence);
    hide Sound, Extends, OccurrencesFrom, WithOccurrence;
  }

  // ---------------------------------------------------------------- the server

  class Server {
    const sha256: Bytes -> Digest
    var staging: map<UploadId, Bytes>
    var objects: map<ObjectKey, Bytes>
    var sessions: map<UploadId, Session>
    var artifacts: map<ObjectKey, ArtifactRow>
    var occurrences: map<OccurrenceKey, Digest>
    var attempts: seq<Attempt>
    ghost var commits: map<UploadId, Digest>

    ghost function View(): State
      reads this
    {
      State(staging, objects, sessions, artifacts, occurrences, attempts, commits)
    }

    ghost predicate Valid()
      reads this
    {
      Sound(View(), sha256)
    }

    constructor (hash: Bytes -> Digest)
      ensures Valid() && sha256 == hash
      ensures View() == State(map[], map[], map[], map[], map[], [], map[])
    {
      sha256 := hash;
      staging, objects, sessions, artifacts, occurrences, attempts, commits := map[], map[], map[], map[], map[], [], map[];
    }

    // -------------------------------------------------------------- content-addressed storage

    method Stage(key: UploadId, bytes: Bytes)
      modifies this`staging
      ensures staging == old(staging)[key := bytes]
    {
      staging := staging[key := bytes];
    }

    /** Put if absent: an object that exists is left alone, and the staged bytes go either way. */
    method Promote(key: UploadId, to: ObjectKey) returns (r: Result<(), ServerError>)
      modifies this`staging, this`objects
      ensures r.Ok? <==> to in old(objects) || key in old(staging)
      ensures r.Ok? ==> staging == old(staging) - {key}
      ensures r.Ok? ==> objects == if to in old(objects) then old(objects) else old(objects)[to := old(staging)[key]]
      ensures r.Err? ==> staging == old(staging) && objects == old(objects)
    {
      if to in objects {
        staging := staging - {key};
        return Ok(());
      }
      if key !in staging { return Err(NotFound); }
      objects := objects[to := staging[key]];
      staging := staging - {key};
      return Ok(());
    }

    method DiscardStaging(key: UploadId)
      modifies this`staging
      ensures staging == old(staging) - {key}
    {
      staging := staging - {key};
    }

    /** Range read of an object; an offset past the end reads nothing. */
    method ReadRange(k: ObjectKey, offset: nat, len: nat) returns (r: Result<Bytes, ServerError>)
      ensures r.Ok? <==> k in objects
      ensures r.Ok? ==> var all := objects[k]; r.value == all[Min(offset, |all|)..Min(offset + len, |all|)]
    {
      if k !in objects { return Err(NotFound); }
      var all := objects[k];
      if offset >= |all| { return Ok([]); }
      return Ok(all[offset..Min(offset + len, |all|)]);
    }

    // -------------------------------------------------------------- the protocol

    /** `uuid` is the session id the server would draw. A hit on a digest the tenant already
        holds still records the occurrence and the attempt. */
    method Announce(t: Tenant, req: AnnounceRequest, uuid: UploadId, fuel: Option<nat>) returns (r: Result<Announced, ServerError>)
      requires Valid() && uuid !in sessions
      modifies this`sessions, this`occurrences, this`attempts
      ensures Valid() && Extends(old(View()), View()) && OccurrencesFrom(old(View()), View(), t, req.occurrence)
      ensures r.Err? && r.error != Crashed ==> View() == old(View())
      ensures r == Err(Crashed) ==> View() == old(View())
      ensures View() == Serve(old(View()), sha256, AnnounceCall(t, req, uuid, fuel))
      ensures fuel.None? ==> (r.Ok? <==> req.sha.Some?)
      ensures r.Ok? ==> req.sha.Some? && (r.value.Present? <==> ObjectKey(t, req.sha.value) in old(artifacts))
      ensures r.Ok? && r.value.Present? ==>
                && artifacts[ObjectKey(t, req.sha.value)].id == r.value.artifact
                && occurrences == WithOccurrence(old(occurrences), t, req.occurrence, req.sha.value)
                && attempts == old(attempts) + [Attempt(t, AlreadyPresent, req.sha)] && sessions == old(sessions)
      ensures r.Ok? && r.value.UploadRequired? ==>
                && r.value.upload == uuid && sessions == old(sessions)[uuid := Session(t, req.sha.value, Open)]
                && occurrences == old(occurrences) && attempts == old(attempts)
    {
      AnnounceServed(View(), sha256, t, req, uuid, fuel);
      hide Sound, Extends, OccurrencesFrom, Serve, AnnounceSpec, WithOccurrence;
      if req.sha.None? { return Err(BadRequest); }
      var d := req.sha.value;
      if ObjectKey(t, d) in artifacts {
        if fuel == Some(0) { return Err(Crashed); }
        occurrences := WithOccurrence(occurrences, t, req.occurrence, d);
        attempts := attempts + [Attempt(t, AlreadyPresent, Some(d))];
        return Ok(Present(artifacts[ObjectKey(t, d)].id));
      }
      if fuel == Some(0) { return Err(Crashed); }
      sessions := sessions[uuid := Session(t, d, Open)];
      return Ok(UploadRequired(uuid));
    }

    method StageUpload(t: Tenant, upload: UploadId, bytes: Bytes) returns (r: Result<(), ServerError>)
      requires Valid()
      modifies this`staging
      ensures Valid() && Extends(old(View()), View())
      ensures r.Ok? <==> upload in sessions && sessions[upload].tenant == t && sessions[upload].state.Open?
      ensures staging == if r.Ok? then old(staging)[upload := bytes] else old(staging)
      ensures View() == Serve(old(View()), sha256, StageCall(t, upload, bytes))
    {
      if upload !in sessions || sessions[upload].tenant != t { return Err(NotFound); }
      if !sessions[upload].state.Open? { return Err(Conflict); }
      Stage(upload, bytes);
      return Ok(());
    }

    /** `uuid` is the artifact id the server would draw; `scanFails` is a failure of the forward
        scan, which happens after the commit and is reported although everything is committed. */
    method Finalize(t: Tenant, req: FinalizeRequest, uuid: ArtifactId, scanFails: bool, fuel: Option<nat>)
      returns (r: Result<Finalized, ServerError>)
      requires Valid()
      modifies this`staging, this`objects, this`sessions, this`artifacts, this`occurrences, this`attempts, this`commits
      ensures View() == Serve(old(View()), sha256, FinalizeCall(t, req, uuid, fuel))
      ensures Valid() && Extends(old(View()), View()) && OccurrencesFrom(old(View()), View(), t, req.occurrence)
      ensures r.Ok? ==>
                && old(Judge(View(), sha256, t, req)) == Accepted(r.value.digest)
                && ObjectKey(t, r.value.digest) in artifacts && artifacts[ObjectKey(t, r.value.digest)].id == r.value.artifact
                && req.sha == Some(r.value.digest)
                && occurrences == WithOccurrence(old(occurrences), t, req.occurrence, r.value.digest)
      ensures fuel.None? ==> (r.Ok? <==> old(Judge(View(), sha256, t, req)).Accepted? && !scanFails)
      // without an open session of the tenant, or without bytes, nothing happens at all
      ensures !old(OpenFor(t, req.upload)) || req.upload !in old(staging) ==>
                && View() == old(View())
                && r == Err(if req.upload in old(sessions) && old(sessions)[req.upload].tenant == t && old(sessions)[req.upload].state != Open
                            then Conflict else NotFound)
      // wrong size or wrong digest: nothing is committed, and unless cut the session has failed
      ensures old(OpenFor(t, req.upload)) && req.upload in old(staging)
              && (|old(staging)[req.upload]| != req.size || req.sha != Some(sha256(old(staging)[req.upload]))) ==>
                && r.Err? && objects == old(objects) && artifacts == old(artifacts) && occurrences == old(occurrences) && commits == old(commits)
                && (fuel.None? ==>
                      && r == Err(if |old(staging)[req.upload]| != req.size then BadRequest else HashMismatch)
                      && sessions == old(sessions)[req.upload := old(sessions)[req.upload].(state := Failed)]
                      && staging == old(staging) - {req.upload}
                      && attempts == old(attempts) + if |old(staging)[req.upload]| != req.size then []
                                                     else [Attempt(t, HashMismatched, if req.sha.None? then Some(NoDigest) else req.sha)])
      // unknown scope: nothing is committed, and the session stays open
      ensures old(OpenFor(t, req.upload)) && req.upload in old(staging) && |old(staging)[req.upload]| == req.size
              && req.sha == Some(sha256(old(staging)[req.upload])) && req.scope == Some(UnknownScope) ==>
                && r.Err? && objects == old(objects) && artifacts == old(artifacts) && occurrences == old(occurrences) && commits == old(commits)
                && (fuel.None? ==> r == Err(BadRequest) && sessions == old(sessions) && staging == old(staging) - {req.upload})
      // everything in order: the bytes and their row are stored, unless they were before
      ensures old(OpenFor(t, req.upload)) && req.upload in old(staging) && |old(staging)[req.upload]| == req.size
              && req.sha == Some(sha256(old(staging)[req.upload])) && req.scope != Some(UnknownScope) && fuel.None? ==>
                var key := ObjectKey(t, sha256(old(staging)[req.upload]));
                && (r.Ok? <==> !scanFails) && (r.Err? ==> r.error == ScanFailed)
                && objects == (if key in old(objects) then old(objects) else old(objects)[key := old(staging)[req.upload]])
                && artifacts == (if key in old(artifacts) then old(artifacts)
                                 else old(artifacts)[key := ArtifactRow(uuid, |old(staging)[req.upload]|, if req.scope == None then Endpoint else req.scope.value)])
                && sessions == old(sessions)[req.upload := old(sessions)[req.upload].(state := Committed)]
                && staging == old(staging) - {req.upload}
                && attempts == old(attempts) + [Attempt(t, Captured, Some(key.digest))]
                && (req.occurrence.Some? ==> KeyFor(t, req.occurrence.value) in occurrences)
      // a success means that all was in order
      ensures r.Ok? ==>
                && old(OpenFor(t, req.upload)) && req.upload in old(staging) && |old(staging)[req.upload]| == req.size
                && req.sha == Some(sha256(old(staging)[req.upload])) && req.scope != Some(UnknownScope) && !scanFails
    {
      FinalizeKeepsSound(View(), sha256, t, req, uuid, fuel);
      AcceptedExactly(View(), sha256, t, req);
      VerdictInDetail(View(), sha256, t, req);
      if Judge(View(), sha256, t, req).Accepted? {
        AcceptanceIsRecorded(View(), sha256, t, req, uuid);
        AcceptanceInDetail(View(), sha256, t, req, uuid);
      } else {
        RefusalCommitsNothing(View(), sha256, t, req, uuid, fuel);
        RefusalInDetail(View(), sha256, t, req, uuid);
        if Judge(View(), sha256, t, req).Refused? { RefusedIsUntouched(View(), sha256, t, req, uuid, fuel); }
      }
      hide Sound, Extends, OccurrencesFrom, FinalizeSpec, Judge;
      r := FinalizeSteps(t, req, uuid, scanFails, fuel);
    }

    predicate OpenFor(t: Tenant, u: UploadId)
      reads this`sessions
    {
      u in sessions && sessions[u].tenant == t && sessions[u].state == Open
    }

    method FinalizeSteps(t: Tenant, req: FinalizeRequest, uuid: ArtifactId, scanFails: bool, fuel: Option<nat>)
      returns (r: Result<Finalized, ServerError>)
      modifies this`staging, this`objects, this`sessions, this`artifacts, this`occurrences, this`attempts, this`commits
      ensures View() == FinalizeSpec(old(View()), sha256, t, req, uuid, fuel)
      ensures r.Ok? ==>
                && old(Judge(View(), sha256, t, req)) == Accepted(r.value.digest)
                && ObjectKey(t, r.value.digest) in artifacts && artifacts[ObjectKey(t, r.value.digest)].id == r.value.artifact
      ensures fuel.None? ==> (r.Ok? <==> old(Judge(View(), sha256, t, req)).Accepted? && !scanFails)
      ensures r.Ok? ==> View() == FinalizeSpec(old(View()), sha256, t, req, uuid, None) && !scanFails
      ensures var v := old(Judge(View(), sha256, t, req));
              && (v.Refused? ==> r == Err(v.error))
              && (!v.Accepted? && fuel.None? ==> r == Err(ErrorOf(v)))
              && (v.Accepted? && fuel.None? && r.Err? ==> r.error == ScanFailed)
    {
      if req.upload !in sessions || sessions[req.upload].tenant != t { return Err(NotFound); }
      if !sessions[req.upload].state.Open? { return Err(Conflict); }
      if req.upload !in staging { return Err(NotFound); }
      var bytes := staging[req.upload];

      if |bytes| != req.size {
        if fuel == Some(0) { return Err(Crashed); }
        DiscardStaging(req.upload);
        if fuel == Some(1) { return Err(Crashed); }
        sessions := sessions[req.upload := sessions[req.upload].(state := Failed)];
        return Err(BadRequest);
      }

      var d := sha256(bytes);
      if req.sha != Some(d) {
        if fuel == Some(0) { return Err(Crashed); }
        attempts := attempts + [Attempt(t, HashMismatched, if req.sha.None? then Some(NoDigest) else req.sha)];
        sessions := sessions[req.upload := sessions[req.upload].(state := Failed)];
        if fuel == Some(1) { return Err(Crashed); }
        DiscardStaging(req.upload);
        return Err(HashMismatch);
      }

      var scope := if req.scope.Some? then req.scope.value else Endpoint;
      if scope.UnknownScope? {
        if fuel == Some(0) { return Err(Crashed); }
        DiscardStaging(req.upload);
        return Err(BadRequest);
      }

      if fuel == Some(0) { return Err(Crashed); }
      var promoted := Promote(req.upload, ObjectKey(t, d));
      if fuel == Some(1) { return Err(Crashed); }
      CommitTransaction(t, req, d, scope, uuid);
      if scanFails { return Err(ScanFailed); }
      return Ok(Finalized(artifacts[ObjectKey(t, d)].id, d));
    }

    /** Artifact, occurrence, attempt and session, all or nothing. */
    method CommitTransaction(t: Tenant, req: FinalizeRequest, d: Digest, scope: Scope, uuid: ArtifactId)
      requires req.upload in sessions
      modifies this`sessions, this`artifacts, this`occurrences, this`attempts, this`commits
      ensures sessions == old(sessions)[req.upload := old(sessions)[req.upload].(state := Committed)]
      ensures artifacts == (if ObjectKey(t, d) in old(artifacts) then old(artifacts)
                            else old(artifacts)[ObjectKey(t, d) := ArtifactRow(uuid, req.size, scope)])
      ensures occurrences == WithOccurrence(old(occurrences), t, req.occurrence, d)
      ensures attempts == old(attempts) + [Attempt(t, Captured, Some(d))]
      ensures commits == old(commits)[req.upload := d]
    {
      var key := ObjectKey(t, d);
      if key !in artifacts { artifacts := artifacts[key := ArtifactRow(uuid, req.size, scope)]; }
      occurrences := WithOccurrence(occurrences, t, req.occurrence, d);
      attempts := attempts + [Attempt(t, Captured, Some(d))];
      sessions := sessions[req.upload := sessions[req.upload].(state := Committed)];
      commits := commits[req.upload := d];
    }
  }
}
