/** The handoff from history to forward coverage (continuous.rs): commits, forward scans,
    activations and hunts as interleaved steps over one tenant's tables.

    A forward scan reads the active bundles once, when it begins, and then works through them;
    a hunt works through the artifacts at or below its watermark. Bundles are never switched
    off. */
module CoverageHandoff {
  import opened Options
  import opened Hunts

  datatype Plan = Plan(bundle: Digest, watermark: nat)

  /** `snapshots[i]` is what the forward scans of the i-th commit have found active: one scan,
      or several when the same bytes are uploaded again. */
  datatype State = State(
    artifacts: seq<Artifact>,
    active: set<Digest>,
    snapshots: map<nat, set<Digest>>,
    plans: map<HuntId, Plan>,
    cached: set<CacheKey>)

  datatype Event =
    | Activate(bundle: Digest)
    | Commit(id: ArtifactId, sha: Sha, endpoint: bool, skipped: nat)
    | BeginForward(i: nat)
    | ForwardOne(i: nat, bundle: Digest)
    | Enqueue(hunt: HuntId, bundle: Digest)
    | HuntOne(hunt: HuntId, i: nat)

  const START: State := State([], {}, map[], map[], {})

  ghost predicate Stored(s: State, sha: Sha) {
    exists i :: 0 <= i < |s.artifacts| && s.artifacts[i].sha == sha
  }

  ghost function Found(s: State, i: nat): set<Digest> {
    if i in s.snapshots then s.snapshots[i] else {}
  }

  /** The i-th commit lies in the pinned set of the plan. */
  ghost predicate PlannedAt(s: State, h: HuntId, i: nat) {
    h in s.plans && i < |s.artifacts| && s.artifacts[i].endpoint && s.artifacts[i].seqno <= s.plans[h].watermark
  }

  ghost function Step(s: State, e: Event): State {
    match e
    case Activate(b) => s.(active := s.active + {b})
    case Commit(id, sha, endpoint, skipped) =>
      if Stored(s, sha) then s
      else s.(artifacts := s.artifacts + [Artifact(id, sha, MaxSeq(s.artifacts) + 1 + skipped, endpoint)])
    case BeginForward(i) =>
      if i < |s.artifacts| then s.(snapshots := s.snapshots[i := Found(s, i) + s.active]) else s
    case ForwardOne(i, b) =>
      if i < |s.artifacts| && b in Found(s, i)
      then s.(cached := s.cached + {CacheKey(s.artifacts[i].sha, b)}) else s
    case Enqueue(h, b) =>
      if h !in s.plans then s.(plans := s.plans[h := Plan(b, MaxSeq(s.artifacts))]) else s
    case HuntOne(h, i) =>
      if PlannedAt(s, h, i)
      then s.(cached := s.cached + {CacheKey(s.artifacts[i].sha, s.plans[h].bundle)}) else s
  }

  ghost function After(s: State, events: seq<Event>): State {
    if events == [] then s else Step(After(s, events[..|events| - 1]), events[|events| - 1])
  }

  /** Every active bundle the scans of the i-th commit found has been scanned. */
  ghost predicate ForwardDone(s: State, i: nat) {
    i < |s.artifacts| && i in s.snapshots && forall b :: b in s.snapshots[i] ==> CacheKey(s.artifacts[i].sha, b) in s.cached
  }

  ghost predicate AllForwardDone(s: State) {
    forall i: nat :: i < |s.artifacts| ==> ForwardDone(s, i)
  }

  ghost predicate HuntDone(s: State, h: HuntId) {
    h in s.plans && forall i: nat :: PlannedAt(s, h, i) ==> CacheKey(s.artifacts[i].sha, s.plans[h].bundle) in s.cached
  }

  ghost predicate Covered(s: State, b: Digest) {
    forall i: nat :: i < |s.artifacts| && s.artifacts[i].endpoint ==> CacheKey(s.artifacts[i].sha, b) in s.cached
  }

  // ---------------------------------------------------------------- what every run keeps

  /** Somebody has the i-th commit to scan with `b`: a forward scan that found it active, or a
      hunt that has it pinned. */
  ghost predicate Reached(s: State, b: Digest, i: nat) {
    b in Found(s, i) || exists h :: PlannedAt(s, h, i) && s.plans[h].bundle == b
  }

  ghost predicate Stems(s: State, k: CacheKey) {
    exists i: nat :: i < |s.artifacts| && s.artifacts[i].sha == k.sha && Reached(s, k.bundle, i)
  }

  /** Commits are in order and unique, scans belong to commits, and whatever is cached stems
      from somebody's task. */
  ghost predicate Regular(s: State) {
    && InCommitOrder(s.artifacts, MaxSeq(s.artifacts) + 1)
    && (forall i :: i in s.snapshots ==> i < |s.artifacts|)
    && (forall k :: k in s.cached ==> Stems(s, k))
  }

  /** Commits, snapshots and plans only grow. */
  ghost predicate Grows(s: State, s': State) {
    && s.artifacts <= s'.artifacts
    && (forall i :: i in s.snapshots ==> i in s'.snapshots && s.snapshots[i] <= s'.snapshots[i])
    && (forall h :: h in s.plans ==> h in s'.plans && s'.plans[h] == s.plans[h])
  }

  lemma ReachedStays(s: State, s': State, b: Digest, i: nat)
    requires Grows(s, s') && i < |s.artifacts| && Reached(s, b, i)
    ensures Reached(s', b, i)
  {
    if b !in Found(s, i) {
      var h :| PlannedAt(s, h, i) && s.plans[h].bundle == b;
      assert PlannedAt(s', h, i);
    }
  }

  lemma StemsStays(s: State, s': State, k: CacheKey)
    requires Grows(s, s') && Stems(s, k)
    ensures Stems(s', k)
  {
    var i: nat :| i < |s.artifacts| && s.artifacts[i].sha == k.sha && Reached(s, k.bundle, i);
    ReachedStays(s, s', k.bundle, i);
  }

  lemma {:induction false} MaxSeqIsBound(artifacts: seq<Artifact>)
    ensures forall i :: 0 <= i < |artifacts| ==> artifacts[i].seqno <= MaxSeq(artifacts)
  {
    if artifacts != [] { MaxSeqIsBound(artifacts[..|artifacts| - 1]); }
  }

  lemma StepGrows(s: State, e: Event)
    ensures Grows(s, Step(s, e))
  {
  }

  lemma StepKeepsOrder(s: State, e: Event)
    requires InCommitOrder(s.artifacts, MaxSeq(s.artifacts) + 1)
    ensures InCommitOrder(Step(s, e).artifacts, MaxSeq(Step(s, e).artifacts) + 1)
  {
    MaxSeqIsBound(s.artifacts);
    MaxSeqIsBound(Step(s, e).artifacts);
    hide MaxSeq;
  }

  lemma ScansBelongToCommits(s: State, e: Event)
    requires forall i :: i in s.snapshots ==> i < |s.artifacts|
    ensures forall i :: i in Step(s, e).snapshots ==> i < |Step(s, e).artifacts|
  {
    hide MaxSeq;
  }

  lemma StepKeepsRegular(s: State, e: Event)
    requires Regular(s)
    ensures Regular(Step(s, e))
  {
    hide InCommitOrder, Stems, Grows, Step, MaxSeq;
    var s' := Step(s, e);
    StepKeepsOrder(s, e);
    StepGrows(s, e);
    ScansBelongToCommits(s, e);
    forall k | k in s'.cached ensures Stems(s', k) {
      if k in s.cached { StemsStays(s, s', k); } else { NewKeyStems(s, e, k); }
    }
  }

  lemma NewKeyStems(s: State, e: Event, k: CacheKey)
    requires k in Step(s, e).cached && k !in s.cached
    ensures Stems(Step(s, e), k)
  {
    var s' := Step(s, e);
    match e
    case ForwardOne(i, b) => assert Reached(s', b, i);
    case HuntOne(h, i) => assert PlannedAt(s', h, i) && Reached(s', s'.plans[h].bundle, i);
    case _ =>
  }

  lemma {:induction false} RunsAreRegular(s: State, events: seq<Event>)
    requires Regular(s)
    ensures Regular(After(s, events)) && Grows(s, After(s, events))
  {
    hide Regular, Step;
    if events != [] {
      RunsAreRegular(s, events[..|events| - 1]);
      StepKeepsRegular(After(s, events[..|events| - 1]), events[|events| - 1]);
      StepGrows(After(s, events[..|events| - 1]), events[|events| - 1]);
    }
  }

  // ---------------------------------------------------------------- exactly when nothing is missed

  /** Once the hunts for a bundle and all forward scans have ended, every endpoint artifact is
      cached for it if and only if each one was somebody's task. */
  lemma CoverageIsExact(s: State, b: Digest)
    requires Regular(s) && AllForwardDone(s)
    requires forall h :: h in s.plans && s.plans[h].bundle == b ==> HuntDone(s, h)
    ensures Covered(s, b) <==> forall i: nat :: i < |s.artifacts| && s.artifacts[i].endpoint ==> Reached(s, b, i)
  {
    forall i: nat | i < |s.artifacts| && s.artifacts[i].endpoint
      ensures CacheKey(s.artifacts[i].sha, b) in s.cached <==> Reached(s, b, i)
    {
      TaskIsDone(s, b, i);
    }
  }

  lemma TaskIsDone(s: State, b: Digest, i: nat)
    requires Regular(s) && AllForwardDone(s) && i < |s.artifacts|
    requires forall h :: h in s.plans && s.plans[h].bundle == b ==> HuntDone(s, h)
    ensures CacheKey(s.artifacts[i].sha, b) in s.cached <==> Reached(s, b, i)
  {
    var k := CacheKey(s.artifacts[i].sha, b);
    assert ForwardDone(s, i);
    if k in s.cached {
      assert Stems(s, k);
      var j: nat :| j < |s.artifacts| && s.artifacts[j].sha == k.sha && Reached(s, k.bundle, j);
      assert i == j;
    }
    if Reached(s, b, i) && b !in Found(s, i) {
      var h :| PlannedAt(s, h, i) && s.plans[h].bundle == b;
      assert HuntDone(s, h);
    }
  }

  ghost predicate OnlyPlan(s: State, h: HuntId, b: Digest) {
    forall g :: g in s.plans ==> (s.plans[g].bundle == b <==> g == h)
  }

  /** With one hunt for the bundle: covered if and only if every later commit's forward scan
      found the bundle active. */
  lemma OneHuntCoversExactly(s: State, h: HuntId, b: Digest)
    requires Regular(s) && AllForwardDone(s) && OnlyPlan(s, h, b) && HuntDone(s, h)
    ensures Covered(s, b) <==>
              forall i: nat :: i < |s.artifacts| && s.artifacts[i].endpoint && s.artifacts[i].seqno > s.plans[h].watermark ==>
                b in Found(s, i)
  {
    CoverageIsExact(s, b);
    forall i: nat | i < |s.artifacts| && s.artifacts[i].endpoint
      ensures Reached(s, b, i) <==> (s.artifacts[i].seqno > s.plans[h].watermark ==> b in Found(s, i))
    {
      if s.artifacts[i].seqno <= s.plans[h].watermark { assert PlannedAt(s, h, i); }
    }
  }

  /** From the activation on, a scan finds the bundle if it begins, and only then. */
  lemma {:induction false} LaterScansFind(s: State, b: Digest, events: seq<Event>, i: nat)
    requires b in s.active && Regular(s)
    ensures b in After(s, events).active
    ensures i < |s.artifacts| ==> (b in Found(After(s, events), i) <==> b in Found(s, i) || BeginForward(i) in events)
    ensures i >= |s.artifacts| && i in After(s, events).snapshots ==> b in Found(After(s, events), i)
  {
    hide After, Step;
    LastStep(s, events);
    if events == [] { return; }
    hide Regular;
    var init, last := events[..|events| - 1], events[|events| - 1];
    LaterScansFind(s, b, init, i);
    RunsAreRegular(s, init);
    StepFinds(After(s, init), b, last, i);
    assert events == init + [last];
  }

  lemma LastStep(s: State, events: seq<Event>)
    ensures events == [] ==> After(s, events) == s
    ensures events != [] ==> After(s, events) == Step(After(s, events[..|events| - 1]), events[|events| - 1])
  {
  }

  lemma StepFinds(s: State, b: Digest, e: Event, i: nat)
    requires b in s.active
    ensures b in Step(s, e).active
    ensures b in Found(Step(s, e), i) <==> b in Found(s, i) || (e == BeginForward(i) && i < |s.artifacts|)
    ensures i in Step(s, e).snapshots ==> i in s.snapshots || (e == BeginForward(i) && i < |s.artifacts|)
  {
    hide MaxSeq;
  }

  /** An activation that reuses a hunt with an older watermark: once that hunt and all forward
      scans have ended, nothing is missed if and only if each endpoint artifact committed above
      the watermark before the activation was, or is later, scanned with the bundle active. */
  lemma ReuseIsSafeExactly(before: seq<Event>, h: HuntId, b: Digest, after: seq<Event>)
    requires h in After(START, before).plans
    requires var s := After(Step(After(START, before), Activate(b)), after);
             AllForwardDone(s) && OnlyPlan(s, h, b) && HuntDone(s, h)
    ensures var s0 := After(START, before);
            Covered(After(Step(s0, Activate(b)), after), b) <==>
              forall i: nat :: i < |s0.artifacts| && s0.artifacts[i].endpoint && s0.artifacts[i].seqno > s0.plans[h].watermark ==>
                b in Found(s0, i) || BeginForward(i) in after
  {
    var s0 := After(START, before);
    var s1 := Step(s0, Activate(b));
    var s := After(s1, after);
    StartIsRegular();
    RunsAreRegular(START, before);
    StepKeepsRegular(s0, Activate(b));
    RunsAreRegular(s1, after);
    assert s1.artifacts == s0.artifacts && s1.plans == s0.plans && s1.snapshots == s0.snapshots;
    hide After, Regular;
    OneHuntCoversExactly(s, h, b);
    assert s.plans[h] == s0.plans[h];
    forall i: nat | i < |s.artifacts|
      ensures b in Found(s, i) <==> (i < |s0.artifacts| ==> b in Found(s0, i) || BeginForward(i) in after)
      ensures i < |s0.artifacts| ==> s.artifacts[i] == s0.artifacts[i]
    {
      LaterScansFind(s1, b, after, i);
      assert ForwardDone(s, i);
    }
  }

  /** As a check on the tables at the time of the activation, when no commit is scanned twice:
      the reused hunt is enough if and only if no endpoint artifact above its watermark has had
      its forward scan begun without the bundle. */
  lemma ReuseCheck(before: seq<Event>, h: HuntId, b: Digest, after: seq<Event>)
    requires h in After(START, before).plans
    requires var s := After(Step(After(START, before), Activate(b)), after);
             AllForwardDone(s) && OnlyPlan(s, h, b) && HuntDone(s, h)
    requires forall i: nat :: i in After(START, before).snapshots ==> BeginForward(i) !in after
    ensures var s0 := After(START, before);
            Covered(After(Step(s0, Activate(b)), after), b) <==>
              forall i: nat :: i in s0.snapshots && i < |s0.artifacts| && s0.artifacts[i].endpoint
                               && s0.artifacts[i].seqno > s0.plans[h].watermark ==>
                b in s0.snapshots[i]
  {
    var s0 := After(START, before);
    var s1 := Step(s0, Activate(b));
    var s := After(s1, after);
    ReuseIsSafeExactly(before, h, b, after);
    StartIsRegular();
    RunsAreRegular(START, before);
    StepKeepsRegular(s0, Activate(b));
    RunsAreRegular(s1, after);
    assert s1.artifacts == s0.artifacts && s1.snapshots == s0.snapshots && s0.artifacts <= s.artifacts;
    hide After, Regular;
    forall i: nat | i < |s0.artifacts| && i !in s0.snapshots ensures BeginForward(i) in after {
      assert ForwardDone(s, i);
      ScansBegin(s1, after, i);
    }
  }

  lemma {:induction false} ScansBegin(s: State, events: seq<Event>, i: nat)
    requires i !in s.snapshots && i in After(s, events).snapshots
    ensures BeginForward(i) in events
  {
    if events != [] {
      var init, last := events[..|events| - 1], events[|events| - 1];
      assert events == init + [last];
      if i in After(s, init).snapshots { ScansBegin(s, init, i); }
    }
  }

  lemma StartIsRegular()
    ensures Regular(START)
  {
  }

  /** A hunt planned after the bundle became active never misses: nothing is above its watermark
      when it is planned, and every later scan finds the bundle. */
  lemma NoHoleBetweenHistoryAndForward(before: seq<Event>, h: HuntId, b: Digest, after: seq<Event>)
    requires b in After(START, before).active && h !in After(START, before).plans
    requires var s := After(Step(After(START, before), Enqueue(h, b)), after);
             HuntDone(s, h) && AllForwardDone(s)
    ensures Covered(After(Step(After(START, before), Enqueue(h, b)), after), b)
  {
    var s0 := After(START, before);
    var s1 := Step(s0, Enqueue(h, b));
    var s := After(s1, after);
    StartIsRegular();
    RunsAreRegular(START, before);
    StepKeepsRegular(s0, Enqueue(h, b));
    RunsAreRegular(s1, after);
    MaxSeqIsBound(s0.artifacts);
    hide After, Regular;
    assert s1.plans[h] == Plan(b, MaxSeq(s0.artifacts)) == s.plans[h] && s1.artifacts == s0.artifacts;
    forall i: nat | i < |s.artifacts| && s.artifacts[i].endpoint ensures CacheKey(s.artifacts[i].sha, b) in s.cached {
      assert ForwardDone(s, i);
      if i < |s0.artifacts| {
        assert s.artifacts[i] == s0.artifacts[i] && PlannedAt(s, h, i);
      } else {
        LaterScansFind(s1, b, after, i);
      }
    }
  }

  /** A hunt planned before the activation leaves a commit made in between to nobody, unless the
      bundle is found active by a scan of it. */
  lemma OlderWatermarkLeavesHole(h: HuntId, b: Digest, id: ArtifactId, sha: Sha)
    ensures var s := After(START, [Enqueue(h, b), Event.Commit(id, sha, true, 0), BeginForward(0), Activate(b)]);
            b in s.active && HuntDone(s, h) && AllForwardDone(s) && !Covered(s, b)
  {
    var e1, e2, e3, e4 := Enqueue(h, b), Event.Commit(id, sha, true, 0), BeginForward(0), Activate(b);
    var s1 := START.(plans := map[h := Plan(b, 0)]);
    var s2 := s1.(artifacts := [Artifact(id, sha, 1, true)]);
    var s3 := s2.(snapshots := map[0 := {}]);
    assert Found(s2, 0) + s2.active == {} && s3.active + {b} == {b};
    assert Step(START, e1) == s1 && Step(s1, e2) == s2 && Step(s2, e3) == s3 && Step(s3, e4) == s3.(active := {b});
    hide Step;
    FourSteps(e1, e2, e3, e4);
    hide After;
    assert s3.artifacts[0].endpoint;
  }

  lemma FourSteps(e1: Event, e2: Event, e3: Event, e4: Event)
    ensures After(START, [e1, e2, e3, e4]) == Step(Step(Step(Step(START, e1), e2), e3), e4)
  {
    hide Step;
    var e := [e1, e2, e3, e4];
    assert e[..3] == [e1, e2, e3] && e[..3][..2] == [e1, e2] && [e1, e2][..1] == [e1] && [e1][..0] == [];
    LastStep(START, e);
    LastStep(START, [e1, e2, e3]);
    LastStep(START, [e1, e2]);
    LastStep(START, [e1]);
    hide After;
  }

  // ---------------------------------------------------------------- the tables themselves

  /** The hunt tables as a state of this model; the snapshots are in no table. */
  ghost function StateOf(db: HuntDb, snapshots: map<nat, set<Digest>>): State
    reads db
  {
    State(db.artifacts, db.active, snapshots,
          map h | h in db.hunts && db.hunts[h].retro && db.hunts[h].watermark.Some? :: Plan(db.hunts[h].bundle, db.hunts[h].watermark.value),
          db.cache.Keys)
  }

  /** A hunt that runs to its end is done. */
  method RunToTheEnd(db: HuntDb, h: HuntId, ghost snapshots: map<nat, set<Digest>>) returns (r: Result<Hunt, HuntError>)
    requires db.Resumable(h)
    modifies db
    ensures db.Valid() && r.Ok?
    ensures HuntDone(StateOf(db, snapshots), h)
  {
    RunnableNow(db, h);
    hide HuntDb.Valid, Rows, Totals, FinalState, Pinned;
    r := db.ExecuteHunt(h, None);
    ghost var s := StateOf(db, snapshots);
    forall i: nat | PlannedAt(s, h, i) ensures CacheKey(s.artifacts[i].sha, s.plans[h].bundle) in s.cached {
      PinnedAre(db.artifacts, db.hunts[h].watermark.value, db.artifacts[i]);
    }
  }

  lemma RunnableNow(db: HuntDb, h: HuntId)
    requires db.Resumable(h)
    ensures db.world.tierOk && db.world.compiles(db.hunts[h].bundle)
  {
    assert HuntOk(db.world, db.artifacts, db.matches, h, db.hunts[h]);
  }

  /** A forward scan that ends well is done with every bundle it found active. */
  method ScanToTheEnd(db: HuntDb, i: nat, ghost snapshots: map<nat, set<Digest>>) returns (r: Result<seq<RuleId>, HuntError>)
    requires db.Valid() && i < |db.artifacts| && db.artifacts[i].sha in db.world.objects
    modifies db
    ensures db.Valid()
    ensures r.Ok? ==> ForwardDone(StateOf(db, snapshots[i := db.active]), i)
  {
    hide HuntDb.Valid;
    r := db.ForwardScan(db.artifacts[i], None);
  }
}
