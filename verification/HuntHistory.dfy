/** Whole histories of the hunt tables: everything that happens to them, each operation whole or
    cut at any of its writes, from the empty database on. */
module HuntHistory {
  import opened Options
  import opened Hunts

  /** `Forwarded` names an artifact by its place in commit order. */
  datatype Event =
    | Committed(id: ArtifactId, sha: Sha, endpoint: bool, skipped: nat)
    | Forwarded(i: nat, fuel: Option<nat>)
    | Created(hunt: HuntId, bundle: Digest, at: nat)
    | Enqueued(hunt: HuntId, at: nat, fuel: Option<nat>)
    | Claimed
    | Ran(hunt: HuntId, fuel: Option<nat>)
    | Activated(bundle: Digest, hunt: HuntId, at: nat)
    | Reexamined(bundle: Digest, hunt: HuntId, at: nat, fuel: Option<nat>)

  /** Hunts are never lost or turned into others, and a pinned watermark pins the same artifacts
      for good. */
  ghost predicate PlansKept(hunts: map<HuntId, Hunt>, artifacts: seq<Artifact>, hunts': map<HuntId, Hunt>, artifacts': seq<Artifact>) {
    forall h :: h in hunts ==>
      && h in hunts' && SameOrPinned(hunts[h], hunts'[h])
      && (hunts[h].watermark.Some? ==> Pinned(artifacts', hunts[h].watermark.value) == Pinned(artifacts, hunts[h].watermark.value))
  }

  lemma PlansKeptTrans(h0: map<HuntId, Hunt>, a0: seq<Artifact>, h1: map<HuntId, Hunt>, a1: seq<Artifact>, h2: map<HuntId, Hunt>, a2: seq<Artifact>)
    requires PlansKept(h0, a0, h1, a1) && PlansKept(h1, a1, h2, a2)
    ensures PlansKept(h0, a0, h2, a2)
  {
    hide Pinned;
  }

  lemma PlansKeptBySame(hunts: map<HuntId, Hunt>, artifacts: seq<Artifact>, hunts': map<HuntId, Hunt>)
    requires hunts.Keys <= hunts'.Keys && forall h :: h in hunts ==> SameOrPinned(hunts[h], hunts'[h])
    ensures PlansKept(hunts, artifacts, hunts', artifacts)
  {
    hide Pinned;
  }

  lemma PlansKeptByCommit(hunts: map<HuntId, Hunt>, artifacts: seq<Artifact>, a: Artifact)
    requires WatermarksBelow(hunts, a.seqno)
    ensures PlansKept(hunts, artifacts, hunts, artifacts + [a])
  {
    forall h | h in hunts && hunts[h].watermark.Some?
      ensures Pinned(artifacts + [a], hunts[h].watermark.value) == Pinned(artifacts, hunts[h].watermark.value)
    {
      LaterCommitsStayOut(artifacts, a, hunts[h].watermark.value);
    }
  }

  /** Nothing is taken back: results, rows, artifacts and active bundles stay. */
  twostate predicate Grows(db: HuntDb)
    reads db
  {
    && old(db.cache).Keys <= db.cache.Keys && old(db.matches) <= db.matches
    && old(db.artifacts) <= db.artifacts && old(db.active) <= db.active
    && PlansKept(old(db.hunts), old(db.artifacts), db.hunts, db.artifacts)
  }

  /** One event; an id already in use is not drawn again. */
  method Step(db: HuntDb, e: Event)
    requires db.Valid()
    modifies db
    ensures db.Valid()
    ensures Grows(db)
  {
    hide HuntDb.Valid;
    match e
    case Committed(id, sha, endpoint, skipped) =>
      if forall a :: a in db.artifacts ==> a.id != id { Commit(db, id, sha, endpoint, skipped); }
      else { PlansKeptBySame(old(db.hunts), db.artifacts, db.hunts); }
    case Forwarded(i, fuel) =>
      if i < |db.artifacts| && db.artifacts[i].sha in db.world.objects {
        var _ := db.ForwardScan(db.artifacts[i], fuel);
      }
      PlansKeptBySame(old(db.hunts), db.artifacts, db.hunts);
    case Created(h, b, at) =>
      if h !in db.hunts { db.CreateHunt(b, h, at); }
      PlansKeptBySame(old(db.hunts), db.artifacts, db.hunts);
    case Enqueued(h, at, fuel) =>
      var _ := db.EnqueueHunt(h, at, fuel);
      PlansKeptBySame(old(db.hunts), db.artifacts, db.hunts);
    case Claimed =>
      var _ := db.ClaimNextJob();
      PlansKeptBySame(old(db.hunts), db.artifacts, db.hunts);
    case Ran(h, fuel) =>
      var _ := db.ExecuteHunt(h, fuel);
      PlansKeptBySame(old(db.hunts), db.artifacts, db.hunts);
    case Activated(b, h, at) =>
      if h !in db.hunts { db.Activate(b, h, at); }
      PlansKeptBySame(old(db.hunts), db.artifacts, db.hunts);
    case Reexamined(b, h, at, fuel) =>
      if h !in db.hunts { var _ := db.OnBundleActivated(b, h, at, fuel); }
      PlansKeptBySame(old(db.hunts), db.artifacts, db.hunts);
  }

  method Commit(db: HuntDb, id: ArtifactId, sha: Sha, endpoint: bool, skipped: nat)
    requires db.Valid() && forall a :: a in db.artifacts ==> a.id != id
    modifies db`artifacts, db`nextSeq
    ensures db.Valid()
    ensures PlansKept(old(db.hunts), old(db.artifacts), db.hunts, db.artifacts) && old(db.artifacts) <= db.artifacts
  {
    PlansKeptByCommit(db.hunts, db.artifacts, Artifact(id, sha, db.nextSeq + skipped, endpoint));
    PlansKeptBySame(db.hunts, db.artifacts, db.hunts);
    hide HuntDb.Valid, PlansKept;
    db.CommitArtifact(id, sha, endpoint, skipped);
  }

  /** Any number of events. */
  method Steps(db: HuntDb, history: seq<Event>)
    requires db.Valid()
    modifies db
    ensures db.Valid()
    ensures PlansKept(old(db.hunts), old(db.artifacts), db.hunts, db.artifacts)
  {
    hide HuntDb.Valid;
    PlansKeptBySame(db.hunts, db.artifacts, db.hunts);
    for i := 0 to |history|
      invariant db.Valid()
      invariant PlansKept(old(db.hunts), old(db.artifacts), db.hunts, db.artifacts)
    {
      ghost var h1, a1 := db.hunts, db.artifacts;
      Step(db, history[i]);
      PlansKeptTrans(old(db.hunts), old(db.artifacts), h1, a1, db.hunts, db.artifacts);
    }
  }

  /** A full run of a planned hunt ends with the rows, the counters and the state that its pinned
      artifacts determine, whatever rows earlier runs have left. */
  method FullRun(db: HuntDb, h: HuntId) returns (r: Result<Hunt, HuntError>)
    requires db.Valid()
    modifies db
    ensures db.Valid()
    ensures r.Ok? <==> old(db.Resumable(h))
    ensures r.Ok? ==>
              var b, pinned := old(db.hunts)[h].bundle, old(db.PinnedOf(h));
              && h in db.hunts && r.value == db.hunts[h]
              && db.artifacts == old(db.artifacts) && SamePlan(db.hunts[h], old(db.hunts)[h])
              && RowsOfHunt(db.matches, h) == Rows(db.world, h, b, pinned)
              && r.value.tally == Totals(db.world, b, pinned)
              && r.value.state == FinalState(Totals(db.world, b, pinned))
              && Cached(db.cache, b, pinned)
    ensures r.Ok? ==> old(db.hunts)[h].watermark.Some? && VerdictOf(db, h, old(db.hunts)[h].bundle, old(db.artifacts), old(db.hunts)[h].watermark.value)
  {
    if h in db.hunts { RowsOfPlanned(db, h); }
    hide VerdictOf, Rows, Totals, FinalState, Pinned, HuntsOk, InCommitOrder, CacheSound, Cached;
    ghost var matches0 := db.matches;
    r := db.ExecuteHunt(h, None);
    if r.Ok? {
      RowsAddUp(db.world, h, db.hunts[h].bundle, db.PinnedOf(h), matches0, db.matches);
      if db.PinnedOf(h) == [] { NothingYet(db.world, h, db.hunts[h].bundle); }
      VerdictFollows(db, h, db.hunts[h].bundle, db.artifacts, db.hunts[h].watermark.value);
    }
  }

  /** Rows, state and counters of the hunt, in terms of what the scanner says of the stored bytes
      of the endpoint's artifacts at or below the watermark. */
  ghost predicate VerdictOf(db: HuntDb, h: HuntId, b: Digest, artifacts: seq<Artifact>, watermark: nat)
    reads db
  {
    && h in db.hunts
    && RowsAre(db.world, h, b, artifacts, watermark, db.matches)
    && StateIs(db.world, b, artifacts, watermark, db.hunts[h].state)
    && CountersAre(db.world, b, artifacts, watermark, db.hunts[h].tally)
  }

  lemma VerdictFollows(db: HuntDb, h: HuntId, b: Digest, artifacts: seq<Artifact>, watermark: nat)
    requires h in db.hunts && RowsOfHunt(db.matches, h) == Rows(db.world, h, b, Pinned(artifacts, watermark))
    requires db.hunts[h].tally == Totals(db.world, b, Pinned(artifacts, watermark))
    requires db.hunts[h].state == FinalState(Totals(db.world, b, Pinned(artifacts, watermark)))
    ensures VerdictOf(db, h, b, artifacts, watermark)
  {
    RowsInScans(db.world, h, b, artifacts, watermark, db.matches);
    StateInScans(db.world, b, artifacts, watermark);
    CountersInScans(db.world, b, artifacts, watermark);
    hide Rows, Totals, FinalState, Pinned, RowsAre, StateIs, CountersAre;
  }

  lemma RowsOfPlanned(db: HuntDb, h: HuntId)
    requires db.Valid() && h in db.hunts
    ensures HuntOk(db.world, db.artifacts, db.matches, h, db.hunts[h])
  {
  }

  lemma RowsAddUp(w: World, h: HuntId, b: Digest, pinned: seq<Artifact>, matches: set<MatchRow>, matches': set<MatchRow>)
    requires RowsOfHunt(matches, h) <= Rows(w, h, b, pinned) && matches' == matches + Rows(w, h, b, pinned)
    ensures RowsOfHunt(matches', h) == Rows(w, h, b, pinned)
  {
    RowsBelongToHunt(w, h, b, pinned);
    hide Rows;
    forall m | m in RowsOfHunt(matches', h) ensures m in Rows(w, h, b, pinned) {
      if m in matches { assert m in RowsOfHunt(matches, h); }
    }
  }

  /** Planned, then disturbed in any way: runs cut anywhere, commits, forward scans, other hunts,
      planning anew. The next full run ends as the artifacts pinned at the start determine. */
  method RerunAfterCrashes(db: HuntDb, h: HuntId, history: seq<Event>) returns (r: Result<Hunt, HuntError>)
    requires db.Resumable(h)
    modifies db
    ensures var b, pinned := old(db.hunts)[h].bundle, old(db.PinnedOf(h));
            && r.Ok? && db.Valid() && h in db.hunts
            && RowsOfHunt(db.matches, h) == Rows(db.world, h, b, pinned)
            && r.value.tally == Totals(db.world, b, pinned)
            && r.value.state == FinalState(Totals(db.world, b, pinned))
            && Cached(db.cache, b, pinned)
            && r.value == db.hunts[h]
    ensures VerdictOf(db, h, old(db.hunts)[h].bundle, old(db.artifacts), old(db.hunts)[h].watermark.value)
  {
    hide HuntDb.Valid, Rows, Totals, FinalState, Pinned, Cached, VerdictOf;
    ghost var b, artifacts, watermark := db.hunts[h].bundle, db.artifacts, db.hunts[h].watermark.value;
    Steps(db, history);
    r := FullRun(db, h);
    VerdictFollows(db, h, b, artifacts, watermark);
  }

  /** From the empty database: after any history, a full run of any hunt succeeds exactly when
      the hunt has been planned, and then ends as its pinned artifacts determine. */
  method RunFromEmpty(w: World, history: seq<Event>, h: HuntId) returns (db: HuntDb, planned: bool, r: Result<Hunt, HuntError>)
    ensures db.Valid() && db.world == w
    ensures r.Ok? <==> planned
    ensures r.Ok? ==>
              && h in db.hunts && r.value == db.hunts[h] && db.hunts[h].watermark.Some?
              && RowsOfHunt(db.matches, h) == Rows(w, h, db.hunts[h].bundle, db.PinnedOf(h))
              && r.value.tally == Totals(w, db.hunts[h].bundle, db.PinnedOf(h))
              && r.value.state == FinalState(Totals(w, db.hunts[h].bundle, db.PinnedOf(h)))
              && Cached(db.cache, db.hunts[h].bundle, db.PinnedOf(h))
              && VerdictOf(db, h, db.hunts[h].bundle, db.artifacts, db.hunts[h].watermark.value)
  {
    hide HuntDb.Valid, Rows, Totals, FinalState, Pinned, Cached, VerdictOf;
    db := new HuntDb(w);
    Steps(db, history);
    planned := h in db.hunts && db.hunts[h].retro && db.hunts[h].watermark.Some?;
    r := FullRun(db, h);
  }
}
