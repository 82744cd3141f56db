/** Runs and forward scans taken apart into their single writes (hunts.rs), so that uploads,
    other scans, other runs and everything else can happen between any two of them. */
module HuntInterleaving {
  import opened Options
  import opened Hunts
  import opened HuntHistory

  // ---------------------------------------------------------------- a run and where it stands

  /** What a run does next. Each step makes at most one write. */
  datatype RunStep =
    | ToRunning
    | ToClaim
    | ToRead
    | ToLook
    | ToCache(t: Outcome)
    | ToRow(hit: bool, t: Outcome, j: nat)
    | ToCount(hit: bool, t: Outcome)
    | ToState
    | ToJob
    | Ended

  /** The variables of a run. `alone` says that nobody else has changed the hunt's counters since
      it began. */
  datatype Run = Run(
    hunt: HuntId,
    bundle: Digest,
    watermark: nat,
    planned: seq<Artifact>,
    next: nat,
    step: RunStep,
    scanned: nat,
    cacheHits: nat,
    tally: Tally,
    alone: bool)

  predicate Opening(run: Run) {
    run.step.ToRunning? || run.step.ToClaim? || run.step.ToRead?
  }

  predicate Closing(run: Run) {
    run.step.ToState? || run.step.ToJob? || run.step.Ended?
  }

  /** The hunt is still the one the run began with. */
  ghost predicate PlanOk(hunts: map<HuntId, Hunt>, run: Run) {
    && run.hunt in hunts && hunts[run.hunt].retro && hunts[run.hunt].bundle == run.bundle
    && hunts[run.hunt].watermark == Some(run.watermark)
  }

  /** Everything before `next` is covered, and the counters say so. */
  ghost predicate ProgressOk(w: World, cache: map<CacheKey, Outcome>, matches: set<MatchRow>, run: Run) {
    && run.next <= |run.planned|
    && Cached(cache, run.bundle, run.planned[..run.next])
    && Rows(w, run.hunt, run.bundle, run.planned[..run.next]) <= matches
    && run.tally == Totals(w, run.bundle, run.planned[..run.next])
  }

  /** What is known about the artifact in hand. */
  ghost predicate StepOk(w: World, cache: map<CacheKey, Outcome>, matches: set<MatchRow>, run: Run) {
    if Opening(run) then run.next == 0 && run.planned == []
    else if Closing(run) then run.next == |run.planned|
    else
      && run.next < |run.planned|
      && var a := run.planned[run.next];
         var t := Terminal(w, run.bundle, a.sha);
         match run.step
         case ToCache(found) => found == t
         case ToRow(_, found, j) =>
           && found == t && t.status.Matched? && j < |t.rules| && CacheKey(a.sha, run.bundle) in cache
           && RuleRows(run.hunt, a.id, t.rules[..j]) <= matches
         case ToCount(_, found) =>
           found == t && CacheKey(a.sha, run.bundle) in cache && RowsOf(w, run.hunt, run.bundle, a) <= matches
         case _ => true
  }

  /** The tables at one time. */
  datatype Tables = Tables(
    world: World,
    artifacts: seq<Artifact>,
    cache: map<CacheKey, Outcome>,
    matches: set<MatchRow>,
    hunts: map<HuntId, Hunt>)

  ghost function Now(db: HuntDb): Tables
    reads db
  {
    Tables(db.world, db.artifacts, db.cache, db.matches, db.hunts)
  }

  ghost predicate RunFits(now: Tables, run: Run) {
    && PlanOk(now.hunts, run)
    && (!Opening(run) ==> run.planned == Pinned(now.artifacts, run.watermark))
    && ProgressOk(now.world, now.cache, now.matches, run)
    && StepOk(now.world, now.cache, now.matches, run)
    && (run.alone && run.next > 0 ==> now.hunts[run.hunt].tally == run.tally)
  }

  ghost predicate RunOk(db: HuntDb, run: Run)
    reads db
  {
    RunFits(Now(db), run)
  }

  /** The rows, the state and, unless somebody else wrote them, the counters that the pinned
      artifacts determine. */
  ghost predicate EndsRight(now: Tables, run: Run) {
    var pinned := Pinned(now.artifacts, run.watermark);
    && run.hunt in now.hunts
    && RowsOfHunt(now.matches, run.hunt) == Rows(now.world, run.hunt, run.bundle, pinned)
    && Cached(now.cache, run.bundle, pinned)
    && now.hunts[run.hunt].state == FinalState(Totals(now.world, run.bundle, pinned))
    && (run.alone ==> now.hunts[run.hunt].tally == Totals(now.world, run.bundle, pinned))
  }

  // ---------------------------------------------------------------- single writes

  method StoreResult(db: HuntDb, k: CacheKey, t: Outcome)
    requires db.Valid() && t == Terminal(db.world, k.bundle, k.sha)
    modifies db`cache
    ensures db.Valid() && k in db.cache && old(db.cache).Keys <= db.cache.Keys
  {
    CacheKeepsForward(db.artifacts, db.cache, db.cache[k := t], db.matches, db.hunts, db.forwardOf);
    hide HuntsOk, InCommitOrder, ForwardOk, Terminal;
    db.CommitCacheEntry(k, t);
  }

  /** A row of a planned retro-hunt that its pinned artifacts determine. */
  method StoreRetroRow(db: HuntDb, h: HuntId, a: ArtifactId, r: RuleId)
    requires db.Resumable(h) && MatchRow(h, a, r) in Rows(db.world, h, db.hunts[h].bundle, db.PinnedOf(h))
    modifies db`matches
    ensures db.Valid() && db.matches == old(db.matches) + {MatchRow(h, a, r)}
  {
    hide Rows, Pinned;
    ghost var matches0 := db.matches;
    ghost var after := matches0 + {MatchRow(h, a, r)};
    RunKeepsHunts(db.world, db.artifacts, matches0, after, db.hunts, h, db.hunts[h]);
    assert db.hunts[h := db.hunts[h]] == db.hunts;
    RetroKeepsForward(db.artifacts, db.cache, db.cache, matches0, after, db.hunts, db.hunts, db.forwardOf, h);
    hide HuntsOk, InCommitOrder, ForwardOk, CacheSound;
    var _ := db.CommitMatch(h, a, r);
  }

  method StoreCounters(db: HuntDb, h: HuntId, scanned: nat, cacheHits: nat, tally: Tally)
    requires db.Resumable(h) && db.PinnedOf(h) != []
    modifies db`hunts
    ensures db.Valid()
    ensures db.hunts == old(db.hunts)[h := old(db.hunts)[h].(scanned := scanned, cacheHits := cacheHits, tally := tally)]
  {
    hide Rows, Pinned;
    ghost var x := db.hunts[h].(scanned := scanned, cacheHits := cacheHits, tally := tally);
    RunKeepsHunts(db.world, db.artifacts, db.matches, db.matches, db.hunts, h, x);
    PlansKeepForward(db.artifacts, db.cache, db.matches, db.hunts, db.hunts[h := x], db.forwardOf);
    hide HuntsOk, InCommitOrder, ForwardOk, CacheSound;
    db.hunts := db.hunts[h := db.hunts[h].(scanned := scanned, cacheHits := cacheHits, tally := tally)];
  }

  method StoreJob(db: HuntDb, h: HuntId, finished: bool)
    requires db.Valid()
    modifies db`jobs
    ensures db.Valid()
  {
    hide HuntsOk, InCommitOrder, ForwardOk, CacheSound;
    if h in db.jobs {
      db.jobs := db.jobs[h := if finished then db.jobs[h].(finished := true) else db.jobs[h].(claimed := true)];
    }
  }

  // ---------------------------------------------------------------- one step of a run

  lemma PlanIsResumable(db: HuntDb, run: Run)
    requires db.Valid() && PlanOk(db.hunts, run)
    ensures db.Resumable(run.hunt) && db.world.tierOk && db.world.compiles(run.bundle)
    ensures db.PinnedOf(run.hunt) == Pinned(db.artifacts, run.watermark)
    ensures RowsOfHunt(db.matches, run.hunt) <= Rows(db.world, run.hunt, run.bundle, Pinned(db.artifacts, run.watermark))
    ensures Pinned(db.artifacts, run.watermark) == [] ==> db.hunts[run.hunt].tally == Tally(0, 0, 0)
  {
    assert HuntOk(db.world, db.artifacts, db.matches, run.hunt, db.hunts[run.hunt]);
  }

  /** What stays after one's own write: the same plan, and nothing taken back. */
  twostate predicate OwnWrite(db: HuntDb, h: HuntId)
    reads db
    requires h in old(db.hunts)
  {
    && db.artifacts == old(db.artifacts) && db.active == old(db.active) && db.forwardOf == old(db.forwardOf)
    && old(db.cache).Keys <= db.cache.Keys && old(db.matches) <= db.matches
    && h in db.hunts && db.hunts == old(db.hunts)[h := db.hunts[h]] && SamePlan(db.hunts[h], old(db.hunts)[h])
  }

  /** The checks at the start of a run. A hunt that is not planned is refused, and a bundle that
      no longer compiles or a weak scanner tier fails it. */
  method Begin(db: HuntDb, h: HuntId) returns (run: Option<Run>)
    requires db.Valid()
    modifies db`hunts
    ensures db.Valid() && Grows(db)
    ensures run.Some? <==> old(db.Resumable(h))
    ensures run.Some? ==>
              db.hunts == old(db.hunts) && run.value.hunt == h && RunOk(db, run.value) && run.value.alone && run.value.step == ToRunning
  {
    PlansKeptBySame(db.hunts, db.artifacts, db.hunts);
    if h !in db.hunts || !db.hunts[h].retro { return None; }
    var hunt := db.hunts[h];
    if hunt.watermark.Some? {
      NothingYet(db.world, h, hunt.bundle);
      assert HuntOk(db.world, db.artifacts, db.matches, h, hunt);
    }
    hide HuntDb.Valid, Rows, Totals, Pinned;
    if !db.world.compiles(hunt.bundle) {
      db.MarkState(h, Failed);
      PlansKeptBySame(old(db.hunts), db.artifacts, db.hunts);
      return None;
    }
    if hunt.watermark.None? { return None; }
    run := Some(Run(h, hunt.bundle, hunt.watermark.value, [], 0, ToRunning, 0, 0, Tally(0, 0, 0), true));
  }

  /** Where a run goes once its result for an artifact is known. */
  function FirstRow(hit: bool, t: Outcome): RunStep {
    if t.status.Matched? && t.rules != [] then ToRow(hit, t, 0) else ToCount(hit, t)
  }

  function NextRow(step: RunStep): RunStep
    requires step.ToRow?
  {
    if step.j + 1 < |step.t.rules| then ToRow(step.hit, step.t, step.j + 1) else ToCount(step.hit, step.t)
  }

  function AfterCount(planned: seq<Artifact>, next: nat): RunStep {
    if next < |planned| then ToLook else ToState
  }

  /** Where one step leads. */
  ghost predicate Moves(run: Run, after: Run) {
    && after.hunt == run.hunt && after.bundle == run.bundle && after.alone == run.alone
    && match run.step
       case ToRunning => after.step == ToClaim
       case ToClaim => after.step == ToRead
       case ToRead => after.step == AfterCount(after.planned, 0)
       case ToLook => after.planned == run.planned && after.next == run.next && (after.step.ToCache? || exists t :: after.step == FirstRow(true, t))
       case ToCache(t) => after == run.(step := FirstRow(false, t))
       case ToRow(_, _, _) => after == run.(step := NextRow(run.step))
       case ToCount(_, _) => after.planned == run.planned && after.next == run.next + 1 && after.step == AfterCount(run.planned, run.next + 1)
       case ToState => after == run.(step := ToJob)
       case ToJob => after == run.(step := Ended)
       case Ended => after == run
  }

  method AdvanceOpening(db: HuntDb, run: Run) returns (after: Run)
    requires db.Valid() && RunOk(db, run) && Opening(run)
    modifies db`hunts, db`jobs
    ensures db.Valid() && RunOk(db, after) && OwnWrite(db, run.hunt)
    ensures Moves(run, after)
  {
    hide HuntDb.Valid, Rows, Totals, Pinned, Cached;
    if run.step.ToRunning? {
      db.MarkState(run.hunt, Running);
      after := run.(step := ToClaim);
    } else if run.step.ToClaim? {
      StoreJob(db, run.hunt, false);
      after := run.(step := ToRead);
    } else {
      var planned := Pinned(db.artifacts, run.watermark);
      after := run.(planned := planned, step := AfterCount(planned, 0));
      assert planned[..0] == run.planned[..0];
    }
  }

  // What a write keeps of what is known about the run.

  lemma PlanStays(hunts: map<HuntId, Hunt>, hunts': map<HuntId, Hunt>, run: Run, after: Run)
    requires PlanOk(hunts, run) && run.hunt in hunts' && SamePlan(hunts'[run.hunt], hunts[run.hunt])
    requires after.hunt == run.hunt && after.bundle == run.bundle && after.watermark == run.watermark
    ensures PlanOk(hunts', after)
  {
  }

  lemma ProgressStays(w: World, cache: map<CacheKey, Outcome>, cache': map<CacheKey, Outcome>, matches: set<MatchRow>, matches': set<MatchRow>,
                      run: Run, after: Run)
    requires ProgressOk(w, cache, matches, run) && cache.Keys <= cache'.Keys && matches <= matches'
    requires after.hunt == run.hunt && after.bundle == run.bundle && after.planned == run.planned && after.next == run.next && after.tally == run.tally
    ensures ProgressOk(w, cache', matches', after)
  {
    hide Rows, Totals;
  }

  /** After the last row of an artifact its counters are added. */
  lemma ProgressMoves(w: World, cache: map<CacheKey, Outcome>, matches: set<MatchRow>, run: Run, after: Run)
    requires ProgressOk(w, cache, matches, run) && StepOk(w, cache, matches, run) && run.step.ToCount?
    requires after.hunt == run.hunt && after.bundle == run.bundle && after.planned == run.planned && after.next == run.next + 1
    requires after.tally == Plus(run.tally, TallyOf(run.step.t))
    ensures ProgressOk(w, cache, matches, after)
  {
    hide Rows, Totals, RowsOf, Terminal, TallyOf, Plus, Cached;
    PrefixStep(w, run.hunt, run.bundle, run.planned, run.next);
    OneMoreCached(cache, run.bundle, run.planned[..run.next], run.planned[run.next]);
  }

  lemma OneMoreCached(cache: map<CacheKey, Outcome>, b: Digest, artifacts: seq<Artifact>, a: Artifact)
    requires Cached(cache, b, artifacts) && CacheKey(a.sha, b) in cache
    ensures Cached(cache, b, artifacts + [a])
  {
  }

  lemma FirstRowIsOk(w: World, cache: map<CacheKey, Outcome>, matches: set<MatchRow>, run: Run, hit: bool, t: Outcome)
    requires run.next < |run.planned| && t == Terminal(w, run.bundle, run.planned[run.next].sha)
    requires CacheKey(run.planned[run.next].sha, run.bundle) in cache
    ensures StepOk(w, cache, matches, run.(step := FirstRow(hit, t)))
  {
    hide Terminal;
    NoRuleRows(run.hunt, run.planned[run.next].id, t.rules);
    if t.rules == [] { WholeRules(t.rules); }
  }

  lemma NextRowIsOk(w: World, cache: map<CacheKey, Outcome>, matches: set<MatchRow>, run: Run)
    requires StepOk(w, cache, matches, run) && run.step.ToRow?
    ensures run.next < |run.planned| && run.step.j < |run.step.t.rules|
    ensures MatchRow(run.hunt, run.planned[run.next].id, run.step.t.rules[run.step.j]) in Rows(w, run.hunt, run.bundle, run.planned)
    ensures StepOk(w, cache, matches + {MatchRow(run.hunt, run.planned[run.next].id, run.step.t.rules[run.step.j])}, run.(step := NextRow(run.step)))
  {
    var a, t, j := run.planned[run.next], run.step.t, run.step.j;
    RowIsDetermined(w, run.hunt, run.bundle, run.planned, run.next, j);
    RuleRowsStep(run.hunt, a.id, t.rules, j);
    WholeRules(t.rules);
    RowsOfMatched(w, run.hunt, run.bundle, a);
    hide Rows, RuleRows, RowsOf, Terminal;
  }

  lemma NextRowGoesOn(step: RunStep)
    requires step.ToRow?
    ensures NextRow(step).ToRow? || NextRow(step).ToCount?
  {
  }

  lemma RowsOfMatched(w: World, h: HuntId, b: Digest, a: Artifact)
    requires Terminal(w, b, a.sha).status.Matched?
    ensures RowsOf(w, h, b, a) == RuleRows(h, a.id, Terminal(w, b, a.sha).rules)
  {
  }

  lemma RowIsDetermined(w: World, h: HuntId, b: Digest, planned: seq<Artifact>, k: nat, j: nat)
    requires k < |planned| && Terminal(w, b, planned[k].sha).status.Matched? && j < |Terminal(w, b, planned[k].sha).rules|
    ensures MatchRow(h, planned[k].id, Terminal(w, b, planned[k].sha).rules[j]) in Rows(w, h, b, planned)
  {
    var r := Terminal(w, b, planned[k].sha).rules[j];
    RowsComeFromMatches(w, h, b, planned, MatchRow(h, planned[k].id, r));
    assert planned[k] in planned;
  }

  /** At the end all pinned artifacts are covered. */
  lemma AllCovered(db: HuntDb, run: Run)
    requires db.Valid() && RunOk(db, run) && Closing(run)
    ensures var pinned := Pinned(db.artifacts, run.watermark);
            && RowsOfHunt(db.matches, run.hunt) == Rows(db.world, run.hunt, run.bundle, pinned)
            && Cached(db.cache, run.bundle, pinned)
            && run.tally == Totals(db.world, run.bundle, pinned)
            && (run.alone ==> db.hunts[run.hunt].tally == run.tally)
  {
    hide HuntDb.Valid, Rows, Totals, Pinned, Cached;
    PlanIsResumable(db, run);
    NothingYet(db.world, run.hunt, run.bundle);
    assert run.planned[..|run.planned|] == run.planned;
    RowsBelongToHunt(db.world, run.hunt, run.bundle, run.planned);
  }

  lemma ClosingStays(w: World, cache: map<CacheKey, Outcome>, matches: set<MatchRow>, run: Run, after: Run)
    requires StepOk(w, cache, matches, run) && Closing(run) && Closing(after) && after == run.(step := after.step)
    ensures StepOk(w, cache, matches, after)
  {
  }

  lemma CountedIsOk(w: World, cache: map<CacheKey, Outcome>, matches: set<MatchRow>, run: Run, after: Run)
    requires StepOk(w, cache, matches, run) && run.step.ToCount?
    requires after.planned == run.planned && after.next == run.next + 1 && after.step == AfterCount(run.planned, run.next + 1)
    ensures StepOk(w, cache, matches, after)
    ensures run.next < |run.planned| && !Opening(run) && !Opening(after)
  {
    hide RowsOf, Terminal;
  }

  method AdvanceClosing(db: HuntDb, run: Run) returns (after: Run)
    requires db.Valid() && RunOk(db, run) && Closing(run)
    modifies db`hunts, db`jobs
    ensures db.Valid() && RunOk(db, after) && OwnWrite(db, run.hunt)
    ensures Moves(run, after)
    ensures run.step.ToState? ==> EndsRight(Now(db), run)
    ensures run.step.ToJob? ==> Now(db) == old(Now(db))
  {
    hide HuntDb.Valid, Rows, Totals, Pinned, Cached, ProgressOk, StepOk, FinalState, RowsOfHunt;
    AllCovered(db, run);
    after := run;
    if run.step.ToState? {
      db.MarkState(run.hunt, FinalState(run.tally));
      after := run.(step := ToJob);
    } else if run.step.ToJob? {
      StoreJob(db, run.hunt, true);
      after := run.(step := Ended);
    }
    ClosingStays(db.world, db.cache, db.matches, run, after);
    ProgressStays(db.world, db.cache, db.cache, db.matches, db.matches, run, after);
  }

  /** The look-up, and the scan of what is not cached. */
  method AdvanceLook(db: HuntDb, run: Run) returns (after: Run)
    requires db.Valid() && RunOk(db, run) && run.step.ToLook?
    ensures RunOk(db, after)
    ensures Moves(run, after)
  {
    hide Rows, Totals, Pinned, Cached, ProgressOk, HuntsOk, InCommitOrder, ForwardOk;
    var a := run.planned[run.next];
    var hit := db.CacheLookup(CacheKey(a.sha, run.bundle));
    if hit.Some? {
      FirstRowIsOk(db.world, db.cache, db.matches, run, true, hit.value);
      after := run.(step := FirstRow(true, hit.value));
    } else if a.sha in db.world.objects {
      after := run.(step := ToCache(db.world.scan(run.bundle, db.world.objects[a.sha])));
    } else {
      after := run.(step := ToCache(Outcome(Error, [])));
    }
    ProgressStays(db.world, db.cache, db.cache, db.matches, db.matches, run, after);
  }

  /** The result of a scan is cached, unless somebody else was first. */
  method AdvanceCache(db: HuntDb, run: Run) returns (after: Run)
    requires db.Valid() && RunOk(db, run) && run.step.ToCache?
    modifies db`cache
    ensures db.Valid() && RunOk(db, after) && OwnWrite(db, run.hunt)
    ensures Moves(run, after)
  {
    hide HuntDb.Valid, Rows, Totals, Pinned, Cached, ProgressOk, Terminal;
    ghost var cache0 := db.cache;
    StoreResult(db, CacheKey(run.planned[run.next].sha, run.bundle), run.step.t);
    FirstRowIsOk(db.world, db.cache, db.matches, run, false, run.step.t);
    after := run.(step := FirstRow(false, run.step.t));
    ProgressStays(db.world, cache0, db.cache, db.matches, db.matches, run, after);
  }

  /** One match row. */
  method AdvanceRow(db: HuntDb, run: Run) returns (after: Run)
    requires db.Valid() && RunOk(db, run) && run.step.ToRow?
    modifies db`matches
    ensures db.Valid() && RunOk(db, after) && OwnWrite(db, run.hunt)
    ensures Moves(run, after)
  {
    hide HuntDb.Valid, Rows, Totals, Pinned, Cached, ProgressOk, StepOk, NextRow;
    PlanIsResumable(db, run);
    NextRowGoesOn(run.step);
    ghost var matches0 := db.matches;
    NextRowIsOk(db.world, db.cache, db.matches, run);
    StoreRetroRow(db, run.hunt, run.planned[run.next].id, run.step.t.rules[run.step.j]);
    after := run.(step := NextRow(run.step));
    ProgressStays(db.world, db.cache, db.cache, matches0, db.matches, run, after);
  }

  /** The counters, after the last row of an artifact. */
  method AdvanceCount(db: HuntDb, run: Run) returns (after: Run)
    requires db.Valid() && RunOk(db, run) && run.step.ToCount?
    modifies db`hunts
    ensures db.Valid() && RunOk(db, after) && OwnWrite(db, run.hunt)
    ensures Moves(run, after)
  {
    hide HuntDb.Valid, Rows, Totals, Pinned, ProgressOk, StepOk, RowsOf, Terminal, TallyOf, Plus, Cached, AfterCount;
    PlanIsResumable(db, run);
    var scanned, cacheHits, matched, timedOut, failed :=
      db.Count(run.step.hit, run.step.t, run.scanned, run.cacheHits, run.tally.matched, run.tally.timedOut, run.tally.failed);
    var tally := Tally(matched, timedOut, failed);
    after := run.(next := run.next + 1, step := AfterCount(run.planned, run.next + 1),
                  scanned := scanned, cacheHits := cacheHits, tally := tally);
    ProgressMoves(db.world, db.cache, db.matches, run, after);
    CountedIsOk(db.world, db.cache, db.matches, run, after);
    StoreCounters(db, run.hunt, scanned, cacheHits, tally);
  }

  /** One step of a run: at most one write, and what is known about the run stays true. */
  method Advance(db: HuntDb, run: Run) returns (after: Run)
    requires db.Valid() && RunOk(db, run)
    modifies db`cache, db`matches, db`hunts, db`jobs
    ensures db.Valid() && RunOk(db, after) && OwnWrite(db, run.hunt)
    ensures Moves(run, after)
    ensures run.step.ToState? ==> EndsRight(Now(db), run)
    ensures run.step.ToJob? ==> Now(db) == old(Now(db))
  {
    hide HuntDb.Valid, RunOk, EndsRight, Moves;
    assert PlanOk(db.hunts, run) by { RunHasPlan(db, run); }
    if Opening(run) { after := AdvanceOpening(db, run); }
    else if Closing(run) { after := AdvanceClosing(db, run); }
    else if run.step.ToRow? { after := AdvanceRow(db, run); }
    else if run.step.ToCount? { after := AdvanceCount(db, run); }
    else if run.step.ToCache? { after := AdvanceCache(db, run); }
    else { after := AdvanceLook(db, run); }
  }

  lemma RunHasPlan(db: HuntDb, run: Run)
    requires RunOk(db, run)
    ensures PlanOk(db.hunts, run)
  {
  }

  // ---------------------------------------------------------------- one step of a forward scan

  datatype ScanStep =
    | AtLook
    | AtCache(b: Digest, t: Outcome)
    | AtHunt(b: Digest, t: Outcome)
    | AtRow(b: Digest, h: HuntId, t: Outcome, j: nat)
    | AtCount(b: Digest, h: HuntId, t: Outcome)
    | Finished
    | Refused

  /** `found` are the bundles that were active when the scan began. */
  datatype Scan = Scan(artifact: Artifact, found: set<Digest>, todo: set<Digest>, step: ScanStep)

  ghost predicate ForwardHunt(hunts: map<HuntId, Hunt>, h: HuntId, b: Digest) {
    h in hunts && !hunts[h].retro && hunts[h].bundle == b
  }

  ghost predicate ScanStepOk(w: World, cache: map<CacheKey, Outcome>, matches: set<MatchRow>, hunts: map<HuntId, Hunt>, scan: Scan) {
    var a := scan.artifact;
    match scan.step
    case AtCache(b, t) => b in scan.found && b !in scan.todo && t == Terminal(w, b, a.sha)
    case AtHunt(b, t) => t == Terminal(w, b, a.sha) && CacheKey(a.sha, b) in cache
    case AtRow(b, h, t, j) =>
      && t == Terminal(w, b, a.sha) && CacheKey(a.sha, b) in cache && ForwardHunt(hunts, h, b)
      && j < |t.rules| && RuleRows(h, a.id, t.rules[..j]) <= matches
    case AtCount(b, h, t) =>
      t == Terminal(w, b, a.sha) && CacheKey(a.sha, b) in cache && ForwardHunt(hunts, h, b) && RuleRows(h, a.id, t.rules) <= matches
    case Finished => scan.todo == {}
    case _ => true
  }

  ghost predicate ScanFits(now: Tables, scan: Scan) {
    && scan.artifact in now.artifacts && scan.artifact.sha in now.world.objects && scan.todo <= scan.found
    && (forall b :: b in scan.found && b !in scan.todo && !(scan.step.AtCache? && scan.step.b == b) ==>
          CacheKey(scan.artifact.sha, b) in now.cache)
    && ScanStepOk(now.world, now.cache, now.matches, now.hunts, scan)
  }

  ghost predicate ScanOk(db: HuntDb, scan: Scan)
    reads db
  {
    ScanFits(Now(db), scan)
  }

  /** A row of a forward hunt whose artifact is cached. */
  method StoreForwardRow(db: HuntDb, h: HuntId, a: Artifact, r: RuleId)
    requires db.Valid() && h in db.hunts && !db.hunts[h].retro && a in db.artifacts && CacheKey(a.sha, db.hunts[h].bundle) in db.cache
    modifies db`matches
    ensures db.Valid() && db.matches == old(db.matches) + {MatchRow(h, a.id, r)}
  {
    ghost var matches0 := db.matches;
    ghost var after := matches0 + {MatchRow(h, a.id, r)};
    ForwardKeepsHunts(db.world, db.artifacts, matches0, after, db.hunts, db.hunts, h);
    ForwardKeepsForward(db.artifacts, db.cache, matches0, after, db.hunts, db.hunts, db.forwardOf, h, a);
    hide HuntsOk, InCommitOrder, ForwardOk, CacheSound;
    var _ := db.CommitMatch(h, a.id, r);
  }

  method StoreForwardCount(db: HuntDb, h: HuntId, t: Outcome)
    requires db.Valid() && h in db.hunts && !db.hunts[h].retro
    modifies db`hunts
    ensures db.Valid() && db.hunts == old(db.hunts)[h := Counted(old(db.hunts)[h], t)]
  {
    hide Counted;
    ForwardKeepsHunts(db.world, db.artifacts, db.matches, db.matches, db.hunts, db.hunts[h := Counted(db.hunts[h], t)], h);
    PlansKeepForward(db.artifacts, db.cache, db.matches, db.hunts, db.hunts[h := Counted(db.hunts[h], t)], db.forwardOf);
    hide HuntsOk, InCommitOrder, ForwardOk, CacheSound;
    db.hunts := db.hunts[h := Counted(db.hunts[h], t)];
  }

  function NextForwardRow(b: Digest, h: HuntId, t: Outcome, j: nat): ScanStep {
    if j < |t.rules| then AtRow(b, h, t, j) else AtCount(b, h, t)
  }

  lemma FirstForwardRow(w: World, cache: map<CacheKey, Outcome>, matches: set<MatchRow>, hunts: map<HuntId, Hunt>, scan: Scan, h: HuntId)
    requires scan.step.AtHunt? && ScanStepOk(w, cache, matches, hunts, scan) && ForwardHunt(hunts, h, scan.step.b)
    ensures ScanStepOk(w, cache, matches, hunts, scan.(step := NextForwardRow(scan.step.b, h, scan.step.t, 0)))
  {
    NoRuleRows(h, scan.artifact.id, scan.step.t.rules);
    WholeRules(scan.step.t.rules);
  }

  lemma MoreForwardRows(w: World, cache: map<CacheKey, Outcome>, matches: set<MatchRow>, hunts: map<HuntId, Hunt>, scan: Scan)
    requires scan.step.AtRow? && ScanStepOk(w, cache, matches, hunts, scan)
    ensures var step := scan.step;
            ScanStepOk(w, cache, matches + {MatchRow(step.h, scan.artifact.id, step.t.rules[step.j])}, hunts,
                       scan.(step := NextForwardRow(step.b, step.h, step.t, step.j + 1)))
  {
    RuleRowsStep(scan.step.h, scan.artifact.id, scan.step.t.rules, scan.step.j);
    WholeRules(scan.step.t.rules);
    hide RuleRows;
  }

  /** Where one step leads. */
  ghost predicate ScanMoves(scan: Scan, after: Scan) {
    && after.artifact == scan.artifact && after.found == scan.found
    && match scan.step
       case AtLook => after.step == Finished || after.step == Refused || after.todo < scan.todo
       case AtCache(b, t) => after == scan.(step := AtHunt(b, t))
       case AtHunt(b, t) => after.todo == scan.todo && (after.step == AtLook || exists h :: after.step == NextForwardRow(b, h, t, 0))
       case AtRow(b, h, t, j) => after == scan.(step := NextForwardRow(b, h, t, j + 1))
       case AtCount(_, _, _) => after == scan.(step := AtLook)
       case Finished => after == scan
       case Refused => after == scan
  }

  /** One step of a forward scan: at most one write. */
  method AdvanceScan(db: HuntDb, scan: Scan) returns (after: Scan)
    requires db.Valid() && ScanOk(db, scan)
    modifies db`cache, db`matches, db`hunts
    ensures db.Valid() && ScanOk(db, after) && Grows(db) && ScanMoves(scan, after)
    ensures forall h :: h in old(db.hunts) && old(db.hunts)[h].retro ==> h in db.hunts && db.hunts[h] == old(db.hunts)[h]
  {
    hide HuntDb.Valid, RuleRows, Terminal, PlansKept, NextForwardRow;
    PlansKeptBySame(db.hunts, db.artifacts, db.hunts);
    after := scan;
    match scan.step {
      case AtLook => after := ScanLook(db, scan);
      case AtCache(b, t) =>
        StoreResult(db, CacheKey(scan.artifact.sha, b), t);
        after := scan.(step := AtHunt(b, t));
      case AtHunt(b, t) =>
        if b in db.forwardOf {
          db.ForwardHuntIsKnown(b);
          FirstForwardRow(db.world, db.cache, db.matches, db.hunts, scan, db.forwardOf[b]);
          StepKinds(b, db.forwardOf[b], t, 0);
          after := scan.(step := NextForwardRow(b, db.forwardOf[b], t, 0));
        } else {
          after := scan.(step := AtLook);
        }
      case AtRow(b, h, t, j) =>
        MoreForwardRows(db.world, db.cache, db.matches, db.hunts, scan);
        StepKinds(b, h, t, j + 1);
        StoreForwardRow(db, h, scan.artifact, t.rules[j]);
        after := scan.(step := NextForwardRow(b, h, t, j + 1));
      case AtCount(b, h, t) =>
        StoreForwardCount(db, h, t);
        PlansKeptBySame(old(db.hunts), db.artifacts, db.hunts);
        after := scan.(step := AtLook);
      case _ =>
    }
  }

  lemma StepKinds(b: Digest, h: HuntId, t: Outcome, j: nat)
    ensures NextForwardRow(b, h, t, j).AtRow? || NextForwardRow(b, h, t, j).AtCount?
  {
  }

  /** The next bundle: one that is cached is skipped, one that does not compile ends the scan. */
  method ScanLook(db: HuntDb, scan: Scan) returns (after: Scan)
    requires db.Valid() && ScanOk(db, scan) && scan.step.AtLook?
    ensures ScanOk(db, after) && ScanMoves(scan, after)
    ensures after.step.Refused? <==> scan.todo != {} && after.step != AtLook && !after.step.AtCache?
  {
    hide HuntDb.Valid, RuleRows;
    if scan.todo == {} { return scan.(step := Finished); }
    var b :| b in scan.todo;
    var hit := db.CacheLookup(CacheKey(scan.artifact.sha, b));
    if hit.Some? { return scan.(todo := scan.todo - {b}); }
    if !db.world.compiles(b) { return scan.(step := Refused); }
    after := scan.(todo := scan.todo - {b}, step := AtCache(b, db.world.scan(b, db.world.objects[scan.artifact.sha])));
  }

  // ---------------------------------------------------------------- everything at once

  /** What is under way: any number of runs, also of one hunt, and of forward scans. */
  datatype Tasks = Tasks(runs: map<nat, Run>, scans: map<nat, Scan>)

  datatype Happening =
    | Other(e: Event)
    | RunBegins(r: nat, hunt: HuntId)
    | RunAdvances(r: nat)
    | RunDies(r: nat)
    | ScanBegins(s: nat, i: nat)
    | ScanAdvances(s: nat)
    | ScanDies(s: nat)

  ghost predicate TasksFit(now: Tables, tasks: Tasks) {
    && (forall r :: r in tasks.runs ==> RunFits(now, tasks.runs[r]))
    && (forall s :: s in tasks.scans ==> ScanFits(now, tasks.scans[s]))
  }

  /** Somebody else has written: have the hunt's counters changed? */
  function Watched(run: Run, before: map<HuntId, Hunt>, now: map<HuntId, Hunt>): Run {
    run.(alone := run.alone && run.hunt in before && run.hunt in now && now[run.hunt].tally == before[run.hunt].tally)
  }

  /** Nothing is taken back from one time to another. */
  ghost predicate Later(before: Tables, now: Tables) {
    && now.world == before.world && before.artifacts <= now.artifacts
    && before.cache.Keys <= now.cache.Keys && before.matches <= now.matches
    && PlansKept(before.hunts, before.artifacts, now.hunts, now.artifacts)
  }

  lemma RunStays(before: Tables, now: Tables, run: Run)
    requires RunFits(before, run) && Later(before, now)
    ensures RunFits(now, Watched(run, before.hunts, now.hunts))
  {
    var after := Watched(run, before.hunts, now.hunts);
    hide Rows, Totals, Pinned, ProgressOk, StepOk;
    ProgressStays(before.world, before.cache, now.cache, before.matches, now.matches, run, after);
    StepStays(before, now, run, after);
  }

  lemma StepStays(before: Tables, now: Tables, run: Run, after: Run)
    requires StepOk(before.world, before.cache, before.matches, run) && Later(before, now) && after == run.(alone := after.alone)
    ensures StepOk(now.world, now.cache, now.matches, after)
  {
    hide RuleRows, RowsOf, Terminal, PlansKept;
  }

  lemma ScanStays(before: Tables, now: Tables, scan: Scan)
    requires ScanFits(before, scan) && Later(before, now)
    ensures ScanFits(now, scan)
  {
    hide RuleRows, Terminal, Pinned;
  }

  lemma OthersStay(before: Tables, now: Tables, tasks: Tasks, after: Tasks)
    requires TasksFit(before, tasks) && Later(before, now)
    requires forall r :: r in after.runs ==>
               (r in tasks.runs && after.runs[r] == Watched(tasks.runs[r], before.hunts, now.hunts)) || RunFits(now, after.runs[r])
    requires forall s :: s in after.scans ==> (s in tasks.scans && after.scans[s] == tasks.scans[s]) || ScanFits(now, after.scans[s])
    ensures TasksFit(now, after)
  {
    hide RunFits, ScanFits, Later, Watched;
    forall r | r in after.runs ensures RunFits(now, after.runs[r]) {
      if r in tasks.runs && after.runs[r] == Watched(tasks.runs[r], before.hunts, now.hunts) { RunStays(before, now, tasks.runs[r]); }
    }
    forall s | s in after.scans ensures ScanFits(now, after.scans[s]) {
      if s in tasks.scans && after.scans[s] == tasks.scans[s] { ScanStays(before, now, tasks.scans[s]); }
    }
  }

  function WatchedAll(runs: map<nat, Run>, before: map<HuntId, Hunt>, now: map<HuntId, Hunt>): map<nat, Run> {
    map r | r in runs :: Watched(runs[r], before, now)
  }

  method BeginScan(db: HuntDb, a: Artifact) returns (scan: Scan)
    requires a in db.artifacts && a.sha in db.world.objects
    ensures ScanOk(db, scan) && scan.found == db.active
  {
    scan := Scan(a, db.active, db.active, AtLook);
  }

  /** One step of a run that is under way, or its beginning. */
  method HappenToRun(db: HuntDb, tasks: Tasks, r: nat, begins: Option<HuntId>) returns (after: Tasks)
    requires db.Valid() && TasksFit(Now(db), tasks)
    modifies db
    ensures db.Valid() && TasksFit(Now(db), after) && Grows(db)
    ensures begins.None? && r in tasks.runs && tasks.runs[r].step.ToState? ==> EndsRight(Now(db), tasks.runs[r])
  {
    hide HuntDb.Valid, RunFits, ScanFits, EndsRight, Watched, PlansKept;
    ghost var earlier := Now(db);
    var before := db.hunts;
    PlansKeptBySame(db.hunts, db.artifacts, db.hunts);
    after := tasks;
    if begins.Some? && r !in tasks.runs {
      var run := Begin(db, begins.value);
      after := tasks.(runs := WatchedAll(tasks.runs, before, db.hunts));
      if run.Some? { after := after.(runs := after.runs[r := run.value]); }
      OthersStay(earlier, Now(db), tasks, after);
    }
    if begins.None? && r in tasks.runs {
      RunHasPlan(db, tasks.runs[r]);
      var run := Advance(db, tasks.runs[r]);
      PlansKeptBySame(before, db.artifacts, db.hunts);
      after := tasks.(runs := WatchedAll(tasks.runs, before, db.hunts)[r := run]);
      OthersStay(earlier, Now(db), tasks, after);
    }
  }

  /** The same for a forward scan of the i-th commit. */
  method HappenToScan(db: HuntDb, tasks: Tasks, s: nat, begins: Option<nat>) returns (after: Tasks)
    requires db.Valid() && TasksFit(Now(db), tasks)
    modifies db
    ensures db.Valid() && TasksFit(Now(db), after) && Grows(db)
  {
    hide HuntDb.Valid, RunFits, ScanFits, Watched, PlansKept;
    ghost var earlier := Now(db);
    var before := db.hunts;
    PlansKeptBySame(db.hunts, db.artifacts, db.hunts);
    after := tasks;
    if begins.Some? && s !in tasks.scans && begins.value < |db.artifacts| && db.artifacts[begins.value].sha in db.world.objects {
      var scan := BeginScan(db, db.artifacts[begins.value]);
      after := tasks.(scans := tasks.scans[s := scan]);
    }
    if begins.None? && s in tasks.scans {
      var scan := AdvanceScan(db, tasks.scans[s]);
      after := Tasks(WatchedAll(tasks.runs, before, db.hunts), tasks.scans[s := scan]);
      OthersStay(earlier, Now(db), tasks, after);
    }
  }

  /** The same for an operation that is not taken apart. */
  method HappenWhole(db: HuntDb, tasks: Tasks, e: Event) returns (after: Tasks)
    requires db.Valid() && TasksFit(Now(db), tasks)
    modifies db
    ensures db.Valid() && TasksFit(Now(db), after) && Grows(db)
  {
    hide HuntDb.Valid, RunFits, ScanFits, Watched, PlansKept;
    ghost var earlier := Now(db);
    var before := db.hunts;
    Step(db, e);
    after := tasks.(runs := WatchedAll(tasks.runs, before, db.hunts));
    OthersStay(earlier, Now(db), tasks, after);
  }

  /** One thing happens. Whatever it is, all that is known about every run and scan under way
      stays true; and the run whose final state is written ends right. */
  method Happen(db: HuntDb, tasks: Tasks, e: Happening) returns (after: Tasks)
    requires db.Valid() && TasksFit(Now(db), tasks)
    modifies db
    ensures db.Valid() && TasksFit(Now(db), after) && Grows(db)
    ensures e.RunAdvances? && e.r in tasks.runs && tasks.runs[e.r].step.ToState? ==> EndsRight(Now(db), tasks.runs[e.r])
  {
    hide HuntDb.Valid, RunFits, ScanFits, EndsRight, PlansKept;
    PlansKeptBySame(db.hunts, db.artifacts, db.hunts);
    after := tasks;
    match e
    case Other(whole) => after := HappenWhole(db, tasks, whole);
    case RunBegins(r, h) => after := HappenToRun(db, tasks, r, Some(h));
    case RunAdvances(r) => after := HappenToRun(db, tasks, r, None);
    case RunDies(r) => after := tasks.(runs := tasks.runs - {r});
    case ScanBegins(s, i) => after := HappenToScan(db, tasks, s, Some(i));
    case ScanAdvances(s) => after := HappenToScan(db, tasks, s, None);
    case ScanDies(s) => after := tasks.(scans := tasks.scans - {s});
  }

  // ---------------------------------------------------------------- what comes of it

  /** From the empty database: after whatever has happened, in whatever order, every run and scan
      under way is as it should be. */
  method Interleaved(w: World, history: seq<Happening>) returns (db: HuntDb, tasks: Tasks)
    ensures db.Valid() && db.world == w && fresh(db)
    ensures TasksFit(Now(db), tasks)
    // a forward scan that ended well has every bundle it found active cached
    ensures forall s :: s in tasks.scans && tasks.scans[s].step.Finished? ==>
              forall b :: b in tasks.scans[s].found ==> CacheKey(tasks.scans[s].artifact.sha, b) in db.cache
  {
    hide HuntDb.Valid, RunFits;
    db := new HuntDb(w);
    tasks := Tasks(map[], map[]);
    for i := 0 to |history|
      invariant db.Valid() && db.world == w && fresh(db) && TasksFit(Now(db), tasks)
    {
      tasks := Happen(db, tasks, history[i]);
    }
    forall s | s in tasks.scans && tasks.scans[s].step.Finished?
      ensures forall b :: b in tasks.scans[s].found ==> CacheKey(tasks.scans[s].artifact.sha, b) in db.cache
    {
      assert ScanFits(Now(db), tasks.scans[s]);
    }
  }

  /** Then the write that ends a run makes the rows, the state and, if nobody else has written
      them, the counters of its hunt those that its pinned artifacts determine: whatever fell
      between any two of its writes. */
  method InterleavedRunEndsRight(w: World, history: seq<Happening>, r: nat) returns (db: HuntDb, run: Option<Run>)
    ensures db.Valid() && db.world == w
    ensures run.Some? ==> EndsRight(Now(db), run.value) && EndsInScans(Now(db), run.value)
  {
    hide HuntDb.Valid, RunFits, ScanFits, EndsRight, EndsInScans;
    var tasks;
    db, tasks := Interleaved(w, history);
    run := None;
    if r in tasks.runs && tasks.runs[r].step.ToState? {
      var _ := Happen(db, tasks, RunAdvances(r));
      run := Some(tasks.runs[r]);
      EndInScans(Now(db), tasks.runs[r]);
    }
  }

  /** The end of a run in terms of what the scanner says of the stored bytes. */
  ghost predicate EndsInScans(now: Tables, run: Run) {
    && run.hunt in now.hunts
    && RowsAre(now.world, run.hunt, run.bundle, now.artifacts, run.watermark, now.matches)
    && StateIs(now.world, run.bundle, now.artifacts, run.watermark, now.hunts[run.hunt].state)
    && (run.alone ==> CountersAre(now.world, run.bundle, now.artifacts, run.watermark, now.hunts[run.hunt].tally))
  }

  lemma EndInScans(now: Tables, run: Run)
    requires EndsRight(now, run)
    ensures EndsInScans(now, run)
  {
    hide Rows, Totals, FinalState, Pinned, Cached, RowsAre, StateIs, CountersAre, RowsOfHunt;
    RowsInScans(now.world, run.hunt, run.bundle, now.artifacts, run.watermark, now.matches);
    StateInScans(now.world, run.bundle, now.artifacts, run.watermark);
    CountersInScans(now.world, run.bundle, now.artifacts, run.watermark);
  }

  function StepsOpen(run: Run): nat {
    if run.step.ToRunning? then 3 else if run.step.ToClaim? then 2 else if run.step.ToRead? then 1 else 0
  }

  function StepsHere(step: RunStep): nat {
    match step
    case ToLook => 4
    case ToCache(_) => 3
    case ToRow(_, _, _) => 2
    case ToCount(_, _) => 1
    case ToState => 2
    case ToJob => 1
    case _ => 0
  }

  function RowsLeft(step: RunStep): nat {
    if step.ToRow? && step.j <= |step.t.rules| then |step.t.rules| - step.j else 0
  }

  lemma Nearer(run: Run, after: Run)
    requires Moves(run, after) && !run.step.Ended?
    requires !Opening(run) ==> run.next <= |run.planned|
    requires run.step.ToCount? ==> run.next < |run.planned|
    requires run.step.ToRow? ==> run.step.j < |run.step.t.rules|
    ensures StepsOpen(run) > StepsOpen(after)
         || (StepsOpen(run) == StepsOpen(after) == 0 && |run.planned| == |after.planned|
             && (run.next < after.next
                 || (run.next == after.next
                     && (StepsHere(run.step) > StepsHere(after.step)
                         || (StepsHere(run.step) == StepsHere(after.step) && RowsLeft(run.step) > RowsLeft(after.step))))))
  {
  }

  lemma RunPlace(now: Tables, run: Run)
    requires RunFits(now, run)
    ensures run.next <= |run.planned|
    ensures run.step.ToCount? ==> run.next < |run.planned|
    ensures run.step.ToRow? ==> run.step.j < |run.step.t.rules|
  {
    hide Rows, Totals, RuleRows, RowsOf, Pinned;
  }

  /** Left alone, step by step a planned hunt comes to the same end as in one run. */
  method RunStepwise(db: HuntDb, h: HuntId) returns (run: Run)
    requires db.Resumable(h)
    modifies db
    ensures db.Valid() && run.hunt == h && run.step.Ended? && run.alone
    ensures EndsRight(Now(db), run) && EndsInScans(Now(db), run)
  {
    hide HuntDb.Valid, RunFits, Moves, Pinned, Rows, Totals, FinalState, Cached, RowsOfHunt, EndsInScans;
    var begun := Begin(db, h);
    run := begun.value;
    while !run.step.Ended?
      invariant db.Valid() && RunOk(db, run) && run.hunt == h && run.alone
      invariant run.step.ToJob? || run.step.Ended? ==> EndsRight(Now(db), run)
      decreases StepsOpen(run), |run.planned| - run.next, StepsHere(run.step), RowsLeft(run.step)
    {
      ghost var was := run;
      RunPlace(Now(db), run);
      run := Advance(db, run);
      RunPlace(Now(db), run);
      Nearer(was, run);
      MovesOn(was, run);
    }
    EndInScans(Now(db), run);
  }

  lemma MovesOn(run: Run, after: Run)
    requires Moves(run, after)
    ensures after.hunt == run.hunt && after.alone == run.alone
    ensures after.step.ToJob? ==> run.step.ToState?
    ensures after.step.Ended? ==> run.step.ToJob? || run.step.Ended?
    ensures Closing(after) && !after.step.ToState? ==> forall now :: EndsRight(now, run) ==> EndsRight(now, after)
  {
  }

  // ---------------------------------------------------------------- plannings that overlap

  /** The watermark a planning writes, from what it read in the hunt's row and what is committed
      when it looks. */
  function Watermark(read: Option<nat>, artifacts: seq<Artifact>): nat {
    if read.Some? then read.value else MaxSeq(artifacts)
  }

  lemma {:induction false} MaxSeqIsLast(artifacts: seq<Artifact>, next: nat)
    requires InCommitOrder(artifacts, next) && artifacts != []
    ensures MaxSeq(artifacts) == artifacts[|artifacts| - 1].seqno
  {
    var init := artifacts[..|artifacts| - 1];
    if init != [] {
      assert InCommitOrder(init, next);
      MaxSeqIsLast(init, next);
      assert init[|init| - 1] == artifacts[|artifacts| - 2];
    }
  }

  /** Two plannings of one hunt that both read it unplanned pin the same watermark exactly when
      nothing is committed between their looks. Otherwise the later one overwrites the pin. */
  lemma OverlappingPlansAgree(first: seq<Artifact>, second: seq<Artifact>, next: nat)
    requires InCommitOrder(second, next) && first <= second
    // a serial column starts at one
    requires forall i :: 0 <= i < |second| ==> second[i].seqno > 0
    ensures Watermark(None, first) == Watermark(None, second) <==> first == second
    ensures Watermark(Some(Watermark(None, first)), second) == Watermark(None, first)
  {
    if second != [] { MaxSeqIsLast(second, next); }
    if first != [] {
      assert InCommitOrder(first, next);
      MaxSeqIsLast(first, next);
      assert first[|first| - 1] == second[|first| - 1];
    }
    hide MaxSeq;
    if |first| == |second| { assert first == second; }
    if first == [] { assert MaxSeq(first) == 0 by { NoSequence(first); } }
  }

  lemma NoSequence(artifacts: seq<Artifact>)
    requires artifacts == []
    ensures MaxSeq(artifacts) == 0
  {
  }
}
