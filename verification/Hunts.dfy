/** Retro-hunts over an immutable scan cache, and forward scans (hunts.rs, continuous.rs), for
    one tenant, one engine version and one scan configuration.

    A crash is modelled by `fuel`: how many persisted writes a run may still make. `None` is a
    run that is not interrupted. */
module Hunts {
  import opened Options

  type ArtifactId = nat
  type HuntId = nat
  type Sha = nat
  type Digest = nat
  type RuleId = nat
  type Bytes = seq<nat>

  datatype Status = Clean | Matched | Timeout | Error

  /** A terminal scan result, as scanned and as cached. */
  datatype Outcome = Outcome(status: Status, rules: seq<RuleId>)

  datatype Artifact = Artifact(id: ArtifactId, sha: Sha, seqno: nat, endpoint: bool)

  datatype HuntState = Draft | Validating | Planned | Queued | Running | Completed | CompletedPartial | Failed | ActiveForward

  datatype Hunt = Hunt(
    retro: bool,
    bundle: Digest,
    state: HuntState,
    watermark: Option<nat>,
    planned: nat,
    scanned: nat,
    cacheHits: nat,
    tally: Tally,
    createdAt: nat)

  /** The three counters a rerun must reproduce. */
  datatype Tally = Tally(matched: nat, timedOut: nat, failed: nat)

  datatype Job = Job(enqueuedAt: nat, claimed: bool, finished: bool)

  datatype HuntError = NotFound | BadRequest | Conflict | RuleCompile | Crashed

  datatype MatchRow = MatchRow(hunt: HuntId, artifact: ArtifactId, rule: RuleId)

  datatype CacheKey = CacheKey(sha: Sha, bundle: Digest)

  /** What the engine cannot change: stored bytes, a scanner that is a function of bytes and
      bundle, which bundles compile, and whether the scanner tier is strong enough. */
  datatype World = World(
    objects: map<Sha, Bytes>,
    scan: (Digest, Bytes) -> Outcome,
    compiles: Digest -> bool,
    tierOk: bool)

  // ---------------------------------------------------------------- specification functions

  /** What scanning an artifact with a bundle ends in; unreadable bytes end in an error. */
  function Terminal(w: World, b: Digest, sha: Sha): Outcome {
    if sha in w.objects then w.scan(b, w.objects[sha]) else Outcome(Error, [])
  }

  /** The committed endpoint artifacts at or below the watermark, in commit order. */
  function Pinned(artifacts: seq<Artifact>, watermark: nat): seq<Artifact> {
    if artifacts == [] then []
    else
      var last := artifacts[|artifacts| - 1];
      Pinned(artifacts[..|artifacts| - 1], watermark)
      + (if last.endpoint && last.seqno <= watermark then [last] else [])
  }

  function MaxSeq(artifacts: seq<Artifact>): nat {
    if artifacts == [] then 0
    else
      var rest, last := MaxSeq(artifacts[..|artifacts| - 1]), artifacts[|artifacts| - 1].seqno;
      if last > rest then last else rest
  }

  ghost function RuleRows(h: HuntId, a: ArtifactId, rules: seq<RuleId>): set<MatchRow> {
    set r | r in rules :: MatchRow(h, a, r)
  }

  ghost function RowsOf(w: World, h: HuntId, b: Digest, a: Artifact): set<MatchRow> {
    var t := Terminal(w, b, a.sha);
    if t.status.Matched? then RuleRows(h, a.id, t.rules) else {}
  }

  /** The match rows a hunt over these artifacts must end with. */
  ghost function Rows(w: World, h: HuntId, b: Digest, artifacts: seq<Artifact>): set<MatchRow> {
    if artifacts == [] then {}
    else Rows(w, h, b, artifacts[..|artifacts| - 1]) + RowsOf(w, h, b, artifacts[|artifacts| - 1])
  }

  ghost function TallyOf(t: Outcome): Tally {
    match t.status
    case Matched => Tally(|t.rules|, 0, 0)
    case Timeout => Tally(0, 1, 0)
    case Error => Tally(0, 0, 1)
    case Clean => Tally(0, 0, 0)
  }

  ghost function Plus(x: Tally, y: Tally): Tally {
    Tally(x.matched + y.matched, x.timedOut + y.timedOut, x.failed + y.failed)
  }

  ghost function Totals(w: World, b: Digest, artifacts: seq<Artifact>): Tally {
    if artifacts == [] then Tally(0, 0, 0)
    else Plus(Totals(w, b, artifacts[..|artifacts| - 1]), TallyOf(Terminal(w, b, artifacts[|artifacts| - 1].sha)))
  }

  function FinalState(t: Tally): HuntState {
    if t.timedOut > 0 || t.failed > 0 then CompletedPartial else Completed
  }

  ghost predicate CacheSound(w: World, cache: map<CacheKey, Outcome>) {
    forall k :: k in cache ==> cache[k] == Terminal(w, k.bundle, k.sha)
  }

  ghost predicate Cached(cache: map<CacheKey, Outcome>, b: Digest, artifacts: seq<Artifact>) {
    forall a :: a in artifacts ==> CacheKey(a.sha, b) in cache
  }

  ghost function RowsOfHunt(matches: set<MatchRow>, h: HuntId): set<MatchRow> {
    set m | m in matches && m.hunt == h
  }

  /** Same hunt, whatever its progress. */
  ghost predicate SamePlan(x: Hunt, y: Hunt) {
    x.retro == y.retro && x.bundle == y.bundle && x.watermark == y.watermark && x.planned == y.planned
  }

  /** A retro-hunt's rows lie among those its pinned artifacts determine; one that is not
      planned has none. */
  ghost predicate HuntOk(w: World, artifacts: seq<Artifact>, matches: set<MatchRow>, h: HuntId, hunt: Hunt) {
    hunt.retro ==>
      match hunt.watermark
      case Some(x) =>
        && w.tierOk && w.compiles(hunt.bundle)
        && RowsOfHunt(matches, h) <= Rows(w, h, hunt.bundle, Pinned(artifacts, x))
        && (Pinned(artifacts, x) == [] ==> hunt.tally == Tally(0, 0, 0))
      case None => RowsOfHunt(matches, h) == {} && hunt.tally == Tally(0, 0, 0)
  }

  ghost predicate HuntsOk(w: World, artifacts: seq<Artifact>, matches: set<MatchRow>, hunts: map<HuntId, Hunt>) {
    && (forall m :: m in matches ==> m.hunt in hunts)
    && (forall h :: h in hunts ==> HuntOk(w, artifacts, matches, h, hunts[h]))
  }

  /** Sequence numbers grow in commit order, possibly with gaps, and a digest is stored once. */
  ghost predicate InCommitOrder(artifacts: seq<Artifact>, next: nat) {
    && next > 0
    && (forall i :: 0 <= i < |artifacts| ==> artifacts[i].seqno < next)
    && (forall i, j :: 0 <= i < j < |artifacts| ==> artifacts[i].seqno < artifacts[j].seqno && artifacts[i].sha != artifacts[j].sha)
  }

  ghost predicate WatermarksBelow(hunts: map<HuntId, Hunt>, next: nat) {
    forall h :: h in hunts && hunts[h].watermark.Some? ==> hunts[h].watermark.value < next
  }

  /** The artifact of a forward row has a cached result: the cache is written before the rows. */
  ghost predicate RowCached(artifacts: seq<Artifact>, cache: map<CacheKey, Outcome>, b: Digest, m: MatchRow) {
    exists a :: a in artifacts && a.id == m.artifact && CacheKey(a.sha, b) in cache
  }

  ghost predicate OneIdEach(artifacts: seq<Artifact>) {
    forall i, j :: 0 <= i < j < |artifacts| ==> artifacts[i].id != artifacts[j].id
  }

  /** Forward hunts stand under their bundles, and their rows are of cached artifacts. */
  ghost predicate ForwardOk(artifacts: seq<Artifact>, cache: map<CacheKey, Outcome>, matches: set<MatchRow>,
                            hunts: map<HuntId, Hunt>, forwardOf: map<Digest, HuntId>) {
    && (forall b :: b in forwardOf ==> forwardOf[b] in hunts && !hunts[forwardOf[b]].retro && hunts[forwardOf[b]].bundle == b)
    && OneIdEach(artifacts)
    && (forall m :: m in matches && m.hunt in hunts && !hunts[m.hunt].retro ==> RowCached(artifacts, cache, hunts[m.hunt].bundle, m))
  }

  /** How many of `n` writes are made. */
  function Reach(fuel: Option<nat>, n: nat): (k: nat)
    ensures k <= n
  {
    if fuel.None? || fuel.value >= n then n else fuel.value
  }

  function Less(fuel: Option<nat>, k: nat): Option<nat>
    requires fuel.Some? ==> k <= fuel.value
  {
    if fuel.None? then None else Some(fuel.value - k)
  }

  /** The states in which an activation reuses a retro-hunt. */
  predicate Open(hunts: map<HuntId, Hunt>, h: HuntId, b: Digest) {
    h in hunts && hunts[h].retro && hunts[h].bundle == b
    && (hunts[h].state.Queued? || hunts[h].state.Running? || hunts[h].state.Validating? || hunts[h].state.Planned? || hunts[h].state.Draft?)
  }

  function Spend(fuel: Option<nat>): Option<nat>
    requires fuel != Some(0)
  {
    if fuel.None? then None else Some(fuel.value - 1)
  }

  /** The rows a forward scan that gets as far as caching writes for one bundle: those of its
      first rules, all of them unless it is cut. */
  ghost function ForwardRows(w: World, forwardOf: map<Digest, HuntId>, a: Artifact, b: Digest, fuel: Option<nat>): set<MatchRow>
    requires fuel != Some(0)
  {
    var rules := Terminal(w, b, a.sha).rules;
    if b in forwardOf then RuleRows(forwardOf[b], a.id, rules[..Reach(Spend(fuel), |rules|)]) else {}
  }

  /** What a forward hunt's counters say after one more scan: every terminal result counts,
      not only a match. */
  function Counted(x: Hunt, t: Outcome): (y: Hunt)
    ensures SamePlan(y, x) && y.state == x.state && y.createdAt == x.createdAt
  {
    match t.status
    case Clean => x.(scanned := x.scanned + 1, tally := x.tally.(matched := x.tally.matched + |t.rules|))
    case Matched => x.(scanned := x.scanned + 1, tally := x.tally.(matched := x.tally.matched + |t.rules|))
    case Timeout => x.(tally := x.tally.(timedOut := x.tally.timedOut + 1))
    case Error => x.(tally := x.tally.(failed := x.tally.failed + 1))
  }

  // ---------------------------------------------------------------- the tables as an object

  class HuntDb {
    const world: World
    var nextSeq: nat
    var artifacts: seq<Artifact>
    var active: set<Digest>
    var forwardOf: map<Digest, HuntId>
    var cache: map<CacheKey, Outcome>
    var matches: set<MatchRow>
    var hunts: map<HuntId, Hunt>
    var jobs: map<HuntId, Job>

    ghost predicate Valid()
      reads this
    {
      && CacheSound(world, cache)
      && InCommitOrder(artifacts, nextSeq)
      && WatermarksBelow(hunts, nextSeq)
      && HuntsOk(world, artifacts, matches, hunts)
      && ForwardOk(artifacts, cache, matches, hunts, forwardOf)
    }

    constructor (w: World)
      ensures Valid() && world == w && artifacts == [] && cache == map[] && matches == {} && hunts == map[] && jobs == map[]
      ensures active == {} && forwardOf == map[]
    {
      world, nextSeq, artifacts, active, forwardOf := w, 1, [], {}, map[];
      cache, matches, hunts, jobs := map[], {}, map[], map[];
    }

    /** The artifact row of a committed upload: one per digest. `seq` is a serial column, of
        which `skipped` numbers went to inserts that came to nothing. */
    method CommitArtifact(id: ArtifactId, sha: Sha, endpoint: bool, skipped: nat)
      requires Valid() && forall a :: a in artifacts ==> a.id != id
      modifies this`artifacts, this`nextSeq
      ensures Valid()
      ensures (exists a :: a in old(artifacts) && a.sha == sha) ==> artifacts == old(artifacts)
      ensures !(exists a :: a in old(artifacts) && a.sha == sha) ==>
                artifacts == old(artifacts) + [Artifact(id, sha, old(nextSeq) + skipped, endpoint)]
    {
      var k := 0;
      while k < |artifacts|
        invariant 0 <= k <= |artifacts| && forall i :: 0 <= i < k ==> artifacts[i].sha != sha
      {
        if artifacts[k].sha == sha { return; }
        k := k + 1;
      }
      CommitKeepsHunts(world, artifacts, Artifact(id, sha, nextSeq + skipped, endpoint), matches, hunts);
      CommitKeepsForward(artifacts, Artifact(id, sha, nextSeq + skipped, endpoint), cache, matches, hunts, forwardOf);
      hide HuntsOk, CacheSound, ForwardOk;
      artifacts := artifacts + [Artifact(id, sha, nextSeq + skipped, endpoint)];
      nextSeq := nextSeq + skipped + 1;
    }

    /** INSERT … ON CONFLICT (hunt, artifact, rule) DO NOTHING. */
    method CommitMatch(h: HuntId, a: ArtifactId, r: RuleId) returns (inserted: bool)
      modifies this`matches
      ensures matches == old(matches) + {MatchRow(h, a, r)}
      ensures inserted <==> MatchRow(h, a, r) !in old(matches)
    {
      inserted := MatchRow(h, a, r) !in matches;
      if inserted { matches := matches + {MatchRow(h, a, r)}; }
    }

    /** INSERT … ON CONFLICT DO NOTHING: the first terminal result stays. */
    method CommitCacheEntry(k: CacheKey, t: Outcome)
      modifies this`cache
      ensures cache == if k in old(cache) then old(cache) else old(cache)[k := t]
    {
      if k !in cache { cache := cache[k := t]; }
    }

    method CacheLookup(k: CacheKey) returns (hit: Option<Outcome>)
      ensures hit == if k in cache then Some(cache[k]) else None
    {
      if k in cache { hit := Some(cache[k]); } else { hit := None; }
    }

    /** Commits one match row per rule; stops when the fuel is gone. */
    method CommitMatches(h: HuntId, a: ArtifactId, rules: seq<RuleId>, fuel0: Option<nat>) returns (ok: bool, fuel: Option<nat>)
      modifies this`matches
      ensures old(matches) <= matches <= old(matches) + RuleRows(h, a, rules)
      ensures matches == old(matches) + RuleRows(h, a, rules[..Reach(fuel0, |rules|)])
      ensures ok <==> Reach(fuel0, |rules|) == |rules|
      ensures fuel == Less(fuel0, Reach(fuel0, |rules|))
      ensures ok ==> matches == old(matches) + RuleRows(h, a, rules)
      ensures fuel0.None? ==> ok && fuel.None?
    {
      hide RuleRows;
      NoRuleRows(h, a, rules);
      fuel := fuel0;
      for k := 0 to |rules|
        invariant matches == old(matches) + RuleRows(h, a, rules[..k])
        invariant k <= Reach(fuel0, |rules|) && fuel == Less(fuel0, k)
      {
        if fuel == Some(0) {
          RuleRowsGrow(h, a, rules, k);
          return false, fuel;
        }
        fuel := Spend(fuel);
        var _ := CommitMatch(h, a, rules[k]);
        RuleRowsStep(h, a, rules, k);
      }
      assert rules[..|rules|] == rules;
      return true, fuel;
    }

    /** One turn of the artifact loop, up to the counter update. */
    method CoverArtifact(h: HuntId, b: Digest, a: Artifact, fuel0: Option<nat>)
      returns (ok: bool, fuel: Option<nat>, hit: bool, t: Outcome)
      requires CacheSound(world, cache)
      modifies this`cache, this`matches
      ensures t == Terminal(world, b, a.sha) && (hit <==> CacheKey(a.sha, b) in old(cache))
      ensures cache == old(cache) || cache == old(cache)[CacheKey(a.sha, b) := t]
      ensures old(matches) <= matches <= old(matches) + RowsOf(world, h, b, a)
      ensures ok ==> CacheKey(a.sha, b) in cache && matches == old(matches) + RowsOf(world, h, b, a)
      ensures hit ==> cache == old(cache)
      ensures fuel0.None? ==> ok && fuel.None?
    {
      ok, fuel := true, fuel0;
      var key := CacheKey(a.sha, b);
      var cached := CacheLookup(key);
      if cached.Some? {
        hit, t := true, cached.value;
        if t.status.Matched? {
          ok, fuel := CommitMatches(h, a.id, t.rules, fuel);
        }
      } else {
        hit := false;
        if a.sha in world.objects {
          t := world.scan(b, world.objects[a.sha]);
          if fuel == Some(0) { return false, fuel, hit, t; }
          fuel := Spend(fuel);
          CommitCacheEntry(key, t);
          if t.status.Matched? {
            ok, fuel := CommitMatches(h, a.id, t.rules, fuel);
          }
        } else {
          t := Outcome(Error, []);
          if fuel == Some(0) { return false, fuel, hit, t; }
          fuel := Spend(fuel);
          CommitCacheEntry(key, t);
        }
      }
    }

    /** `artifacts`, the pinned set and the hunt's identity survive every run, whole or cut. */
    twostate predicate RunKeeps(h: HuntId)
      reads this
      requires h in old(hunts)
    {
      && artifacts == old(artifacts) && jobs.Keys == old(jobs).Keys
      && h in hunts && hunts == old(hunts)[h := hunts[h]]
      && SamePlan(hunts[h], old(hunts)[h])
      && CacheSound(world, cache)
      && old(cache).Keys <= cache.Keys
    }

    ghost function PinnedOf(h: HuntId): seq<Artifact>
      reads this
      requires h in hunts && hunts[h].watermark.Some?
    {
      Pinned(artifacts, hunts[h].watermark.value)
    }

    /** The counter arithmetic of both branches of the loop. */
    method Count(hit: bool, t: Outcome, scanned0: nat, cacheHits0: nat, matched0: nat, timedOut0: nat, failed0: nat)
      returns (scanned: nat, cacheHits: nat, matched: nat, timedOut: nat, failed: nat)
      ensures Tally(matched, timedOut, failed) == Plus(Tally(matched0, timedOut0, failed0), TallyOf(t))
      ensures cacheHits == cacheHits0 + (if hit then 1 else 0)
      ensures scanned == scanned0 + (if !hit && (t.status.Clean? || t.status.Matched?) then 1 else 0)
    {
      scanned, cacheHits, matched, timedOut, failed := scanned0, cacheHits0, matched0, timedOut0, failed0;
      if hit {
        cacheHits := cacheHits + 1;
        if t.status.Timeout? { timedOut := timedOut + 1; }
        else if t.status.Error? { failed := failed + 1; }
        else if t.status.Matched? { matched := matched + |t.rules|; }
      } else {
        match t.status {
          case Matched => scanned := scanned + 1; matched := matched + |t.rules|;
          case Clean => scanned := scanned + 1;
          case Timeout => timedOut := timedOut + 1;
          case Error => failed := failed + 1;
        }
      }
    }

    /** The artifact loop of a running hunt, with its counter updates. */
    method CoverPinned(h: HuntId, b: Digest, planned: seq<Artifact>, fuel0: Option<nat>)
      returns (ok: bool, fuel: Option<nat>, tally: Tally)
      requires CacheSound(world, cache) && h in hunts
      modifies this`cache, this`matches, this`hunts
      ensures CacheSound(world, cache) && old(cache).Keys <= cache.Keys
      ensures h in hunts && hunts == old(hunts)[h := hunts[h]] && SamePlan(hunts[h], old(hunts)[h])
      ensures old(matches) <= matches <= old(matches) + Rows(world, h, b, planned)
      ensures fuel0.None? ==> ok && fuel.None?
      ensures planned == [] ==> hunts[h].tally == old(hunts)[h].tally
      ensures ok ==> matches == old(matches) + Rows(world, h, b, planned)
      ensures ok ==> tally == Totals(world, b, planned) && (planned != [] ==> hunts[h].tally == tally)
      ensures ok ==> Cached(cache, b, planned)
      ensures ok && Cached(old(cache), b, planned) ==> cache == old(cache)
      ensures ok && Cached(old(cache), b, planned) && planned != [] ==> hunts[h].scanned == 0 && hunts[h].cacheHits == |planned|
    {
      NothingYet(world, h, b);
      hide Rows, RowsOf, Totals, TallyOf, Plus, Terminal;
      fuel := fuel0;
      var scanned: nat, cacheHits: nat, matched: nat, timedOut: nat, failed: nat := 0, 0, 0, 0, 0;
      assert planned[..0] == [];
      for k := 0 to |planned|
        invariant CacheSound(world, cache) && old(cache).Keys <= cache.Keys
        invariant h in hunts && hunts == old(hunts)[h := hunts[h]] && SamePlan(hunts[h], old(hunts)[h])
        invariant matches == old(matches) + Rows(world, h, b, planned[..k])
        invariant Cached(cache, b, planned[..k])
        invariant Tally(matched, timedOut, failed) == Totals(world, b, planned[..k])
        invariant k == 0 ==> hunts[h].tally == old(hunts)[h].tally
        invariant k > 0 ==> hunts[h].tally == Tally(matched, timedOut, failed) && hunts[h].scanned == scanned && hunts[h].cacheHits == cacheHits
        invariant Cached(old(cache), b, planned) ==> cache == old(cache) && scanned == 0 && cacheHits == k
        invariant fuel0.None? ==> fuel.None?
      {
        var a := planned[k];
        PrefixStep(world, h, b, planned, k);
        PrefixWithin(world, h, b, planned, k + 1);
        assert a in planned;
        var covered, hit, t;
        covered, fuel, hit, t := CoverArtifact(h, b, a, fuel);
        if !covered { return false, fuel, Tally(0, 0, 0); }
        scanned, cacheHits, matched, timedOut, failed := Count(hit, t, scanned, cacheHits, matched, timedOut, failed);
        if fuel == Some(0) { return false, fuel, Tally(0, 0, 0); }
        fuel := Spend(fuel);
        hunts := hunts[h := hunts[h].(scanned := scanned, cacheHits := cacheHits, tally := Tally(matched, timedOut, failed))];
      }
      assert planned[..|planned|] == planned;
      return true, fuel, Tally(matched, timedOut, failed);
    }

    /** Runs a planned hunt. Only a completed run returns `Ok`. */
    method ExecuteHunt(h: HuntId, fuel0: Option<nat>) returns (r: Result<Hunt, HuntError>)
      requires Valid()
      modifies this`cache, this`matches, this`hunts, this`jobs
      ensures Valid()
      ensures h !in old(hunts) ==> r == Err(NotFound) && hunts == old(hunts) && matches == old(matches) && cache == old(cache)
      ensures h in old(hunts) ==> RunKeeps(h)
      ensures h in old(hunts) && !old(hunts)[h].retro ==> r == Err(BadRequest) && matches == old(matches)
      ensures h in old(hunts) && fuel0.None? ==>
                (r.Ok? <==> hunts[h].retro && world.compiles(hunts[h].bundle) && hunts[h].watermark.Some? && world.tierOk)
      // whole or cut, a run writes only rows it must end with
      ensures h in old(hunts) ==> old(matches) <= matches
      ensures h in old(hunts) && hunts[h].watermark.Some? ==>
                matches <= old(matches) + Rows(world, h, hunts[h].bundle, PinnedOf(h))
      ensures h in old(hunts) && hunts[h].watermark.None? ==> matches == old(matches)
      ensures h in old(hunts) && hunts[h].watermark.Some? && PinnedOf(h) == [] ==> hunts[h].tally == old(hunts)[h].tally
      ensures r.Ok? ==>
                && h in old(hunts) && r.value == hunts[h] && hunts[h].watermark.Some?
                && matches == old(matches) + Rows(world, h, hunts[h].bundle, PinnedOf(h))
                && hunts[h].state == FinalState(Totals(world, hunts[h].bundle, PinnedOf(h)))
                && StateIs(world, hunts[h].bundle, artifacts, hunts[h].watermark.value, hunts[h].state)
                // with nothing to cover, the counters stay as planning left them
                && hunts[h].tally == (if PinnedOf(h) == [] then old(hunts)[h].tally else Totals(world, hunts[h].bundle, PinnedOf(h)))
                && Cached(cache, hunts[h].bundle, PinnedOf(h))
                // a rerun over a full cache reads no bytes
                && (Cached(old(cache), hunts[h].bundle, PinnedOf(h)) ==>
                      cache == old(cache) && (PinnedOf(h) != [] ==> hunts[h].scanned == 0 && hunts[h].cacheHits == |PinnedOf(h)|))
    {
      hide CacheSound, Rows, Totals, FinalState, Cached, Pinned, HuntOk, InCommitOrder, ForwardOk, StateIs;
      if h !in hunts { return Err(NotFound); }
      var hunt := hunts[h];
      if !hunt.retro { return Err(BadRequest); }
      ghost var hunts0, matches0 := hunts, matches;
      ghost var cache0 := cache;
      r := RunChecked(h, fuel0);
      if r.Ok? { StateInScans(world, hunts[h].bundle, artifacts, hunts[h].watermark.value); }
      RunKeepsHunts(world, artifacts, matches0, matches, hunts0, h, hunts[h]);
      if hunts[h].watermark.Some? { RowsBelongToHunt(world, h, hunts[h].bundle, PinnedOf(h)); }
      RetroKeepsForward(artifacts, cache0, cache, matches0, matches, hunts0, hunts, forwardOf, h);
    }

    /** The checks of a retro-hunt, and the run. */
    method RunChecked(h: HuntId, fuel0: Option<nat>) returns (r: Result<Hunt, HuntError>)
      requires CacheSound(world, cache) && h in hunts && hunts[h].retro
      modifies this`cache, this`matches, this`hunts, this`jobs
      ensures RunKeeps(h)
      ensures fuel0.None? ==> (r.Ok? <==> world.compiles(hunts[h].bundle) && hunts[h].watermark.Some? && world.tierOk)
      ensures old(matches) <= matches
      ensures hunts[h].watermark.Some? ==> matches <= old(matches) + Rows(world, h, hunts[h].bundle, PinnedOf(h))
      ensures hunts[h].watermark.None? ==> matches == old(matches)
      ensures hunts[h].watermark.Some? && PinnedOf(h) == [] ==> hunts[h].tally == old(hunts)[h].tally
      ensures hunts[h].watermark.None? ==> hunts[h].tally == old(hunts)[h].tally
      ensures r.Ok? ==>
                && r.value == hunts[h] && hunts[h].watermark.Some?
                && matches == old(matches) + Rows(world, h, hunts[h].bundle, PinnedOf(h))
                && hunts[h].state == FinalState(Totals(world, hunts[h].bundle, PinnedOf(h)))
                && (PinnedOf(h) != [] ==> hunts[h].tally == Totals(world, hunts[h].bundle, PinnedOf(h)))
                && Cached(cache, hunts[h].bundle, PinnedOf(h))
                && (Cached(old(cache), hunts[h].bundle, PinnedOf(h)) ==>
                      cache == old(cache) && (PinnedOf(h) != [] ==> hunts[h].scanned == 0 && hunts[h].cacheHits == |PinnedOf(h)|))
    {
      hide CacheSound, Rows, Totals, FinalState, Cached, Pinned;
      var hunt := hunts[h];
      if !world.compiles(hunt.bundle) {
        if fuel0 == Some(0) { return Err(Crashed); }
        hunts := hunts[h := hunt.(state := Failed)];
        return Err(RuleCompile);
      }
      if hunt.watermark.None? { return Err(BadRequest); }
      if !world.tierOk {
        if fuel0 == Some(0) { return Err(Crashed); }
        hunts := hunts[h := hunt.(state := Failed)];
        return Err(BadRequest);
      }
      var ok := RunPlanned(h, hunt.bundle, Pinned(artifacts, hunt.watermark.value), fuel0);
      if !ok { return Err(Crashed); }
      return Ok(hunts[h]);
    }

    /** From RUNNING to the final state. */
    method RunPlanned(h: HuntId, b: Digest, planned: seq<Artifact>, fuel0: Option<nat>) returns (ok: bool)
      requires CacheSound(world, cache) && h in hunts
      modifies this`cache, this`matches, this`hunts, this`jobs
      ensures RunKeeps(h)
      ensures old(matches) <= matches <= old(matches) + Rows(world, h, b, planned)
      ensures fuel0.None? ==> ok
      ensures planned == [] ==> hunts[h].tally == old(hunts)[h].tally
      ensures ok ==>
                && matches == old(matches) + Rows(world, h, b, planned)
                && hunts[h].state == FinalState(Totals(world, b, planned))
                && (planned != [] ==> hunts[h].tally == Totals(world, b, planned))
                && Cached(cache, b, planned)
                && (Cached(old(cache), b, planned) ==>
                      cache == old(cache) && (planned != [] ==> hunts[h].scanned == 0 && hunts[h].cacheHits == |planned|))
    {
      hide CacheSound, Rows, Totals, FinalState, Cached;
      var fuel, tally;
      ok, fuel := MarkRunning(h, fuel0);
      if !ok { return; }
      ok, fuel, tally := CoverPinned(h, b, planned, fuel);
      if !ok { return; }
      ok := MarkFinal(h, tally, fuel);
    }

    method MarkRunning(h: HuntId, fuel0: Option<nat>) returns (ok: bool, fuel: Option<nat>)
      requires h in hunts
      modifies this`hunts, this`jobs
      ensures h in hunts && hunts == old(hunts)[h := old(hunts)[h].(state := hunts[h].state)] && jobs.Keys == old(jobs).Keys
      ensures fuel0.None? ==> ok && fuel.None?
    {
      fuel := fuel0;
      if fuel == Some(0) { return false, fuel; }
      fuel := Spend(fuel);
      hunts := hunts[h := hunts[h].(state := Running)];
      if fuel == Some(0) { return false, fuel; }
      fuel := Spend(fuel);
      if h in jobs { jobs := jobs[h := jobs[h].(claimed := true)]; }
      return true, fuel;
    }

    method MarkFinal(h: HuntId, tally: Tally, fuel0: Option<nat>) returns (ok: bool)
      requires h in hunts
      modifies this`hunts, this`jobs
      ensures h in hunts && hunts == old(hunts)[h := old(hunts)[h].(state := hunts[h].state)] && jobs.Keys == old(jobs).Keys
      ensures ok ==> hunts[h].state == FinalState(tally)
      ensures fuel0.None? ==> ok
    {
      if fuel0 == Some(0) { return false; }
      hunts := hunts[h := hunts[h].(state := FinalState(tally))];
      if Spend(fuel0) == Some(0) { return false; }
      if h in jobs { jobs := jobs[h := jobs[h].(finished := true)]; }
      return true;
    }

    method CreateHunt(b: Digest, id: HuntId, at: nat)
      requires Valid() && id !in hunts
      modifies this`hunts
      ensures Valid()
      ensures hunts == old(hunts)[id := Hunt(true, b, Draft, None, 0, 0, 0, Tally(0, 0, 0), at)]
    {
      hide CacheSound, InCommitOrder;
      NewHuntKeepsHunts(world, artifacts, matches, hunts, id, Hunt(true, b, Draft, None, 0, 0, 0, Tally(0, 0, 0), at));
      NewHuntKeepsForward(world, artifacts, cache, matches, hunts, forwardOf, id, Hunt(true, b, Draft, None, 0, 0, 0, Tally(0, 0, 0), at));
      hide HuntsOk, ForwardOk;
      hunts := hunts[id := Hunt(true, b, Draft, None, 0, 0, 0, Tally(0, 0, 0), at)];
    }

    /** A planned hunt, ready to be run again and again. */
    ghost predicate Resumable(h: HuntId)
      reads this
    {
      Valid() && h in hunts && hunts[h].retro && hunts[h].watermark.Some?
    }

    ghost function PlannedAs(h: HuntId, state: HuntState): Hunt
      reads this
      requires h in hunts
    {
      var w := if hunts[h].watermark.Some? then hunts[h].watermark.value else MaxSeq(artifacts);
      Hunt(true, hunts[h].bundle, state, Some(w), |Pinned(artifacts, w)|, 0, 0, Tally(0, 0, 0), hunts[h].createdAt)
    }

    ghost predicate Plannable(h: HuntId)
      reads this
    {
      && h in hunts && hunts[h].retro && !hunts[h].state.Running? && !hunts[h].state.Queued?
      && world.tierOk
    }

    /** Plans a retro hunt. A watermark, once pinned, is pinned for good. */
    method EnqueueHunt(h: HuntId, at: nat, fuel0: Option<nat>) returns (r: Result<Hunt, HuntError>)
      requires Valid()
      modifies this`hunts, this`jobs
      ensures Valid()
      ensures fuel0.None? ==> (r.Ok? <==> old(Plannable(h)) && world.compiles(old(hunts)[h].bundle))
      ensures r.Ok? ==>
                && Resumable(h) && old(Plannable(h)) && r.value == hunts[h]
                && hunts == old(hunts)[h := old(PlannedAs(h, Queued))]
                && jobs == old(jobs)[h := Job(at, false, false)]
      ensures r.Err? ==> jobs == old(jobs)
      ensures r.Err? && r.error != RuleCompile && r.error != Crashed ==> hunts == old(hunts)
      ensures r == Err(RuleCompile) ==> h in old(hunts) && hunts == old(hunts)[h := old(hunts)[h].(state := Failed)]
      // cut at any of its writes
      ensures r == Err(Crashed) ==>
                && old(Plannable(h))
                && (|| hunts == old(hunts)
                    || hunts == old(hunts)[h := old(hunts)[h].(state := Validating)]
                    || hunts == old(hunts)[h := old(PlannedAs(h, Planned))]
                    || hunts == old(hunts)[h := old(PlannedAs(h, Queued))])
    {
      hide Valid, Pinned, MaxSeq;
      if h !in hunts { return Err(NotFound); }
      var hunt := hunts[h];
      if !hunt.retro { return Err(BadRequest); }
      if hunt.state.Running? || hunt.state.Queued? { return Err(Conflict); }
      if !world.tierOk { return Err(BadRequest); }
      if fuel0 == Some(0) { return Err(Crashed); }
      MarkState(h, Validating);
      var fuel := Spend(fuel0);
      if !world.compiles(hunt.bundle) {
        if fuel == Some(0) { return Err(Crashed); }
        MarkState(h, Failed);
        return Err(RuleCompile);
      }
      if fuel == Some(0) { return Err(Crashed); }
      WritePlan(h);
      fuel := Spend(fuel);
      if fuel == Some(0) { return Err(Crashed); }
      MarkState(h, Queued);
      fuel := Spend(fuel);
      if fuel == Some(0) { return Err(Crashed); }
      AddJob(h, at);
      return Ok(hunts[h]);
    }

    method AddJob(h: HuntId, at: nat)
      requires Valid()
      modifies this`jobs
      ensures Valid() && jobs == old(jobs)[h := Job(at, false, false)]
    {
      hide CacheSound, HuntsOk, InCommitOrder, ForwardOk;
      jobs := jobs[h := Job(at, false, false)];
    }

    method MarkState(h: HuntId, state: HuntState)
      requires Valid() && h in hunts
      modifies this`hunts
      ensures Valid() && hunts == old(hunts)[h := old(hunts)[h].(state := state)]
    {
      hide CacheSound, InCommitOrder;
      StateKeepsHunts(world, artifacts, matches, hunts, h, state);
      PlansKeepForward(artifacts, cache, matches, hunts, hunts[h := hunts[h].(state := state)], forwardOf);
      hide HuntsOk, ForwardOk;
      hunts := hunts[h := hunts[h].(state := state)];
    }

    /** The update that pins the watermark and resets the counters. */
    method WritePlan(h: HuntId)
      requires Valid() && h in hunts && hunts[h].retro && world.tierOk && world.compiles(hunts[h].bundle)
      modifies this`hunts
      ensures Valid() && hunts == old(hunts)[h := old(PlannedAs(h, Planned))]
    {
      hide CacheSound;
      MaxSeqBelow(artifacts, nextSeq);
      PlanKeepsHunts(world, artifacts, matches, hunts, h, PlannedAs(h, Planned));
      PlansKeepForward(artifacts, cache, matches, hunts, hunts[h := PlannedAs(h, Planned)], forwardOf);
      hide HuntsOk, InCommitOrder, ForwardOk;
      var hunt := hunts[h];
      var w := if hunt.watermark.Some? then hunt.watermark.value else MaxSeq(artifacts);
      hunts := hunts[h := Hunt(true, hunt.bundle, Planned, Some(w), |Pinned(artifacts, w)|, 0, 0, Tally(0, 0, 0), hunt.createdAt)];
    }

    ghost predicate Pending(h: HuntId)
      reads this
    {
      h in jobs && !jobs[h].claimed && !jobs[h].finished
    }

    /** Hands out the oldest waiting job, in one transaction. */
    method ClaimNextJob() returns (r: Option<HuntId>)
      requires Valid()
      modifies this`hunts, this`jobs
      ensures Valid()
      ensures r.None? ==> hunts == old(hunts) && jobs == old(jobs) && forall h :: h in jobs ==> !Pending(h)
      ensures r.Some? ==>
                && old(Pending(r.value))
                && (forall g :: g in old(jobs) && old(Pending(g)) ==> old(jobs)[r.value].enqueuedAt <= old(jobs)[g].enqueuedAt)
                && jobs == old(jobs)[r.value := old(jobs)[r.value].(claimed := true)]
                && hunts == (if r.value in old(hunts) && old(hunts)[r.value].state.Queued?
                             then old(hunts)[r.value := old(hunts)[r.value].(state := Running)] else old(hunts))
    {
      hide CacheSound, InCommitOrder, HuntsOk, ForwardOk;
      var todo := jobs.Keys;
      r := None;
      while todo != {}
        invariant todo <= jobs.Keys
        invariant r.Some? ==> Pending(r.value)
        invariant forall g :: g in jobs && g !in todo && Pending(g) ==> r.Some? && jobs[r.value].enqueuedAt <= jobs[g].enqueuedAt
        decreases |todo|
      {
        var h :| h in todo;
        todo := todo - {h};
        if !jobs[h].claimed && !jobs[h].finished && (r.None? || jobs[h].enqueuedAt < jobs[r.value].enqueuedAt) {
          r := Some(h);
        }
      }
      if r.Some? {
        jobs := jobs[r.value := jobs[r.value].(claimed := true)];
        if r.value in hunts && hunts[r.value].state.Queued? {
          MarkState(r.value, Running);
        }
      }
    }

    /** Publishing with activation: the bundle is scanned forward from now on, under one
        persistent forward hunt. */
    method Activate(b: Digest, id: HuntId, at: nat)
      requires Valid() && id !in hunts
      modifies this`active, this`hunts, this`forwardOf
      ensures Valid()
      ensures active == old(active) + {b}
      ensures b in old(forwardOf) ==> hunts == old(hunts) && forwardOf == old(forwardOf)
      ensures b !in old(forwardOf) ==>
                && forwardOf == old(forwardOf)[b := id]
                && hunts == old(hunts)[id := Hunt(false, b, ActiveForward, None, 0, 0, 0, Tally(0, 0, 0), at)]
    {
      hide CacheSound, InCommitOrder;
      NewHuntKeepsHunts(world, artifacts, matches, hunts, id, Hunt(false, b, ActiveForward, None, 0, 0, 0, Tally(0, 0, 0), at));
      NewHuntKeepsForward(world, artifacts, cache, matches, hunts, forwardOf, id, Hunt(false, b, ActiveForward, None, 0, 0, 0, Tally(0, 0, 0), at));
      hide HuntsOk;
      active := active + {b};
      if b !in forwardOf {
        hunts := hunts[id := Hunt(false, b, ActiveForward, None, 0, 0, 0, Tally(0, 0, 0), at)];
        forwardOf := forwardOf[b := id];
      }
    }

    // -------------------------------------------------------------- forward scans

    /** Only forward hunts gain rows or counts, and only for this artifact. */
    twostate predicate ForwardOnly(a: ArtifactId)
      reads this
    {
      && old(cache).Keys <= cache.Keys && old(matches) <= matches
      && (forall m :: m in matches && m !in old(matches) ==> m.hunt in forwardOf.Values && m.artifact == a)
      && hunts.Keys == old(hunts).Keys
      && (forall h :: h in hunts ==> SamePlan(hunts[h], old(hunts)[h]) && (hunts[h].retro ==> hunts[h] == old(hunts)[h]))
    }

    /** One active bundle of a forward scan. A cached result is the end of it: nothing is
        scanned and no row is written. */
    method ForwardBundle(a: Artifact, b: Digest, fuel0: Option<nat>) returns (r: Result<seq<RuleId>, HuntError>, fuel: Option<nat>)
      requires Valid() && a in artifacts && a.sha in world.objects
      modifies this`cache, this`matches, this`hunts
      ensures Valid() && ForwardOnly(a.id)
      ensures CacheKey(a.sha, b) in old(cache) ==>
                r == Ok([]) && fuel == fuel0 && cache == old(cache) && matches == old(matches) && hunts == old(hunts)
      ensures r == Err(RuleCompile) <==> CacheKey(a.sha, b) !in old(cache) && !world.compiles(b)
      ensures r.Err? ==> r.error == RuleCompile || r.error == Crashed
      ensures r == Err(RuleCompile) || (CacheKey(a.sha, b) !in old(cache) && fuel0 == Some(0)) ==>
                cache == old(cache) && matches == old(matches) && hunts == old(hunts)
      ensures CacheKey(a.sha, b) !in old(cache) && world.compiles(b) && fuel0 == Some(0) ==> r == Err(Crashed)
      ensures CacheKey(a.sha, b) !in old(cache) && world.compiles(b) && fuel0 != Some(0) ==>
                && cache == old(cache)[CacheKey(a.sha, b) := Terminal(world, b, a.sha)]
                && matches == old(matches) + ForwardRows(world, forwardOf, a, b, fuel0)
                && (r.Ok? ==> r.value == Terminal(world, b, a.sha).rules)
                && (r.Ok? ==> ForwardRows(world, forwardOf, a, b, fuel0) == ForwardRows(world, forwardOf, a, b, None))
      // the counters are the last write
      ensures r.Ok? && CacheKey(a.sha, b) !in old(cache) ==>
                hunts == if b in forwardOf
                         then old(hunts)[forwardOf[b] := Counted(old(hunts)[forwardOf[b]], Terminal(world, b, a.sha))]
                         else old(hunts)
      ensures r.Err? ==> hunts == old(hunts)
      ensures fuel0.None? ==> fuel.None? && r != Err(Crashed)
    {
      hide Valid, ForwardRows, Counted, Terminal;
      fuel := fuel0;
      var hit := CacheLookup(CacheKey(a.sha, b));
      if hit.Some? { return Ok([]), fuel; }
      if !world.compiles(b) { return Err(RuleCompile), fuel; }
      if fuel == Some(0) { return Err(Crashed), fuel; }
      r, fuel := ForwardMiss(a, b, fuel);
    }

    method ForwardMiss(a: Artifact, b: Digest, fuel0: Option<nat>) returns (r: Result<seq<RuleId>, HuntError>, fuel: Option<nat>)
      requires Valid() && a in artifacts && a.sha in world.objects && CacheKey(a.sha, b) !in cache && world.compiles(b) && fuel0 != Some(0)
      modifies this`cache, this`matches, this`hunts
      ensures Valid() && ForwardOnly(a.id)
      ensures cache == old(cache)[CacheKey(a.sha, b) := Terminal(world, b, a.sha)]
      ensures matches == old(matches) + ForwardRows(world, forwardOf, a, b, fuel0)
      ensures r.Ok? ==>
                && r.value == Terminal(world, b, a.sha).rules
                && ForwardRows(world, forwardOf, a, b, fuel0) == ForwardRows(world, forwardOf, a, b, None)
                && hunts == if b in forwardOf
                            then old(hunts)[forwardOf[b] := Counted(old(hunts)[forwardOf[b]], Terminal(world, b, a.sha))]
                            else old(hunts)
      ensures r.Err? ==> r.error == Crashed && hunts == old(hunts)
      ensures fuel0.None? ==> fuel.None? && r.Ok?
    {
      hide Valid, Counted, Terminal;
      fuel := Spend(fuel0);
      var t := ScanAndCache(a.sha, b);
      if b in forwardOf {
        ForwardHuntIsKnown(b);
        var ok;
        ok, fuel := CountForward(forwardOf[b], a, t, fuel);
        WholeRules(t.rules);
        if !ok { return Err(Crashed), fuel; }
      }
      return Ok(t.rules), fuel;
    }

    lemma ForwardHuntIsKnown(b: Digest)
      requires Valid() && b in forwardOf
      ensures forwardOf[b] in hunts && !hunts[forwardOf[b]].retro && hunts[forwardOf[b]].bundle == b
    {
    }

    method ScanAndCache(sha: Sha, b: Digest) returns (t: Outcome)
      requires Valid() && sha in world.objects && CacheKey(sha, b) !in cache && world.compiles(b)
      modifies this`cache
      ensures Valid() && t == Terminal(world, b, sha) && cache == old(cache)[CacheKey(sha, b) := t]
    {
      t := world.scan(b, world.objects[sha]);
      CacheKeepsForward(artifacts, cache, cache[CacheKey(sha, b) := t], matches, hunts, forwardOf);
      hide HuntsOk, InCommitOrder, ForwardOk;
      CommitCacheEntry(CacheKey(sha, b), t);
    }

    /** Rows and then counters of one forward scan. */
    method CountForward(h: HuntId, a: Artifact, t: Outcome, fuel0: Option<nat>) returns (ok: bool, fuel: Option<nat>)
      requires Valid() && h in hunts && !hunts[h].retro && a in artifacts && CacheKey(a.sha, hunts[h].bundle) in cache
      modifies this`matches, this`hunts
      ensures Valid()
      ensures matches == old(matches) + RuleRows(h, a.id, t.rules[..Reach(fuel0, |t.rules|)])
      ensures fuel0.None? ==> ok && fuel.None?
      ensures ok ==> Reach(fuel0, |t.rules|) == |t.rules| && hunts == old(hunts)[h := Counted(old(hunts)[h], t)]
      ensures !ok ==> hunts == old(hunts)
    {
      hide HuntsOk, CacheSound, InCommitOrder, ForwardOk, Counted;
      ghost var matches0, hunts0 := matches, hunts;
      ok, fuel := CommitMatches(h, a.id, t.rules, fuel0);
      if !ok || fuel == Some(0) {
        ForwardKeepsHunts(world, artifacts, matches0, matches, hunts0, hunts, h);
        ForwardKeepsForward(artifacts, cache, matches0, matches, hunts0, hunts, forwardOf, h, a);
        return false, fuel;
      }
      fuel := Spend(fuel);
      hunts := hunts[h := Counted(hunts[h], t)];
      ForwardKeepsHunts(world, artifacts, matches0, matches, hunts0, hunts, h);
      ForwardKeepsForward(artifacts, cache, matches0, matches, hunts0, hunts, forwardOf, h, a);
      return true, fuel;
    }

    /** Scans freshly committed bytes with every active bundle. `Err` is a bundle that does not
        compile, or a cut; the scans made before it stay. */
    method ForwardScan(a: Artifact, fuel0: Option<nat>) returns (r: Result<seq<RuleId>, HuntError>)
      requires Valid() && a in artifacts && a.sha in world.objects
      modifies this`cache, this`matches, this`hunts
      ensures Valid() && ForwardOnly(a.id)
      // afterwards every active bundle has a terminal result for these bytes
      ensures r.Ok? ==> forall b :: b in active ==> CacheKey(a.sha, b) in cache
      ensures fuel0.None? ==> (r.Ok? <==> forall b :: b in active && CacheKey(a.sha, b) !in old(cache) ==> world.compiles(b))
      ensures fuel0.None? ==> r != Err(Crashed)
      // and the forward hunts of the bundles scanned now have all their rows, and no others
      ensures r.Ok? ==> forall b :: b in active && CacheKey(a.sha, b) !in old(cache) ==> ForwardRows(world, forwardOf, a, b, None) <= matches
      ensures forall m :: m in matches && m !in old(matches) ==>
                exists b :: b in active && CacheKey(a.sha, b) !in old(cache) && m in ForwardRows(world, forwardOf, a, b, None)
    {
      hide Valid, ForwardRows, Counted, Terminal;
      var todo := active;
      var all := [];
      var fuel := fuel0;
      while todo != {}
        invariant todo <= active
        invariant Valid() && ForwardOnly(a.id)
        invariant forall b :: b in active && b !in todo ==> CacheKey(a.sha, b) in cache
        invariant forall b :: b in todo ==> (CacheKey(a.sha, b) in cache <==> CacheKey(a.sha, b) in old(cache))
        invariant forall b :: b in active && b !in todo && CacheKey(a.sha, b) !in old(cache) ==> world.compiles(b)
        invariant fuel0.None? ==> fuel.None?
        invariant forall b :: b in active && b !in todo && CacheKey(a.sha, b) !in old(cache) ==> ForwardRows(world, forwardOf, a, b, None) <= matches
        invariant forall m :: m in matches && m !in old(matches) ==>
                    exists b :: b in active && CacheKey(a.sha, b) !in old(cache) && m in ForwardRows(world, forwardOf, a, b, None)
        decreases |todo|
      {
        var b :| b in todo;
        todo := todo - {b};
        var one;
        if fuel != Some(0) { CutRowsAreSome(world, forwardOf, a, b, fuel); }
        one, fuel := ForwardBundle(a, b, fuel);
        if one.Err? { return Err(one.error); }
        all := all + one.value;
      }
      return Ok(all);
    }

    /** A forward scan that got as far as caching its result, cut after `fuel` writes, and any
        number of later scans of the same bytes. Later scans find the cached result and write
        no row: the forward hunt's rows are complete exactly when the cut came after the last
        of them. */
    method ForwardRowsStayAsCut(a: Artifact, b: Digest, fuel: nat, later: seq<Option<nat>>)
      requires Valid() && a in artifacts && a.sha in world.objects && world.compiles(b) && CacheKey(a.sha, b) !in cache
      requires b in forwardOf && fuel > 0
      // the scanner names each rule once
      requires forall i, j :: 0 <= i < j < |Terminal(world, b, a.sha).rules| ==>
                 Terminal(world, b, a.sha).rules[i] != Terminal(world, b, a.sha).rules[j]
      modifies this`cache, this`matches, this`hunts
      ensures Valid() && CacheKey(a.sha, b) in cache
      ensures RuleRows(forwardOf[b], a.id, Terminal(world, b, a.sha).rules) <= matches <==> fuel > |Terminal(world, b, a.sha).rules|
    {
      ghost var h, rules := forwardOf[b], Terminal(world, b, a.sha).rules;
      ghost var k := Reach(Some((fuel - 1) as nat), |rules|);
      UncachedHasNoRows(artifacts, cache, matches, hunts, forwardOf, a, b);
      CutRowsAreComplete(matches, h, a.id, rules, k);
      hide Valid, Terminal, RuleRows;
      ghost var before := matches;
      var _, _ := ForwardBundle(a, b, Some(fuel));
      assert matches == before + RuleRows(h, a.id, rules[..k]);
      for i := 0 to |later|
        invariant Valid() && CacheKey(a.sha, b) in cache && matches == before + RuleRows(h, a.id, rules[..k])
      {
        var _, _ := ForwardBundle(a, b, later[i]);
      }
    }

    // -------------------------------------------------------------- activation

    /** The newest open retro-hunt for a bundle. */
    method NewestOpen(b: Digest) returns (r: Option<HuntId>)
      ensures r.None? <==> forall h :: !Open(hunts, h, b)
      ensures r.Some? ==> Open(hunts, r.value, b) && forall h :: Open(hunts, h, b) ==> hunts[h].createdAt <= hunts[r.value].createdAt
    {
      var todo := hunts.Keys;
      r := None;
      while todo != {}
        invariant todo <= hunts.Keys
        invariant r.Some? ==> Open(hunts, r.value, b)
        invariant forall h :: Open(hunts, h, b) && h !in todo ==> r.Some? && hunts[h].createdAt <= hunts[r.value].createdAt
        decreases |todo|
      {
        var h :| h in todo;
        todo := todo - {h};
        if Open(hunts, h, b) && (r.None? || hunts[r.value].createdAt < hunts[h].createdAt) { r := Some(h); }
      }
    }

    /** Re-examines history after an activation: reuses the newest open hunt, else plans a new
        one whose watermark is the newest commit there is now. */
    method OnBundleActivated(b: Digest, newId: HuntId, at: nat, fuel0: Option<nat>) returns (r: Result<HuntId, HuntError>)
      requires Valid() && newId !in hunts
      modifies this`hunts, this`jobs
      ensures Valid()
      ensures (exists h :: Open(old(hunts), h, b)) && r.Ok? ==>
                && Open(old(hunts), r.value, b)
                && (forall h :: Open(old(hunts), h, b) ==> old(hunts)[h].createdAt <= old(hunts)[r.value].createdAt)
                && (!old(hunts)[r.value].state.Draft? ==> hunts == old(hunts) && jobs == old(jobs))
                && (old(hunts)[r.value].state.Draft? ==> hunts == old(hunts)[r.value := old(PlannedAs(r.value, Queued))])
      ensures !(exists h :: Open(old(hunts), h, b)) && r.Ok? ==>
                && r.value == newId && Resumable(newId)
                && hunts == old(hunts)[newId := Hunt(true, b, Queued, Some(MaxSeq(artifacts)), |Pinned(artifacts, MaxSeq(artifacts))|, 0, 0,
                                                     Tally(0, 0, 0), at)]
                && jobs == old(jobs)[newId := Job(at, false, false)]
      ensures fuel0.None? && !(exists h :: Open(old(hunts), h, b)) ==> (r.Ok? <==> world.tierOk && world.compiles(b))
      ensures old(hunts).Keys <= hunts.Keys && forall h :: h in old(hunts) ==>
                || hunts[h] == old(hunts)[h]
                || (old(hunts)[h].retro && SameOrPinned(old(hunts)[h], hunts[h]))
    {
      hide HuntsOk, CacheSound, InCommitOrder, ForwardOk;
      var newest := NewestOpen(b);
      if newest.Some? {
        if hunts[newest.value].state.Draft? {
          var e := EnqueueHunt(newest.value, at, fuel0);
          if e.Err? { return Err(e.error); }
        }
        return Ok(newest.value);
      }
      if fuel0 == Some(0) { return Err(Crashed); }
      CreateHunt(b, newId, at);
      var e := EnqueueHunt(newId, at, Spend(fuel0));
      if e.Err? { return Err(e.error); }
      return Ok(newId);
    }
  }

  /** The same hunt, or the same hunt with its watermark pinned. */
  ghost predicate SameOrPinned(x: Hunt, y: Hunt) {
    x.retro == y.retro && x.bundle == y.bundle && (x.watermark.Some? ==> y.watermark == x.watermark)
  }

  // ---------------------------------------------------------------- what keeps the hunts in order

  lemma CommitKeepsHunts(w: World, artifacts: seq<Artifact>, a: Artifact, matches: set<MatchRow>, hunts: map<HuntId, Hunt>)
    requires HuntsOk(w, artifacts, matches, hunts) && WatermarksBelow(hunts, a.seqno)
    ensures HuntsOk(w, artifacts + [a], matches, hunts)
  {
    hide Pinned, Rows, RowsOfHunt;
    forall h | h in hunts ensures HuntOk(w, artifacts + [a], matches, h, hunts[h]) {
      assert HuntOk(w, artifacts, matches, h, hunts[h]);
      if hunts[h].watermark.Some? { LaterCommitsStayOut(artifacts, a, hunts[h].watermark.value); }
    }
  }

  lemma NewHuntKeepsHunts(w: World, artifacts: seq<Artifact>, matches: set<MatchRow>, hunts: map<HuntId, Hunt>, h: HuntId, x: Hunt)
    requires HuntsOk(w, artifacts, matches, hunts) && h !in hunts
    requires x.retro ==> x.watermark.None? && x.tally == Tally(0, 0, 0)
    ensures HuntsOk(w, artifacts, matches, hunts[h := x])
  {
    hide Pinned, Rows;
    assert RowsOfHunt(matches, h) == {};
    hide RowsOfHunt;
    forall g | g in hunts ensures HuntOk(w, artifacts, matches, g, hunts[g]) {}
  }

  lemma StateKeepsHunts(w: World, artifacts: seq<Artifact>, matches: set<MatchRow>, hunts: map<HuntId, Hunt>, h: HuntId, state: HuntState)
    requires HuntsOk(w, artifacts, matches, hunts) && h in hunts
    ensures HuntsOk(w, artifacts, matches, hunts[h := hunts[h].(state := state)])
  {
    hide Pinned, Rows, RowsOfHunt;
    assert HuntOk(w, artifacts, matches, h, hunts[h]);
  }

  lemma PlanKeepsHunts(w: World, artifacts: seq<Artifact>, matches: set<MatchRow>, hunts: map<HuntId, Hunt>, h: HuntId, x: Hunt)
    requires HuntsOk(w, artifacts, matches, hunts) && h in hunts && hunts[h].retro && w.tierOk && w.compiles(x.bundle)
    requires x.retro && SameOrPinned(hunts[h], x) && x.watermark.Some? && x.tally == Tally(0, 0, 0)
    ensures HuntsOk(w, artifacts, matches, hunts[h := x])
  {
    hide Pinned, Rows, RowsOfHunt;
    assert HuntOk(w, artifacts, matches, h, hunts[h]);
  }

  /** A run of one retro-hunt, whole or cut. */
  lemma RunKeepsHunts(w: World, artifacts: seq<Artifact>, matches: set<MatchRow>, matches': set<MatchRow>, hunts: map<HuntId, Hunt>, h: HuntId, x: Hunt)
    requires HuntsOk(w, artifacts, matches, hunts) && h in hunts && hunts[h].retro && SamePlan(x, hunts[h])
    requires matches <= matches'
    requires x.watermark.None? ==> matches' == matches && x.tally == hunts[h].tally
    requires x.watermark.Some? ==>
               && matches' <= matches + Rows(w, h, x.bundle, Pinned(artifacts, x.watermark.value))
               && (Pinned(artifacts, x.watermark.value) == [] ==> x.tally == hunts[h].tally)
    ensures HuntsOk(w, artifacts, matches', hunts[h := x])
  {
    assert HuntOk(w, artifacts, matches, h, hunts[h]);
    if x.watermark.Some? {
      RowsBelongToHunt(w, h, x.bundle, Pinned(artifacts, x.watermark.value));
    }
    hide Pinned, Rows;
    forall g | g in hunts && g != h ensures HuntOk(w, artifacts, matches', g, hunts[g]) {
      assert HuntOk(w, artifacts, matches, g, hunts[g]);
      assert RowsOfHunt(matches', g) == RowsOfHunt(matches, g);
    }
    assert forall m :: m in RowsOfHunt(matches', h) ==> m in matches || m.hunt == h;
  }

  /** A forward scan writes rows and counters of one forward hunt. */
  lemma ForwardKeepsHunts(w: World, artifacts: seq<Artifact>, matches: set<MatchRow>, matches': set<MatchRow>,
                          hunts: map<HuntId, Hunt>, hunts': map<HuntId, Hunt>, h: HuntId)
    requires HuntsOk(w, artifacts, matches, hunts) && h in hunts && !hunts[h].retro
    requires h in hunts' && hunts' == hunts[h := hunts'[h]] && !hunts'[h].retro
    requires matches <= matches' && forall m :: m in matches' && m !in matches ==> m.hunt == h
    ensures HuntsOk(w, artifacts, matches', hunts')
  {
    hide Pinned, Rows;
    forall g | g in hunts' && g != h ensures HuntOk(w, artifacts, matches', g, hunts'[g]) {
      assert HuntOk(w, artifacts, matches, g, hunts[g]);
      assert RowsOfHunt(matches', g) == RowsOfHunt(matches, g);
    }
  }

  // ---------------------------------------------------------------- what keeps the forward rows in order

  lemma RowStaysCached(artifacts: seq<Artifact>, artifacts': seq<Artifact>, cache: map<CacheKey, Outcome>, cache': map<CacheKey, Outcome>,
                       b: Digest, m: MatchRow)
    requires RowCached(artifacts, cache, b, m) && artifacts <= artifacts' && cache.Keys <= cache'.Keys
    ensures RowCached(artifacts', cache', b, m)
  {
    var a :| a in artifacts && a.id == m.artifact && CacheKey(a.sha, b) in cache;
    assert a in artifacts';
  }

  lemma CommitKeepsForward(artifacts: seq<Artifact>, a: Artifact, cache: map<CacheKey, Outcome>, matches: set<MatchRow>,
                           hunts: map<HuntId, Hunt>, forwardOf: map<Digest, HuntId>)
    requires ForwardOk(artifacts, cache, matches, hunts, forwardOf) && forall x :: x in artifacts ==> x.id != a.id
    ensures ForwardOk(artifacts + [a], cache, matches, hunts, forwardOf)
  {
    hide RowCached;
    forall m | m in matches && m.hunt in hunts && !hunts[m.hunt].retro
      ensures RowCached(artifacts + [a], cache, hunts[m.hunt].bundle, m)
    {
      RowStaysCached(artifacts, artifacts + [a], cache, cache, hunts[m.hunt].bundle, m);
    }
  }

  lemma CacheKeepsForward(artifacts: seq<Artifact>, cache: map<CacheKey, Outcome>, cache': map<CacheKey, Outcome>, matches: set<MatchRow>,
                          hunts: map<HuntId, Hunt>, forwardOf: map<Digest, HuntId>)
    requires ForwardOk(artifacts, cache, matches, hunts, forwardOf) && cache.Keys <= cache'.Keys
    ensures ForwardOk(artifacts, cache', matches, hunts, forwardOf)
  {
    hide RowCached, OneIdEach;
    forall m | m in matches && m.hunt in hunts && !hunts[m.hunt].retro
      ensures RowCached(artifacts, cache', hunts[m.hunt].bundle, m)
    {
      RowStaysCached(artifacts, artifacts, cache, cache', hunts[m.hunt].bundle, m);
    }
  }

  lemma PlansKeepForward(artifacts: seq<Artifact>, cache: map<CacheKey, Outcome>, matches: set<MatchRow>,
                         hunts: map<HuntId, Hunt>, hunts': map<HuntId, Hunt>, forwardOf: map<Digest, HuntId>)
    requires ForwardOk(artifacts, cache, matches, hunts, forwardOf) && hunts'.Keys == hunts.Keys
    requires forall h :: h in hunts ==> hunts'[h].retro == hunts[h].retro && hunts'[h].bundle == hunts[h].bundle
    ensures ForwardOk(artifacts, cache, matches, hunts', forwardOf)
  {
    hide RowCached, OneIdEach;
  }

  lemma NewHuntKeepsForward(w: World, artifacts: seq<Artifact>, cache: map<CacheKey, Outcome>, matches: set<MatchRow>,
                            hunts: map<HuntId, Hunt>, forwardOf: map<Digest, HuntId>, h: HuntId, x: Hunt)
    requires HuntsOk(w, artifacts, matches, hunts) && ForwardOk(artifacts, cache, matches, hunts, forwardOf) && h !in hunts
    ensures ForwardOk(artifacts, cache, matches, hunts[h := x], forwardOf)
  {
    hide RowCached, OneIdEach, HuntOk;
  }

  /** A retro-hunt writes no forward rows. */
  lemma RetroKeepsForward(artifacts: seq<Artifact>, cache: map<CacheKey, Outcome>, cache': map<CacheKey, Outcome>,
                          matches: set<MatchRow>, matches': set<MatchRow>, hunts: map<HuntId, Hunt>, hunts': map<HuntId, Hunt>,
                          forwardOf: map<Digest, HuntId>, h: HuntId)
    requires ForwardOk(artifacts, cache, matches, hunts, forwardOf) && cache.Keys <= cache'.Keys
    requires h in hunts && hunts[h].retro && h in hunts' && hunts' == hunts[h := hunts'[h]] && hunts'[h].retro
    requires forall m :: m in matches' && m !in matches ==> m.hunt == h
    ensures ForwardOk(artifacts, cache', matches', hunts', forwardOf)
  {
    hide RowCached, OneIdEach;
    forall m | m in matches' && m.hunt in hunts' && !hunts'[m.hunt].retro
      ensures RowCached(artifacts, cache', hunts'[m.hunt].bundle, m)
    {
      RowStaysCached(artifacts, artifacts, cache, cache', hunts[m.hunt].bundle, m);
    }
  }

  /** A forward scan writes the rows of an artifact that is cached. */
  lemma ForwardKeepsForward(artifacts: seq<Artifact>, cache: map<CacheKey, Outcome>, matches: set<MatchRow>, matches': set<MatchRow>,
                            hunts: map<HuntId, Hunt>, hunts': map<HuntId, Hunt>, forwardOf: map<Digest, HuntId>, h: HuntId, a: Artifact)
    requires ForwardOk(artifacts, cache, matches, hunts, forwardOf)
    requires h in hunts && hunts'.Keys == hunts.Keys
    requires forall g :: g in hunts ==> hunts'[g].retro == hunts[g].retro && hunts'[g].bundle == hunts[g].bundle
    requires a in artifacts && CacheKey(a.sha, hunts[h].bundle) in cache
    requires forall m :: m in matches' && m !in matches ==> m.hunt == h && m.artifact == a.id
    ensures ForwardOk(artifacts, cache, matches', hunts', forwardOf)
  {
    hide OneIdEach;
    forall m | m in matches' && m.hunt in hunts' && !hunts'[m.hunt].retro
      ensures RowCached(artifacts, cache, hunts'[m.hunt].bundle, m)
    {
      if m in matches { assert RowCached(artifacts, cache, hunts[m.hunt].bundle, m); }
    }
  }

  /** An artifact that is not cached for a bundle has no row under its forward hunt. */
  lemma UncachedHasNoRows(artifacts: seq<Artifact>, cache: map<CacheKey, Outcome>, matches: set<MatchRow>, hunts: map<HuntId, Hunt>,
                          forwardOf: map<Digest, HuntId>, a: Artifact, b: Digest)
    requires ForwardOk(artifacts, cache, matches, hunts, forwardOf) && a in artifacts && b in forwardOf && CacheKey(a.sha, b) !in cache
    ensures forall m :: m in matches ==> m.hunt != forwardOf[b] || m.artifact != a.id
  {
    forall m | m in matches && m.hunt == forwardOf[b] ensures m.artifact != a.id {
      assert RowCached(artifacts, cache, b, m);
      var x :| x in artifacts && x.id == m.artifact && CacheKey(x.sha, b) in cache;
      assert x != a;
    }
  }

  /** Of distinct rules, a first part has all rows exactly when it is all of them. */
  lemma CutRowsAreComplete(matches: set<MatchRow>, h: HuntId, a: ArtifactId, rules: seq<RuleId>, k: nat)
    requires k <= |rules| && forall m :: m in matches ==> m.hunt != h || m.artifact != a
    requires forall i, j :: 0 <= i < j < |rules| ==> rules[i] != rules[j]
    ensures RuleRows(h, a, rules) <= matches + RuleRows(h, a, rules[..k]) <==> k == |rules|
  {
    if k < |rules| {
      assert MatchRow(h, a, rules[k]) in RuleRows(h, a, rules);
      assert rules[k] !in rules[..k];
    } else {
      assert rules[..k] == rules;
    }
  }

  lemma CutRowsAreSome(w: World, forwardOf: map<Digest, HuntId>, a: Artifact, b: Digest, fuel: Option<nat>)
    requires fuel != Some(0)
    ensures ForwardRows(w, forwardOf, a, b, fuel) <= ForwardRows(w, forwardOf, a, b, None)
  {
  }

  lemma WholeRules(rules: seq<RuleId>)
    ensures rules[..|rules|] == rules
  {
  }

  lemma NoRuleRows(h: HuntId, a: ArtifactId, rules: seq<RuleId>)
    ensures RuleRows(h, a, rules[..0]) == {}
  {
  }

  lemma RuleRowsStep(h: HuntId, a: ArtifactId, rules: seq<RuleId>, k: nat)
    requires k < |rules|
    ensures RuleRows(h, a, rules[..k + 1]) == RuleRows(h, a, rules[..k]) + {MatchRow(h, a, rules[k])}
  {
    assert rules[..k + 1] == rules[..k] + [rules[k]];
    assert rules[k] in rules[..k + 1];
  }

  lemma RuleRowsGrow(h: HuntId, a: ArtifactId, rules: seq<RuleId>, k: nat)
    requires k <= |rules|
    ensures RuleRows(h, a, rules[..k]) <= RuleRows(h, a, rules)
  {
  }

  lemma NothingYet(w: World, h: HuntId, b: Digest)
    ensures Rows(w, h, b, []) == {} && Totals(w, b, []) == Tally(0, 0, 0)
  {
  }

  lemma PrefixStep(w: World, h: HuntId, b: Digest, arts: seq<Artifact>, k: nat)
    requires k < |arts|
    ensures Rows(w, h, b, arts[..k + 1]) == Rows(w, h, b, arts[..k]) + RowsOf(w, h, b, arts[k])
    ensures Totals(w, b, arts[..k + 1]) == Plus(Totals(w, b, arts[..k]), TallyOf(Terminal(w, b, arts[k].sha)))
    ensures arts[..k + 1] == arts[..k] + [arts[k]]
  {
    hide RowsOf, TallyOf, Terminal, Plus;
    assert arts[..k + 1][..k] == arts[..k];
  }

  lemma {:induction false} PrefixWithin(w: World, h: HuntId, b: Digest, arts: seq<Artifact>, k: nat)
    requires k <= |arts|
    ensures Rows(w, h, b, arts[..k]) <= Rows(w, h, b, arts)
    decreases |arts| - k
  {
    if k < |arts| {
      PrefixStep(w, h, b, arts, k);
      PrefixWithin(w, h, b, arts, k + 1);
    } else {
      assert arts[..k] == arts;
    }
  }

  lemma {:induction false} RowsBelongToHunt(w: World, h: HuntId, b: Digest, arts: seq<Artifact>)
    ensures forall m :: m in Rows(w, h, b, arts) ==> m.hunt == h
  {
    if arts != [] { RowsBelongToHunt(w, h, b, arts[..|arts| - 1]); }
  }

  lemma {:induction false} MaxSeqBelow(arts: seq<Artifact>, bound: nat)
    requires bound > 0 && forall a :: a in arts ==> a.seqno < bound
    ensures MaxSeq(arts) < bound
  {
    if arts != [] {
      assert arts[|arts| - 1] in arts;
      MaxSeqBelow(arts[..|arts| - 1], bound);
    }
  }

  /** A commit above the watermark is not part of the pinned set, now or in any rerun. */
  lemma LaterCommitsStayOut(arts: seq<Artifact>, a: Artifact, watermark: nat)
    requires a.seqno > watermark
    ensures Pinned(arts + [a], watermark) == Pinned(arts, watermark)
  {
    assert (arts + [a])[..|arts|] == arts;
  }

  // ---------------------------------------------------------------- what a verdict means

  /** The scanner says `Matched` exactly when it names a rule (scan.rs). */
  ghost predicate MatchesNameRules(w: World) {
    forall b, x :: w.scan(b, x).status.Matched? <==> w.scan(b, x).rules != []
  }

  ghost predicate SomeEnds(w: World, b: Digest, arts: seq<Artifact>, status: Status) {
    exists a :: a in arts && Terminal(w, b, a.sha).status == status
  }

  lemma SomeEndsSnoc(w: World, b: Digest, init: seq<Artifact>, last: Artifact, status: Status)
    ensures SomeEnds(w, b, init + [last], status) <==> SomeEnds(w, b, init, status) || Terminal(w, b, last.sha).status == status
  {
    if SomeEnds(w, b, init, status) {
      var a :| a in init && Terminal(w, b, a.sha).status == status;
      assert a in init + [last];
    }
    assert last in init + [last];
  }

  lemma {:induction false} TotalsCountFailures(w: World, b: Digest, arts: seq<Artifact>)
    ensures Totals(w, b, arts).timedOut > 0 <==> SomeEnds(w, b, arts, Timeout)
    ensures Totals(w, b, arts).failed > 0 <==> SomeEnds(w, b, arts, Error)
  {
    hide SomeEnds, Terminal;
    if arts != [] {
      var init, last := arts[..|arts| - 1], arts[|arts| - 1];
      TotalsCountFailures(w, b, init);
      assert arts == init + [last];
      SomeEndsSnoc(w, b, init, last, Timeout);
      SomeEndsSnoc(w, b, init, last, Error);
    } else {
      NobodyEnds(w, b, Timeout);
      NobodyEnds(w, b, Error);
    }
  }

  lemma NobodyEnds(w: World, b: Digest, status: Status)
    ensures !SomeEnds(w, b, [], status)
  {
  }

  lemma {:induction false} RowsComeFromMatches(w: World, h: HuntId, b: Digest, arts: seq<Artifact>, m: MatchRow)
    ensures m in Rows(w, h, b, arts) <==>
      exists a :: a in arts && Terminal(w, b, a.sha).status.Matched? && m.rule in Terminal(w, b, a.sha).rules && m == MatchRow(h, a.id, m.rule)
  {
    if arts != [] {
      var init, last := arts[..|arts| - 1], arts[|arts| - 1];
      RowsComeFromMatches(w, h, b, init, m);
      assert arts == init + [last];
      assert last in arts && forall a :: a in init ==> a in arts;
    }
  }

  /** A hunt ends COMPLETED without match rows exactly when every pinned artifact is cached
      clean. */
  lemma CleanVerdictIsExact(w: World, h: HuntId, b: Digest, pinned: seq<Artifact>, cache: map<CacheKey, Outcome>)
    requires CacheSound(w, cache) && Cached(cache, b, pinned) && MatchesNameRules(w)
    ensures FinalState(Totals(w, b, pinned)) == Completed && Rows(w, h, b, pinned) == {}
      <==> forall a :: a in pinned ==> cache[CacheKey(a.sha, b)].status.Clean?
  {
    TotalsCountFailures(w, b, pinned);
    forall a | a in pinned && Terminal(w, b, a.sha).status.Matched? ensures Rows(w, h, b, pinned) != {} {
      var r := Terminal(w, b, a.sha).rules[0];
      RowsComeFromMatches(w, h, b, pinned, MatchRow(h, a.id, r));
    }
    forall m | m in Rows(w, h, b, pinned) ensures exists a :: a in pinned && Terminal(w, b, a.sha).status.Matched? {
      RowsComeFromMatches(w, h, b, pinned, m);
    }
    forall a | a in pinned ensures cache[CacheKey(a.sha, b)] == Terminal(w, b, a.sha) {
      assert CacheKey(a.sha, b) in cache;
    }
  }

  // ---------------------------------------------------------------- the verdict in terms of scans

  /** The commits whose scan times out, among the endpoint's at or below the watermark. */
  ghost function TimingOut(w: World, b: Digest, artifacts: seq<Artifact>, watermark: nat): set<nat> {
    set i: nat | i < |artifacts| && artifacts[i].endpoint && artifacts[i].seqno <= watermark
                 && artifacts[i].sha in w.objects && w.scan(b, w.objects[artifacts[i].sha]).status.Timeout?
  }

  /** Those whose bytes cannot be read or whose scan fails. */
  ghost function Failing(w: World, b: Digest, artifacts: seq<Artifact>, watermark: nat): set<nat> {
    set i: nat | i < |artifacts| && artifacts[i].endpoint && artifacts[i].seqno <= watermark
                 && (artifacts[i].sha !in w.objects || w.scan(b, w.objects[artifacts[i].sha]).status.Error?)
  }

  /** The rules that the matched ones name, one by one. */
  ghost function Naming(w: World, b: Digest, artifacts: seq<Artifact>, watermark: nat): set<(nat, nat)> {
    set i: nat, j: nat |
      i < |artifacts| && artifacts[i].endpoint && artifacts[i].seqno <= watermark
      && artifacts[i].sha in w.objects && w.scan(b, w.objects[artifacts[i].sha]).status.Matched?
      && j < |w.scan(b, w.objects[artifacts[i].sha]).rules| :: (i, j)
  }

  ghost predicate NamedBy(w: World, b: Digest, a: Artifact, watermark: nat, m: MatchRow) {
    && a.endpoint && a.seqno <= watermark && a.sha in w.objects && m.artifact == a.id
    && w.scan(b, w.objects[a.sha]).status.Matched? && m.rule in w.scan(b, w.objects[a.sha]).rules
  }

  /** Partial as soon as one scan timed out, failed or had no bytes. */
  ghost predicate StateIs(w: World, b: Digest, artifacts: seq<Artifact>, watermark: nat, state: HuntState) {
    state == if TimingOut(w, b, artifacts, watermark) != {} || Failing(w, b, artifacts, watermark) != {} then CompletedPartial else Completed
  }

  /** One count for each rule named, each time-out and each failure. */
  ghost predicate CountersAre(w: World, b: Digest, artifacts: seq<Artifact>, watermark: nat, tally: Tally) {
    && tally.matched == |Naming(w, b, artifacts, watermark)|
    && tally.timedOut == |TimingOut(w, b, artifacts, watermark)|
    && tally.failed == |Failing(w, b, artifacts, watermark)|
  }

  /** A row of the hunt for each rule named, and no other. */
  ghost predicate RowsAre(w: World, h: HuntId, b: Digest, artifacts: seq<Artifact>, watermark: nat, matches: set<MatchRow>) {
    forall m: MatchRow :: m.hunt == h ==> (m in matches <==> exists a :: a in artifacts && NamedBy(w, b, a, watermark, m))
  }

  lemma {:induction false} CountersInScans(w: World, b: Digest, artifacts: seq<Artifact>, watermark: nat)
    ensures CountersAre(w, b, artifacts, watermark, Totals(w, b, Pinned(artifacts, watermark)))
  {
    hide Totals, Naming, TimingOut, Failing, Pinned, Terminal, TallyOf;
    if artifacts == [] {
      NothingScanned(w, b, watermark);
    } else {
      var init, last := artifacts[..|artifacts| - 1], artifacts[|artifacts| - 1];
      CountersInScans(w, b, init, watermark);
      assert artifacts == init + [last];
      NextPinned(init, last, watermark);
      OneMoreNaming(w, b, init, last, watermark);
      OneMoreTimingOut(w, b, init, last, watermark);
      OneMoreFailing(w, b, init, last, watermark);
      TotalsOfNext(w, b, Pinned(init, watermark), last);
      TallyInParts(Terminal(w, b, last.sha));
    }
  }

  lemma NothingScanned(w: World, b: Digest, watermark: nat)
    ensures CountersAre(w, b, [], watermark, Totals(w, b, Pinned([], watermark)))
  {
    assert Naming(w, b, [], watermark) == {} && TimingOut(w, b, [], watermark) == {} && Failing(w, b, [], watermark) == {};
  }

  lemma NextPinned(init: seq<Artifact>, a: Artifact, watermark: nat)
    ensures Pinned(init + [a], watermark)
         == if a.endpoint && a.seqno <= watermark then Pinned(init, watermark) + [a] else Pinned(init, watermark)
  {
    assert (init + [a])[..|init|] == init;
  }

  lemma TallyInParts(t: Outcome)
    ensures TallyOf(t) == Tally(if t.status.Matched? then |t.rules| else 0, if t.status.Timeout? then 1 else 0, if t.status.Error? then 1 else 0)
  {
  }

  lemma TotalsOfNext(w: World, b: Digest, pinned: seq<Artifact>, a: Artifact)
    ensures Totals(w, b, pinned + [a]) == Plus(Totals(w, b, pinned), TallyOf(Terminal(w, b, a.sha)))
  {
    assert (pinned + [a])[..|pinned|] == pinned;
  }

  lemma OneMoreTimingOut(w: World, b: Digest, init: seq<Artifact>, a: Artifact, watermark: nat)
    ensures |TimingOut(w, b, init + [a], watermark)|
         == |TimingOut(w, b, init, watermark)| + if a.endpoint && a.seqno <= watermark && Terminal(w, b, a.sha).status.Timeout? then 1 else 0
  {
    var n := |init|;
    if a.endpoint && a.seqno <= watermark && Terminal(w, b, a.sha).status.Timeout? {
      assert TimingOut(w, b, init + [a], watermark) == TimingOut(w, b, init, watermark) + {n};
    } else {
      assert TimingOut(w, b, init + [a], watermark) == TimingOut(w, b, init, watermark);
    }
  }

  lemma OneMoreFailing(w: World, b: Digest, init: seq<Artifact>, a: Artifact, watermark: nat)
    ensures |Failing(w, b, init + [a], watermark)|
         == |Failing(w, b, init, watermark)| + if a.endpoint && a.seqno <= watermark && Terminal(w, b, a.sha).status.Error? then 1 else 0
  {
    var n := |init|;
    if a.endpoint && a.seqno <= watermark && Terminal(w, b, a.sha).status.Error? {
      assert Failing(w, b, init + [a], watermark) == Failing(w, b, init, watermark) + {n};
    } else {
      assert Failing(w, b, init + [a], watermark) == Failing(w, b, init, watermark);
    }
  }

  lemma OneMoreNaming(w: World, b: Digest, init: seq<Artifact>, a: Artifact, watermark: nat)
    ensures var t := Terminal(w, b, a.sha);
            |Naming(w, b, init + [a], watermark)|
              == |Naming(w, b, init, watermark)| + if a.endpoint && a.seqno <= watermark && t.status.Matched? then |t.rules| else 0
  {
    var t, n := Terminal(w, b, a.sha), |init|;
    var before, more := Naming(w, b, init, watermark), set j: nat | j < |t.rules| :: (n, j);
    PairsCounted(n, |t.rules|);
    if a.endpoint && a.seqno <= watermark && t.status.Matched? {
      assert Naming(w, b, init + [a], watermark) == before + more;
      assert before !! more;
    } else {
      assert Naming(w, b, init + [a], watermark) == before;
    }
  }

  lemma {:induction false} PairsCounted(n: nat, k: nat)
    ensures |set j: nat | j < k :: (n, j)| == k
  {
    if k > 0 {
      PairsCounted(n, k - 1);
      assert (set j: nat | j < k :: (n, j)) == (set j: nat | j < k - 1 :: (n, j)) + {(n, k - 1)};
    } else {
      assert (set j: nat | j < 0 :: (n, j)) == {};
    }
  }

  lemma StateInScans(w: World, b: Digest, artifacts: seq<Artifact>, watermark: nat)
    ensures StateIs(w, b, artifacts, watermark, FinalState(Totals(w, b, Pinned(artifacts, watermark))))
  {
    CountersInScans(w, b, artifacts, watermark);
    hide Totals, Pinned, TimingOut, Failing, Naming;
  }

  lemma {:induction false} PinnedAre(artifacts: seq<Artifact>, watermark: nat, a: Artifact)
    ensures a in Pinned(artifacts, watermark) <==> a in artifacts && a.endpoint && a.seqno <= watermark
  {
    if artifacts != [] {
      PinnedAre(artifacts[..|artifacts| - 1], watermark, a);
      assert artifacts == artifacts[..|artifacts| - 1] + [artifacts[|artifacts| - 1]];
    }
  }

  lemma RowsInScans(w: World, h: HuntId, b: Digest, artifacts: seq<Artifact>, watermark: nat, matches: set<MatchRow>)
    requires RowsOfHunt(matches, h) == Rows(w, h, b, Pinned(artifacts, watermark))
    ensures RowsAre(w, h, b, artifacts, watermark, matches)
  {
    hide Rows, Pinned;
    forall m: MatchRow | m.hunt == h ensures m in matches <==> exists a :: a in artifacts && NamedBy(w, b, a, watermark, m) {
      RowsComeFromMatches(w, h, b, Pinned(artifacts, watermark), m);
      assert m in matches <==> m in RowsOfHunt(matches, h);
      forall a ensures a in Pinned(artifacts, watermark) <==> a in artifacts && a.endpoint && a.seqno <= watermark { PinnedAre(artifacts, watermark, a); }
    }
  }
}
