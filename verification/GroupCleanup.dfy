/** When variant groups stay connected components although artifacts are cleaned up
    (similarity/lifecycle.rs): exactly as long as no cleaned artifact held its strong neighbours
    together. */
module GroupCleanup {
  import opened SimilarityModel
  import opened VariantGroups

  type Pairs = set<(ArtifactId, ArtifactId)>

  /** The edges a cleanup of `a` leaves. */
  ghost function Remaining(s: Store, a: ArtifactId): map<EdgeKey, real> {
    s.edges - IncidentEdges(s, a)
  }

  /** Any two strong neighbours of `a` are joined without it. */
  ghost predicate Bypassed(s: Store, a: ArtifactId) {
    forall u, v ::
      Adjacent(StrongPairs(s.edges), a, u) && Adjacent(StrongPairs(s.edges), a, v) ==>
        Joined(StrongPairs(Remaining(s, a)), u, v)
  }

  lemma RemainingPairs(s: Store, a: ArtifactId, x: ArtifactId, y: ArtifactId)
    ensures Adjacent(StrongPairs(Remaining(s, a)), x, y) <==> Adjacent(StrongPairs(s.edges), x, y) && x != a && y != a
  {
    PairRemains(s, a, x, y);
    PairRemains(s, a, y, x);
  }

  lemma PairRemains(s: Store, a: ArtifactId, x: ArtifactId, y: ArtifactId)
    ensures (x, y) in StrongPairs(Remaining(s, a)) <==> (x, y) in StrongPairs(s.edges) && x != a && y != a
  {
    if (x, y) in StrongPairs(s.edges) && x != a && y != a {
      var k :| k in s.edges && MergesGroups(k.etype) && (k.src, k.dst) == (x, y);
      assert k in Remaining(s, a);
    }
    if (x, y) in StrongPairs(Remaining(s, a)) {
      var k :| k in Remaining(s, a) && MergesGroups(k.etype) && (k.src, k.dst) == (x, y);
      assert k in s.edges && !Touches(k, a);
    }
  }

  /** No artifact is its own strong neighbour. */
  lemma NoLoops(s: Store, a: ArtifactId)
    requires Sound(s)
    ensures !Adjacent(StrongPairs(s.edges), a, a)
  {
  }

  lemma PathTail(E: Pairs, p: seq<ArtifactId>, x: ArtifactId, y: ArtifactId)
    requires IsPath(E, p, x, y) && |p| > 1
    ensures Adjacent(E, x, p[1]) && IsPath(E, p[1..], p[1], y)
  {
    assert Adjacent(E, p[0], p[1]);
    forall i | 0 <= i < |p[1..]| - 1 ensures Adjacent(E, p[1..][i], p[1..][i + 1]) {
      assert Adjacent(E, p[i + 1], p[i + 2]);
    }
  }

  /** A path between two others goes round `a` where it used to pass through it. */
  lemma {:induction false} Reroute(s: Store, a: ArtifactId, p: seq<ArtifactId>, x: ArtifactId, y: ArtifactId)
    requires Sound(s) && Bypassed(s, a) && x != a && y != a
    requires IsPath(StrongPairs(s.edges), p, x, y)
    ensures Joined(StrongPairs(Remaining(s, a)), x, y)
    decreases |p|
  {
    hide Sound, StrongPairs, Remaining, Joined, Adjacent;
    var E, E' := StrongPairs(s.edges), StrongPairs(Remaining(s, a));
    if |p| == 1 {
      JoinedStep(E', x, y);
    } else {
      PathTail(E, p, x, y);
      var z := p[1];
      if z != a {
        RemainingPairs(s, a, x, z);
        JoinedStep(E', x, z);
        Reroute(s, a, p[1..], z, y);
        JoinedTrans(E', x, z, y);
      } else {
        PathTail(E, p[1..], z, y);
        var w := p[1..][1];
        NoLoops(s, a);
        AdjacentBack(E, x, a);
        Reroute(s, a, p[1..][1..], w, y);
        JoinedTrans(E', x, w, y);
      }
    }
  }

  lemma AdjacentBack(E: Pairs, x: ArtifactId, y: ArtifactId)
    ensures Adjacent(E, x, y) <==> Adjacent(E, y, x)
  {
  }

  lemma StrongNeighborsShareGroup(s: Store, a: ArtifactId, u: ArtifactId)
    requires Sound(s) && Adjacent(StrongPairs(s.edges), a, u)
    ensures SameGroup(s, a, u) && u != a
  {
    NoLoops(s, a);
    if (a, u) in StrongPairs(s.edges) { assert SameGroup(s, a, u); } else { assert SameGroup(s, u, a); }
  }

  /** Who stays together when `a` goes: those who were, as long as two of them remain. */
  lemma GroupAfterPurge(s: Store, a: ArtifactId, x: ArtifactId, y: ArtifactId)
    ensures SameGroup(PurgeSpec(s, a), x, y) ==> SameGroup(s, x, y) && x != a && y != a
    ensures SameGroup(s, x, y) && x != a && y != a && x != y ==> SameGroup(PurgeSpec(s, a), x, y)
  {
    if SameGroup(s, x, y) && x != a && y != a && x != y { PurgeKeepsTogether(s, a, x, y); }
  }

  lemma PurgedEdges(s: Store, a: ArtifactId)
    ensures PurgeSpec(s, a).edges == Remaining(s, a)
  {
    PurgeEdges(s, a);
  }

  /** A cleanup keeps groups equal to components if and only if the strong neighbours of the
      cleaned artifact stay joined without it. */
  lemma PurgeKeepsComponents(s: Store, a: ArtifactId)
    requires Sound(s) && GroupsJoined(s)
    ensures GroupsJoined(PurgeSpec(s, a)) <==> Bypassed(s, a)
  {
    PurgedEdges(s, a);
    var s' := PurgeSpec(s, a);
    hide Sound, PurgeSpec, SameGroup, StrongPairs, Remaining;
    if Bypassed(s, a) {
      forall x, y | SameGroup(s', x, y) ensures Joined(StrongPairs(s'.edges), x, y) {
        GroupAfterPurge(s, a, x, y);
        var p :| IsPath(StrongPairs(s.edges), p, x, y);
        Reroute(s, a, p, x, y);
      }
    }
    if GroupsJoined(s') {
      forall u, v | Adjacent(StrongPairs(s.edges), a, u) && Adjacent(StrongPairs(s.edges), a, v)
        ensures Joined(StrongPairs(Remaining(s, a)), u, v)
      {
        NeighborsStayTogether(s, a, u, v);
        JoinedStep(StrongPairs(Remaining(s, a)), u, u);
      }
    }
  }

  lemma NeighborsStayTogether(s: Store, a: ArtifactId, u: ArtifactId, v: ArtifactId)
    requires Sound(s) && Adjacent(StrongPairs(s.edges), a, u) && Adjacent(StrongPairs(s.edges), a, v)
    ensures u == v || SameGroup(PurgeSpec(s, a), u, v)
  {
    StrongNeighborsShareGroup(s, a, u);
    StrongNeighborsShareGroup(s, a, v);
    GroupAfterPurge(s, a, u, v);
  }

  /** The same for a cleanup as called: a dry run and a legal hold change nothing. */
  lemma CleanupKeepsComponents(s: Store, a: ArtifactId, dryRun: bool)
    requires Sound(s) && GroupsJoined(s)
    ensures GroupsJoined(CleanupSpec(s, a, dryRun)) <==> dryRun || a in s.held || Bypassed(s, a)
  {
    hide Sound, GroupsJoined, PurgeSpec, Bypassed;
    PurgeKeepsComponents(s, a);
  }

  // ---------------------------------------------------------------- whole runs

  lemma InsertKeepsJoined(s: Store, a: ArtifactId, b: ArtifactId, t: EdgeType, score: real, uuid: GroupId)
    requires Sound(s) && GroupsJoined(s) && uuid !in s.births
    ensures GroupsJoined(InsertSpec(s, a, b, t, score, uuid))
  {
    var k := Canonical(a, b, t);
    if a != b && k !in s.edges {
      var s' := AddRow(s, k, score);
      RowKeepsJoined(s, k, score);
      assert s'.groups == s'.members.Values && s'.groups <= s'.births.Keys;
      hide Sound, GroupsJoined, UnionSpec, StrongPairs;
      if MergesGroups(t) { UnionKeepsGroupsJoined(s', k.src, k.dst, uuid); }
    }
  }

  /** Each cleanup of the run, at its time, removed an artifact that can be bypassed. */
  ghost predicate AllBypassed(held: set<ArtifactId>, ops: seq<Op>) {
    forall i :: 0 <= i < |ops| && ops[i].Cleanup? ==>
      ops[i].dryRun || ops[i].artifact in Run(held, ops[..i]).held || Bypassed(Run(held, ops[..i]), ops[i].artifact)
  }

  lemma {:induction false} RunKeepsComponents(held: set<ArtifactId>, ops: seq<Op>)
    requires FreshIds(ops) && AllBypassed(held, ops)
    ensures GroupsJoined(Run(held, ops))
  {
    hide Sound, GroupsJoined, Bypassed, InsertSpec, CleanupSpec;
    if ops == [] {
      NobodyGrouped(held);
    } else {
      var init, last := ops[..|ops| - 1], ops[|ops| - 1];
      forall i | 0 <= i < |init| && init[i].Cleanup?
        ensures init[i].dryRun || init[i].artifact in Run(held, init[..i]).held || Bypassed(Run(held, init[..i]), init[i].artifact)
      {
        assert ops[i] == init[i] && ops[..i] == init[..i];
      }
      RunKeepsComponents(held, init);
      EveryRunIsSound(held, init);
      match last
      case Insert(a, b, t, score, uuid) =>
        NextIdIsUnused(held, ops);
        InsertKeepsJoined(Run(held, init), a, b, t, score, uuid);
      case Cleanup(a, dryRun) => CleanupKeepsComponents(Run(held, init), a, dryRun);
    }
  }

  lemma NobodyGrouped(held: set<ArtifactId>)
    ensures GroupsJoined(Run(held, []))
  {
  }

  /** With cleanups too, as long as each can be bypassed: two artifacts share a group exactly when
      strong edges join them. */
  lemma GroupsAreComponentsWithCleanups(held: set<ArtifactId>, ops: seq<Op>, x: ArtifactId, y: ArtifactId)
    requires FreshIds(ops) && AllBypassed(held, ops) && x != y
    ensures SameGroup(Run(held, ops), x, y) <==> Joined(StrongPairs(Run(held, ops).edges), x, y)
  {
    var s := Run(held, ops);
    RunKeepsComponents(held, ops);
    EveryRunIsSound(held, ops);
    hide Run, AllBypassed, FreshIds, StrongPairs, SameGroup;
    if Joined(StrongPairs(s.edges), x, y) {
      var p :| IsPath(StrongPairs(s.edges), p, x, y);
      LabelConstantOnPath(s, p, x, y);
    }
  }

  /** The first cleanup that cannot be bypassed breaks it, whatever came before. */
  lemma UnbypassedCleanupBreaks(held: set<ArtifactId>, ops: seq<Op>, a: ArtifactId)
    requires FreshIds(ops) && AllBypassed(held, ops)
    requires a !in Run(held, ops).held && !Bypassed(Run(held, ops), a)
    ensures exists x, y ::
      var s := Run(held, ops + [Cleanup(a, false)]);
      SameGroup(s, x, y) && !Joined(StrongPairs(s.edges), x, y)
  {
    RunKeepsComponents(held, ops);
    EveryRunIsSound(held, ops);
    var all := ops + [Cleanup(a, false)];
    assert all[..|all| - 1] == ops && all[|all| - 1] == Cleanup(a, false);
    assert Run(held, all) == CleanupSpec(Run(held, ops), a, false);
    hide Sound, Run, AllBypassed, FreshIds, CleanupSpec, Bypassed;
    CleanupKeepsComponents(Run(held, ops), a, false);
    assert !GroupsJoined(Run(held, all));
  }
}
