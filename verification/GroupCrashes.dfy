/** Inserts and cleanups that are cut between two statements (similarity/edges.rs and
    similarity/lifecycle.rs). A strong edge stored without its union is never united later, as
    the second insert finds the row. No cut of a cleanup strands a strong edge, because the edges
    go before the membership; but between the membership and the end of the repair a cut leaves a
    group that no later cleanup of the artifact repairs. */
module GroupCrashes {
  import opened Numbers
  import opened Options
  import opened SimilarityModel
  import opened VariantGroups

  // ---------------------------------------------------------------- inserts

  /** Once the row is there, the same insert does nothing. */
  lemma RedoneInsertRepairsNothing(s: Store, a: ArtifactId, b: ArtifactId, t: EdgeType, score: real, uuid: GroupId, n: nat,
                                   score': real, uuid': GroupId)
    requires 0 < n < InsertWrites(s, a, b, t)
    ensures var s' := CutInsert(s, a, b, t, score, uuid, n);
            InsertSpec(s', a, b, t, score', uuid') == InsertSpec(s', b, a, t, score', uuid') == s'
  {
  }

  /** An insert keeps the groups in order exactly when it is not cut after the row and before the
      end of its union. */
  lemma CutInsertIsSoundExactly(s: Store, a: ArtifactId, b: ArtifactId, t: EdgeType, score: real, uuid: GroupId, n: nat)
    requires Sound(s) && uuid !in s.births
    ensures Sound(CutInsert(s, a, b, t, score, uuid, n)) <==> n == 0 || n >= InsertWrites(s, a, b, t)
  {
    if n >= InsertWrites(s, a, b, t) {
      InsertKeepsSound(s, a, b, t, score, uuid);
    } else if n > 0 {
      CutUnionIsBroken(s, Canonical(a, b, t), score, uuid, n - 1);
    }
  }

  lemma CutUnionIsBroken(s: Store, k: EdgeKey, score: real, uuid: GroupId, n: nat)
    requires Sound(s) && uuid !in s.births && MergesGroups(k.etype) && n < UnionWrites(s.members, k.src, k.dst)
    ensures !Sound(CutUnion(AddRow(s, k, score), k.src, k.dst, uuid, n))
  {
    var s' := CutUnion(AddRow(s, k, score), k.src, k.dst, uuid, n);
    assert k in s'.edges && (k.src, k.dst) in StrongPairs(s'.edges);
    if n == 1 && k.src in s.members && k.dst in s.members {
      StaleRow(s, s', k);
    }
  }

  /** The row of the dropped group is still there. */
  lemma StaleRow(s: Store, s': Store, k: EdgeKey)
    requires s.groups == s.members.Values && k.src in s.members && k.dst in s.members && s.members[k.src] != s.members[k.dst]
    requires var lo, hi := Min(s.members[k.src], s.members[k.dst]), Max(s.members[k.src], s.members[k.dst]);
             s'.groups == s.groups && s'.members == Relabel(s.members, hi, lo)
    ensures s'.groups != s'.members.Values
  {
    var lo, hi := Min(s.members[k.src], s.members[k.dst]), Max(s.members[k.src], s.members[k.dst]);
    assert hi in s'.groups;
    assert forall x :: x in s'.members ==> s'.members[x] != hi;
  }

  // ---------------------------------------------------------------- cleanups

  /** The group of `a` is left broken: its last member, or only its row, is still there. */
  ghost predicate LeavesRemnant(s: Store, a: ArtifactId, n: nat) {
    6 <= n < 9 && Dissolves(s.members, a)
  }

  /** The membership of `a` is the last row to go, or all rows are gone. */
  lemma AllDeletesAreThePurge(s: Store, a: ArtifactId, n: nat)
    requires n >= 9 || (n >= 6 && !Dissolves(s.members, a))
    ensures CutPurge(s, a, n) == PurgeSpec(s, a)
  {
    if a !in s.members { assert s.members - {a} == s.members; }
  }

  /** Wherever a cleanup is cut, every strong edge that is left lies inside a group. */
  lemma CutStrandsNoEdge(s: Store, a: ArtifactId, n: nat)
    requires Sound(s)
    ensures EdgesGrouped(CutPurge(s, a, n))
  {
    var s' := CutPurge(s, a, n);
    if n >= 6 && !LeavesRemnant(s, a, n) {
      AllDeletesAreThePurge(s, a, n);
      PurgeStrandsNoEdge(s, a);
    } else {
      forall x, y | (x, y) in StrongPairs(s'.edges) ensures SameGroup(s', x, y) {
        CutPair(s, a, n, x, y);
        assert SameGroup(s, x, y);
        if n >= 8 { PurgeKeepsTogether(s, a, x, y); }
      }
    }
  }

  lemma CutPair(s: Store, a: ArtifactId, n: nat, x: ArtifactId, y: ArtifactId)
    requires Sound(s) && (x, y) in StrongPairs(CutPurge(s, a, n).edges)
    ensures (x, y) in StrongPairs(s.edges) && x != y && (n >= 4 ==> x != a && y != a)
  {
    var k :| k in CutPurge(s, a, n).edges && MergesGroups(k.etype) && (k.src, k.dst) == (x, y);
    assert k in s.edges && (n >= 4 ==> !Touches(k, a));
  }

  /** A group that dissolves has one other member. */
  lemma LastMember(s: Store, a: ArtifactId) returns (y: ArtifactId)
    requires Sound(s) && Dissolves(s.members, a)
    ensures y != a && MembersOf(s.members - {a}, s.members[a]) == {y}
  {
    assert HasPeer(s, a);
    y :| y != a && SameGroup(s, a, y);
    var rest := MembersOf(s.members - {a}, s.members[a]);
    forall z | z in rest ensures z == y {
      if z != y { CardinalityMonotone({y, z}, rest); }
    }
  }

  /** The remnant: a group row, with a member that has no peer or with none. */
  lemma RemnantIsBroken(s: Store, a: ArtifactId, n: nat)
    requires Sound(s) && LeavesRemnant(s, a, n)
    ensures var s' := CutPurge(s, a, n);
            && s.members[a] in s'.groups && a !in s'.members
            && |MembersOf(s'.members, s.members[a])| <= 1 && !Sound(s')
  {
    var s', g := CutPurge(s, a, n), s.members[a];
    var y := LastMember(s, a);
    if n < 8 {
      assert MembersOf(s'.members, g) == {y};
      assert y in s'.members && s'.members[y] == g;
      assert forall z :: SameGroup(s', y, z) ==> z in MembersOf(s'.members, g);
      assert !HasPeer(s', y);
    } else {
      assert MembersOf(s'.members, g) == {};
      assert forall z :: z in s'.members && s'.members[z] == g ==> z in MembersOf(s'.members, g);
    }
  }

  lemma EarlyCutIsSound(s: Store, a: ArtifactId, n: nat)
    requires Sound(s) && n < 6
    ensures Sound(CutPurge(s, a, n))
  {
    CutStrandsNoEdge(s, a, n);
    hide EdgesGrouped;
    forall x | x in s.members ensures HasPeer(CutPurge(s, a, n), x) {
      assert HasPeer(s, x);
      var y :| y != x && SameGroup(s, x, y);
      assert SameGroup(CutPurge(s, a, n), x, y);
    }
  }

  /** A cut cleanup leaves the groups in order exactly when it leaves no remnant. */
  lemma CutIsSoundExactly(s: Store, a: ArtifactId, n: nat)
    requires Sound(s)
    ensures Sound(CutPurge(s, a, n)) <==> !LeavesRemnant(s, a, n)
  {
    hide Sound, CutPurge, PurgeSpec;
    if LeavesRemnant(s, a, n) {
      RemnantIsBroken(s, a, n);
    } else if n < 6 {
      EarlyCutIsSound(s, a, n);
    } else {
      AllDeletesAreThePurge(s, a, n);
      PurgeKeepsSound(s, a);
    }
  }

  /** Once it is gone, purging it again changes nothing. */
  lemma PurgeTwice(s: Store, a: ArtifactId)
    ensures PurgeSpec(PurgeSpec(s, a), a) == PurgeSpec(s, a)
  {
    var t := PurgeSpec(s, a);
    PurgeEdges(s, a);
    assert IncidentEdges(t, a) == {};
    assert t.edges - {} == t.edges && t.members - {a} == t.members;
  }

  lemma EarlyCutIsFinished(s: Store, a: ArtifactId, n: nat)
    requires n < 6
    ensures PurgeSpec(CutPurge(s, a, n), a) == PurgeSpec(s, a)
  {
    var t := CutPurge(s, a, n);
    assert t.edges - IncidentEdges(t, a) == s.edges - IncidentEdges(s, a);
  }

  /** Cleaning up again finishes what was cut exactly when no remnant was left: the second
      cleanup finds no membership, and so repairs nothing. */
  lemma RerunFinishesExactly(s: Store, a: ArtifactId, n: nat)
    requires Sound(s)
    ensures PurgeSpec(CutPurge(s, a, n), a) == PurgeSpec(s, a) <==> !LeavesRemnant(s, a, n)
  {
    if LeavesRemnant(s, a, n) {
      RemnantIsBroken(s, a, n);
      hide Sound, CutPurge;
      assert PurgeSpec(CutPurge(s, a, n), a).groups == CutPurge(s, a, n).groups;
      assert s.members[a] !in PurgeSpec(s, a).groups;
    } else if n < 6 {
      EarlyCutIsFinished(s, a, n);
    } else {
      AllDeletesAreThePurge(s, a, n);
      PurgeTwice(s, a);
    }
  }

  // ---------------------------------------------------------------- whole runs with cuts

  /** An operation whole, or cut after `fuel` of its statements. */
  datatype CutOp = CutOp(op: Op, fuel: Option<nat>)

  ghost function ApplyCut(s: Store, c: CutOp): Store {
    match c.op
    case Insert(a, b, t, score, uuid) =>
      if c.fuel.Some? then CutInsert(s, a, b, t, score, uuid, c.fuel.value) else InsertSpec(s, a, b, t, score, uuid)
    case Cleanup(a, dryRun) =>
      if dryRun || a in s.held then s
      else if c.fuel.Some? && c.fuel.value < Deletes(s.members, a) then CutPurge(s, a, c.fuel.value)
      else PurgeSpec(s, a)
  }

  /** The row that this operation stores, if it stores one. */
  ghost function Stores(s: Store, c: CutOp): set<EdgeKey> {
    match c.op
    case Insert(a, b, t, _, _) =>
      if a != b && Canonical(a, b, t) !in s.edges && c.fuel != Some(0) then {Canonical(a, b, t)} else {}
    case Cleanup(_, _) => {}
  }

  /** It is cut between its row and the end of its union. */
  ghost predicate Tears(s: Store, c: CutOp) {
    && c.op.Insert? && c.fuel.Some?
    && 0 < c.fuel.value < InsertWrites(s, c.op.a, c.op.b, c.op.etype)
  }

  ghost function RunCut(held: set<ArtifactId>, ops: seq<CutOp>): Store {
    if ops == [] then Store(map[], {}, map[], held, map[])
    else ApplyCut(RunCut(held, ops[..|ops| - 1]), ops[|ops| - 1])
  }

  /** The rows whose last insert was cut before the end of its union. */
  ghost function Torn(held: set<ArtifactId>, ops: seq<CutOp>): set<EdgeKey> {
    if ops == [] then {}
    else
      var s, torn, last := RunCut(held, ops[..|ops| - 1]), Torn(held, ops[..|ops| - 1]), ops[|ops| - 1];
      if Tears(s, last) then torn + Stores(s, last) else torn - Stores(s, last)
  }

  ghost predicate UntornGrouped(s: Store, torn: set<EdgeKey>) {
    && (forall k :: k in s.edges ==> k.src < k.dst)
    && (forall k :: k in s.edges && MergesGroups(k.etype) && k !in torn ==> SameGroup(s, k.src, k.dst))
  }

  lemma UnionKeepsTogether(s: Store, a: ArtifactId, b: ArtifactId, uuid: GroupId, n: nat, x: ArtifactId, y: ArtifactId)
    requires SameGroup(s, x, y)
    ensures SameGroup(UnionSpec(s, a, b, uuid), x, y)
    ensures n < UnionWrites(s.members, a, b) ==> SameGroup(CutUnion(s, a, b, uuid, n), x, y)
  {
  }

  lemma UnionJoins(s: Store, a: ArtifactId, b: ArtifactId, uuid: GroupId)
    requires a != b
    ensures SameGroup(UnionSpec(s, a, b, uuid), a, b)
  {
  }

  lemma InsertKeepsUntorn(s: Store, torn: set<EdgeKey>, c: CutOp)
    requires c.op.Insert? && UntornGrouped(s, torn)
    ensures UntornGrouped(ApplyCut(s, c), if Tears(s, c) then torn + Stores(s, c) else torn - Stores(s, c))
  {
    var key := Canonical(c.op.a, c.op.b, c.op.etype);
    var s', row := ApplyCut(s, c), AddRow(s, key, c.op.score);
    hide UnionSpec, CutUnion, SameGroup, UnionWrites;
    CutUnionFrame(row, key.src, key.dst, c.op.uuid);
    UnionFrame(row, key.src, key.dst, c.op.uuid);
    assert forall x, y :: SameGroup(row, x, y) == SameGroup(s, x, y) by { SameGroupIsOfMembers(row, s); }
    if key.src != key.dst { UnionJoins(row, key.src, key.dst, c.op.uuid); }
    forall k | k in s'.edges && MergesGroups(k.etype) && k in s.edges && k !in torn ensures SameGroup(s', k.src, k.dst) {
      assert SameGroup(row, k.src, k.dst);
      UnionKeepsTogether(row, key.src, key.dst, c.op.uuid, if c.fuel.Some? && c.fuel.value > 0 then c.fuel.value - 1 else 0, k.src, k.dst);
    }
  }

  lemma SameGroupIsOfMembers(s: Store, s': Store)
    requires s.members == s'.members
    ensures forall x, y :: SameGroup(s, x, y) == SameGroup(s', x, y)
  {
  }

  lemma CutUnionFrame(s: Store, a: ArtifactId, b: ArtifactId, uuid: GroupId)
    ensures forall n: nat :: CutUnion(s, a, b, uuid, n).edges == s.edges
  {
  }

  lemma CleanupKeepsUntorn(s: Store, torn: set<EdgeKey>, c: CutOp)
    requires c.op.Cleanup? && UntornGrouped(s, torn)
    ensures UntornGrouped(ApplyCut(s, c), torn)
  {
    var a, s' := c.op.artifact, ApplyCut(s, c);
    forall k | k in s'.edges && MergesGroups(k.etype) && k !in torn ensures SameGroup(s', k.src, k.dst) {
      assert SameGroup(s, k.src, k.dst);
      PurgeEdges(s, a);
      if s' == PurgeSpec(s, a) && s' != s {
        assert !Touches(k, a);
        PurgeKeepsTogether(s, a, k.src, k.dst);
      } else if s' != s {
        CutKeepsTogether(s, a, c.fuel.value, k);
      }
    }
    if !c.op.dryRun && a !in s.held { PurgeEdges(s, a); }
  }

  lemma CutKeepsTogether(s: Store, a: ArtifactId, n: nat, k: EdgeKey)
    requires k in CutPurge(s, a, n).edges && k.src < k.dst && SameGroup(s, k.src, k.dst)
    ensures SameGroup(CutPurge(s, a, n), k.src, k.dst)
  {
    if n >= 4 { assert !Touches(k, a); }
    if n >= 8 { PurgeKeepsTogether(s, a, k.src, k.dst); }
  }

  /** Whatever is cut, wherever and how often: every strong edge whose own insert was not cut
      has both its ends in one group. */
  lemma {:induction false} UncutEdgesStayGrouped(held: set<ArtifactId>, ops: seq<CutOp>)
    ensures UntornGrouped(RunCut(held, ops), Torn(held, ops))
  {
    if ops != [] {
      var init, last := ops[..|ops| - 1], ops[|ops| - 1];
      UncutEdgesStayGrouped(held, init);
      hide UntornGrouped, ApplyCut;
      match last.op
      case Insert(_, _, _, _, _) => InsertKeepsUntorn(RunCut(held, init), Torn(held, init), last);
      case Cleanup(_, _) =>
        CleanupKeepsUntorn(RunCut(held, init), Torn(held, init), last);
        assert Torn(held, ops) == Torn(held, init);
    }
  }

  /** And so have the two ends of every path of such edges. */
  lemma UncutPathsStayGrouped(held: set<ArtifactId>, ops: seq<CutOp>, x: ArtifactId, y: ArtifactId)
    requires x != y && Joined(StrongPairs(RunCut(held, ops).edges - Torn(held, ops)), x, y)
    ensures SameGroup(RunCut(held, ops), x, y)
  {
    UncutEdgesStayGrouped(held, ops);
    var s := RunCut(held, ops);
    var kept := s.(edges := s.edges - Torn(held, ops));
    forall u, v | (u, v) in StrongPairs(kept.edges) ensures SameGroup(kept, u, v) {
      var k :| k in kept.edges && MergesGroups(k.etype) && (k.src, k.dst) == (u, v);
      assert SameGroup(s, k.src, k.dst);
    }
    hide RunCut, Torn, StrongPairs, UntornGrouped;
    var p :| IsPath(StrongPairs(kept.edges), p, x, y);
    LabelConstantOnPath(kept, p, x, y);
  }
}
