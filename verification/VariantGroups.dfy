/** Variant groups (similarity/edges.rs) and their retention cleanup
    (similarity/lifecycle.rs), for one tenant.

    `SimilarityDb` performs the row operations one by one, as the SQL does. Each public method
    is tied to a function on the plain value `Store`; what the groups mean is proved about runs
    of those functions. */
module VariantGroups {
  import opened Options
  import opened SimilarityModel

  // UUIDs are modelled by their total order.
  type ArtifactId = nat
  type GroupId = nat

  /** Primary key of `similarity_edge` under the one current model version. */
  datatype EdgeKey = EdgeKey(src: ArtifactId, dst: ArtifactId, etype: EdgeType)

  datatype DbError = CheckViolation | Conflict | Crashed

  /** Tables whose rows are derived from one artifact. */
  datatype DerivedTable = Features | Functions | FunctionBands | LshBands | Receipts

  datatype DerivedKey = DerivedKey(table: DerivedTable, artifact: ArtifactId)

  /** The derived rows that are gone after `n` of a cleanup's deletes; the fourth takes the
      edges and the sixth the membership. */
  function DerivedGone(a: ArtifactId, n: nat): set<DerivedKey> {
    (if n >= 1 then {DerivedKey(Features, a)} else {}) + (if n >= 2 then {DerivedKey(Functions, a)} else {})
    + (if n >= 3 then {DerivedKey(FunctionBands, a)} else {}) + (if n >= 5 then {DerivedKey(LshBands, a)} else {})
    + (if n >= 7 then {DerivedKey(Receipts, a)} else {})
  }

  lemma FirstGone(d: map<DerivedKey, nat>, a: ArtifactId)
    ensures d - DerivedGone(a, 0) == d
    ensures d - DerivedGone(a, 1) == d - {DerivedKey(Features, a)}
    ensures d - DerivedGone(a, 2) == d - {DerivedKey(Features, a)} - {DerivedKey(Functions, a)}
    ensures d - DerivedGone(a, 3) == d - {DerivedKey(Features, a)} - {DerivedKey(Functions, a)} - {DerivedKey(FunctionBands, a)}
  {
  }

  lemma LastGone(d: map<DerivedKey, nat>, a: ArtifactId)
    ensures d - DerivedGone(a, 4) == d - DerivedGone(a, 3)
    ensures d - DerivedGone(a, 5) == d - DerivedGone(a, 4) - {DerivedKey(LshBands, a)}
    ensures d - DerivedGone(a, 6) == d - DerivedGone(a, 5)
    ensures d - DerivedGone(a, 7) == d - DerivedGone(a, 6) - {DerivedKey(Receipts, a)}
  {
  }

  datatype CleanupReport = CleanupReport(
    dryRun: bool,
    legalHold: bool,
    features: nat,
    functions: nat,
    lshBands: nat,
    receipts: nat,
    edges: nat,
    groupMemberships: nat,
    groupsRepaired: int,
    groupsRemoved: int)

  /** The tables as one value. `births` is a history: each group id ever issued, with one of
      the two artifacts it was issued for. No operation reads it. */
  datatype Store = Store(
    edges: map<EdgeKey, real>,
    groups: set<GroupId>,
    members: map<ArtifactId, GroupId>,
    held: set<ArtifactId>,
    births: map<GroupId, ArtifactId>)

  // ---------------------------------------------------------------- specification functions

  function Canonical(a: ArtifactId, b: ArtifactId, t: EdgeType): EdgeKey {
    if a < b then EdgeKey(a, b, t) else EdgeKey(b, a, t)
  }

  predicate Touches(k: EdgeKey, a: ArtifactId) {
    k.src == a || k.dst == a
  }

  ghost function Relabel(m: map<ArtifactId, GroupId>, drop: GroupId, keep: GroupId): map<ArtifactId, GroupId> {
    map x | x in m :: if m[x] == drop then keep else m[x]
  }

  ghost function UnionSpec(s: Store, a: ArtifactId, b: ArtifactId, uuid: GroupId): Store {
    if a in s.members && b in s.members then
      var lo := if s.members[a] < s.members[b] then s.members[a] else s.members[b];
      var hi := if s.members[a] < s.members[b] then s.members[b] else s.members[a];
      if lo == hi then s
      else s.(members := Relabel(s.members, hi, lo), groups := s.groups - {hi})
    else if a in s.members then s.(members := s.members[b := s.members[a]])
    else if b in s.members then s.(members := s.members[a := s.members[b]])
    else s.(members := s.members[a := uuid][b := uuid],
            groups := s.groups + {uuid},
            births := s.births[uuid := a])
  }

  ghost function InsertSpec(s: Store, a: ArtifactId, b: ArtifactId, t: EdgeType, score: real, uuid: GroupId): Store {
    var k := Canonical(a, b, t);
    if a == b || k in s.edges then s
    else
      var s' := s.(edges := s.edges[k := score]);
      if MergesGroups(t) then UnionSpec(s', k.src, k.dst, uuid) else s'
  }

  /** How many statements a union makes. */
  ghost function UnionWrites(m: map<ArtifactId, GroupId>, a: ArtifactId, b: ArtifactId): nat {
    if a in m && b in m then (if m[a] == m[b] then 0 else 2)
    else if a in m || b in m then 1
    else 3
  }

  /** What the first `n` statements of a union leave behind, `n` being fewer than it makes. */
  ghost function CutUnion(s: Store, a: ArtifactId, b: ArtifactId, uuid: GroupId, n: nat): Store {
    if n == 0 || (a in s.members && b in s.members && s.members[a] == s.members[b]) then s
    else if a in s.members && b in s.members then
      s.(members := if s.members[a] < s.members[b] then Relabel(s.members, s.members[b], s.members[a])
                    else Relabel(s.members, s.members[a], s.members[b]))
    else s.(groups := s.groups + {uuid},
            births := s.births[uuid := a],
            members := if n >= 2 then s.members[a := uuid] else s.members)
  }

  /** How many statements an insert makes. */
  ghost function InsertWrites(s: Store, a: ArtifactId, b: ArtifactId, t: EdgeType): nat {
    var k := Canonical(a, b, t);
    if a == b || k in s.edges then 0
    else if MergesGroups(t) then 1 + UnionWrites(s.members, k.src, k.dst)
    else 1
  }

  /** What the first `n` statements of an insert leave behind. */
  ghost function CutInsert(s: Store, a: ArtifactId, b: ArtifactId, t: EdgeType, score: real, uuid: GroupId, n: nat): Store {
    var k := Canonical(a, b, t);
    if n >= InsertWrites(s, a, b, t) then InsertSpec(s, a, b, t, score, uuid)
    else if n == 0 then s
    else CutUnion(s.(edges := s.edges[k := score]), k.src, k.dst, uuid, n - 1)
  }

  ghost function MembersOf(m: map<ArtifactId, GroupId>, g: GroupId): set<ArtifactId> {
    set x | x in m && m[x] == g
  }

  ghost function RepairSpec(s: Store, g: GroupId): Store {
    if |MembersOf(s.members, g)| <= 1
    then s.(members := s.members - MembersOf(s.members, g), groups := s.groups - {g})
    else s
  }

  /** Fewer than two members remain of `a`'s group once `a` is gone. */
  ghost predicate Dissolves(m: map<ArtifactId, GroupId>, a: ArtifactId) {
    a in m && |MembersOf(m - {a}, m[a])| <= 1
  }

  ghost function IncidentEdges(s: Store, a: ArtifactId): set<EdgeKey> {
    set k | k in s.edges && Touches(k, a)
  }

  /** What a destructive cleanup of an artifact that is not on legal hold leaves behind. */
  ghost function PurgeSpec(s: Store, a: ArtifactId): Store {
    var s' := s.(edges := s.edges - IncidentEdges(s, a), members := s.members - {a});
    if a in s.members then RepairSpec(s', s.members[a]) else s'
  }

  /** What its first `n` deletes leave behind: seven for the artifact's own rows, and two more
      when its group dissolves. */
  ghost function CutPurge(s: Store, a: ArtifactId, n: nat): Store {
    var edges := if n >= 4 then s.edges - IncidentEdges(s, a) else s.edges;
    var members := if n >= 6 then s.members - {a} else s.members;
    if n >= 8 && Dissolves(s.members, a)
    then s.(edges := edges,
            members := members - MembersOf(members, s.members[a]),
            groups := if n >= 9 then s.groups - {s.members[a]} else s.groups)
    else s.(edges := edges, members := members)
  }

  /** How many deletes a cleanup makes. */
  ghost function Deletes(m: map<ArtifactId, GroupId>, a: ArtifactId): nat {
    if Dissolves(m, a) then 9 else 7
  }

  ghost function CleanupSpec(s: Store, a: ArtifactId, dryRun: bool): Store {
    if dryRun || a in s.held then s else PurgeSpec(s, a)
  }

  // ---------------------------------------------------------------- the tables as an object

  class SimilarityDb {
    var edges: map<EdgeKey, real>
    var groups: set<GroupId>
    var members: map<ArtifactId, GroupId>
    var held: set<ArtifactId>
    /** How many rows a derived table holds for an artifact. */
    var derived: map<DerivedKey, nat>
    ghost var births: map<GroupId, ArtifactId>

    ghost function View(): Store
      reads this
    {
      Store(edges, groups, members, held, births)
    }

    constructor (onHold: set<ArtifactId>)
      ensures View() == Store(map[], {}, map[], onHold, map[]) && derived == map[]
    {
      edges, groups, members, held, derived, births := map[], {}, map[], onHold, map[], map[];
    }

    function RowsIn(t: DerivedTable, a: ArtifactId): nat
      reads this`derived
    {
      if DerivedKey(t, a) in derived then derived[DerivedKey(t, a)] else 0
    }

    method GroupOf(a: ArtifactId) returns (g: Option<GroupId>)
      ensures g == if a in members then Some(members[a]) else None
    {
      if a in members { g := Some(members[a]); } else { g := None; }
    }

    /** INSERT … ON CONFLICT (artifact) DO NOTHING. */
    method AddMember(g: GroupId, a: ArtifactId)
      modifies this`members
      ensures members == if a in old(members) then old(members) else old(members)[a := g]
    {
      if a !in members { members := members[a := g]; }
    }

    /** `uuid` is the id the code would draw; not `ok` is a cut after `fuel` statements. */
    method UnionGroups(a: ArtifactId, b: ArtifactId, uuid: GroupId, fuel: Option<nat>) returns (ok: bool)
      requires a != b
      modifies this`groups, this`members, this`births
      ensures ok <==> fuel.None? || fuel.value >= UnionWrites(old(members), a, b)
      ensures View() == if ok then UnionSpec(old(View()), a, b, uuid) else CutUnion(old(View()), a, b, uuid, fuel.value)
    {
      var ga := GroupOf(a);
      var gb := GroupOf(b);
      if ga.Some? && gb.Some? && ga == gb { return true; }
      if fuel == Some(0) { return false; }
      match (ga, gb) {
        case (Some(g1), Some(g2)) =>
          var keep, drop := if g1 < g2 then g1 else g2, if g1 < g2 then g2 else g1;
          members := map x | x in members :: if members[x] == drop then keep else members[x];
          if fuel == Some(1) { return false; }
          groups := groups - {drop};
        case (Some(g), None) => AddMember(g, b);
        case (None, Some(g)) => AddMember(g, a);
        case (None, None) =>
          groups := groups + {uuid};
          births := births[uuid := a];
          if fuel == Some(1) { return false; }
          AddMember(uuid, a);
          if fuel == Some(2) { return false; }
          AddMember(uuid, b);
      }
      return true;
    }

    /** True when a new row was written. An edge from an artifact to itself breaks the table's
        `src < dst` check. */
    method InsertEdge(a: ArtifactId, b: ArtifactId, t: EdgeType, score: real, uuid: GroupId, fuel: Option<nat>)
      returns (r: Result<bool, DbError>)
      modifies this`edges, this`groups, this`members, this`births
      ensures r == Err(Crashed) <==> fuel.Some? && fuel.value < InsertWrites(old(View()), a, b, t)
      ensures r == Err(Crashed) ==> View() == CutInsert(old(View()), a, b, t, score, uuid, fuel.value)
      ensures r != Err(Crashed) ==>
                && View() == InsertSpec(old(View()), a, b, t, score, uuid)
                && r == if a == b then Err(CheckViolation) else Ok(Canonical(a, b, t) !in old(edges))
    {
      hide UnionSpec, CutUnion, UnionWrites;
      var src, dst := if a < b then a else b, if a < b then b else a;
      if !(src < dst) { return Err(CheckViolation); }
      var key := EdgeKey(src, dst, t);
      if key in edges { return Ok(false); }
      if fuel == Some(0) { return Err(Crashed); }
      edges := edges[key := score];
      if MergesGroups(t) {
        var ok := UnionGroups(src, dst, uuid, if fuel.Some? then Some(fuel.value - 1) else None);
        if !ok { return Err(Crashed); }
      }
      return Ok(true);
    }

    method RepairGroup(g: GroupId, fuel: Option<nat>) returns (ok: bool, changed: bool, removed: bool)
      modifies this`groups, this`members
      ensures ok <==> |MembersOf(old(members), g)| > 1 || fuel.None? || fuel.value >= 2
      ensures ok ==> View() == RepairSpec(old(View()), g) && changed == removed == (|MembersOf(old(members), g)| <= 1)
      ensures !ok ==> View() == old(View()).(members := if fuel == Some(0) then old(members) else old(members) - MembersOf(old(members), g))
    {
      var rows := set x | x in members && members[x] == g;
      if |rows| > 1 { return true, false, false; }
      if fuel == Some(0) { return false, false, false; }
      members := members - rows;
      if fuel == Some(1) { return false, false, false; }
      groups := groups - {g};
      return true, true, true;
    }

    /** The artifact's own rows, table by table. */
    method DeleteRows(a: ArtifactId, fuel: Option<nat>) returns (ok: bool)
      modifies this`edges, this`members, this`derived
      ensures ok <==> fuel.None? || fuel.value >= 7
      ensures var n := if ok then 7 else fuel.value;
              && View() == CutPurge(old(View()), a, n)
              && derived == old(derived) - DerivedGone(a, n)
    {
      hide Dissolves, MembersOf, DerivedGone;
      ghost var d := derived;
      FirstGone(d, a);
      if fuel == Some(0) { return false; }
      derived := derived - {DerivedKey(Features, a)};
      if fuel == Some(1) { return false; }
      derived := derived - {DerivedKey(Functions, a)};
      if fuel == Some(2) { return false; }
      derived := derived - {DerivedKey(FunctionBands, a)};
      if fuel == Some(3) { return false; }
      edges := edges - set k | k in edges && Touches(k, a);
      LastGone(d, a);
      if fuel == Some(4) { return false; }
      derived := derived - {DerivedKey(LshBands, a)};
      if fuel == Some(5) { return false; }
      members := members - {a};
      if fuel == Some(6) { return false; }
      derived := derived - {DerivedKey(Receipts, a)};
      return true;
    }

    /** `Crashed` is a cut after `fuel` of the deletes. */
    method CleanupArtifact(a: ArtifactId, dryRun: bool, fuel: Option<nat>) returns (r: Result<CleanupReport, DbError>)
      modifies this`edges, this`groups, this`members, this`derived
      ensures r == Err(Conflict) <==> a in old(held) && !dryRun
      ensures r == Err(Crashed) <==> a !in old(held) && !dryRun && fuel.Some? && fuel.value < Deletes(old(members), a)
      ensures r.Err? ==> r.error == Conflict || r.error == Crashed
      ensures r == Err(Crashed) ==>
                View() == CutPurge(old(View()), a, fuel.value) && derived == old(derived) - DerivedGone(a, fuel.value)
      ensures r != Err(Crashed) ==>
                && View() == CleanupSpec(old(View()), a, dryRun)
                && derived == if r.Err? || dryRun then old(derived) else old(derived) - DerivedGone(a, 7)
      ensures r.Ok? ==>
                && r.value.dryRun == dryRun
                && r.value.legalHold == (a in old(held))
                && r.value.features == old(RowsIn(Features, a)) && r.value.functions == old(RowsIn(Functions, a))
                && r.value.lshBands == old(RowsIn(LshBands, a)) && r.value.receipts == old(RowsIn(Receipts, a))
                && r.value.edges == |IncidentEdges(old(View()), a)|
                && r.value.groupMemberships == (if a in old(members) then 1 else 0)
                && r.value.groupsRepaired == 0
                && (r.value.groupsRemoved == 0 || r.value.groupsRemoved == 1)
                && (r.value.groupsRemoved == 1 <==> !r.value.dryRun && !r.value.legalHold && Dissolves(old(members), a))
      // what a caller of a destructive run is promised
      ensures r.Ok? && !dryRun ==> a !in members && forall k :: k in edges ==> !Touches(k, a)
    {
      var legalHold := a in held;
      if legalHold && !dryRun { return Err(Conflict); }
      var group := GroupOf(a);
      var report := CleanupReport(dryRun || legalHold, legalHold, RowsIn(Features, a), RowsIn(Functions, a), RowsIn(LshBands, a),
                                  RowsIn(Receipts, a), |set k | k in edges && Touches(k, a)|, if group.Some? then 1 else 0, 0, 0);
      if dryRun || legalHold {
        return Ok(report);
      }
      var ok := DeleteRows(a, fuel);
      if !ok { return Err(Crashed); }
      if group.Some? {
        var changed, removed;
        ok, changed, removed := RepairGroup(group.value, if fuel.Some? then Some(fuel.value - 7) else None);
        if !ok { return Err(Crashed); }
        report := report.(groupsRemoved := if removed then 1 else 0,
                          groupsRepaired := if !removed && changed then 1 else 0);
      }
      return Ok(report);
    }
  }

  // ---------------------------------------------------------------- paths of strong edges

  /** The endpoints of the stored strong edges. */
  ghost function StrongPairs(edges: map<EdgeKey, real>): set<(ArtifactId, ArtifactId)> {
    set k | k in edges && MergesGroups(k.etype) :: (k.src, k.dst)
  }

  ghost predicate Adjacent(E: set<(ArtifactId, ArtifactId)>, x: ArtifactId, y: ArtifactId) {
    (x, y) in E || (y, x) in E
  }

  ghost predicate IsPath(E: set<(ArtifactId, ArtifactId)>, p: seq<ArtifactId>, x: ArtifactId, y: ArtifactId) {
    && |p| > 0 && p[0] == x && p[|p| - 1] == y
    && forall i :: 0 <= i < |p| - 1 ==> Adjacent(E, p[i], p[i + 1])
  }

  ghost predicate Joined(E: set<(ArtifactId, ArtifactId)>, x: ArtifactId, y: ArtifactId) {
    exists p :: IsPath(E, p, x, y)
  }

  lemma JoinedStep(E: set<(ArtifactId, ArtifactId)>, x: ArtifactId, y: ArtifactId)
    requires x == y || Adjacent(E, x, y)
    ensures Joined(E, x, y)
  {
    assert IsPath(E, if x == y then [x] else [x, y], x, y);
  }

  lemma JoinedGrows(E: set<(ArtifactId, ArtifactId)>, E': set<(ArtifactId, ArtifactId)>, x: ArtifactId, y: ArtifactId)
    requires E <= E' && Joined(E, x, y)
    ensures Joined(E', x, y)
  {
    var p :| IsPath(E, p, x, y);
    assert IsPath(E', p, x, y);
  }

  lemma JoinedTrans(E: set<(ArtifactId, ArtifactId)>, x: ArtifactId, y: ArtifactId, z: ArtifactId)
    requires Joined(E, x, y) && Joined(E, y, z)
    ensures Joined(E, x, z)
  {
    var p :| IsPath(E, p, x, y);
    var q :| IsPath(E, q, y, z);
    var r := p + q[1..];
    forall i | 0 <= i < |r| - 1 ensures Adjacent(E, r[i], r[i + 1]) {
      if i >= |p| - 1 { assert r[i] == q[i - |p| + 1] && r[i + 1] == q[i - |p| + 2]; }
    }
    assert IsPath(E, r, x, z);
  }

  ghost predicate SameGroup(s: Store, x: ArtifactId, y: ArtifactId) {
    x in s.members && y in s.members && s.members[x] == s.members[y]
  }

  /** A labelling that no strong edge crosses is constant along every path. */
  lemma {:induction false} LabelConstantOnPath(s: Store, p: seq<ArtifactId>, x: ArtifactId, y: ArtifactId)
    requires EdgesGrouped(s) && IsPath(StrongPairs(s.edges), p, x, y) && x != y
    ensures SameGroup(s, x, y)
    decreases |p|
  {
    var z := p[1];
    assert Adjacent(StrongPairs(s.edges), p[0], p[1]);
    if z != y {
      assert IsPath(StrongPairs(s.edges), p[1..], z, y) by {
        forall i | 0 <= i < |p[1..]| - 1 ensures Adjacent(StrongPairs(s.edges), p[1..][i], p[1..][i + 1]) {
          assert Adjacent(StrongPairs(s.edges), p[i + 1], p[i + 2]);
        }
      }
      LabelConstantOnPath(s, p[1..], z, y);
    }
  }

  // ---------------------------------------------------------------- invariants

  /** No stored strong edge leaves a group. */
  ghost predicate EdgesGrouped(s: Store) {
    forall x, y :: (x, y) in StrongPairs(s.edges) ==> SameGroup(s, x, y)
  }

  /** Kept by inserts and cleanups alike. */
  ghost predicate Sound(s: Store) {
    && (forall k :: k in s.edges ==> k.src < k.dst)
    && EdgesGrouped(s)
    && s.groups == s.members.Values
    && s.groups <= s.births.Keys
    && (forall x :: x in s.members ==> HasPeer(s, x))
  }

  ghost predicate HasPeer(s: Store, x: ArtifactId) {
    exists y :: y != x && SameGroup(s, x, y)
  }

  /** Kept as long as nothing is cleaned up: the groups are the components, and a component is
      named by the smallest id ever issued inside it. */
  ghost predicate Exact(s: Store) {
    && Sound(s)
    && GroupsJoined(s)
    && (forall g :: g in s.births ==> s.births[g] in s.members && s.members[s.births[g]] <= g)
    && (forall g :: g in s.groups ==> s.members[s.births[g]] == g)
  }

  // ---------------------------------------------------------------- one insert

  /** Adding an edge record adds exactly its pair, when the type is strong. */
  lemma StrongPairsAfterRow(edges: map<EdgeKey, real>, k: EdgeKey, score: real)
    ensures StrongPairs(edges[k := score])
         == StrongPairs(edges) + (if MergesGroups(k.etype) then {(k.src, k.dst)} else {})
  {
    var edges' := edges[k := score];
    forall e | e in StrongPairs(edges) ensures e in StrongPairs(edges') {
      var k' :| k' in edges && MergesGroups(k'.etype) && (k'.src, k'.dst) == e;
      assert k' in edges';
    }
    if MergesGroups(k.etype) { assert k in edges'; }
  }

  /** Everything but the new strong edge is as `Sound` wants it. */
  ghost predicate SoundExcept(s: Store, a: ArtifactId, b: ArtifactId) {
    && (forall k :: k in s.edges ==> k.src < k.dst)
    && (forall x, y :: (x, y) in StrongPairs(s.edges) && (x, y) != (a, b) ==> SameGroup(s, x, y))
    && s.groups == s.members.Values
    && s.groups <= s.births.Keys
    && (forall x :: x in s.members ==> HasPeer(s, x))
  }

  /** Union never separates two artifacts, and puts its two arguments together. */
  lemma UnionMerges(s: Store, a: ArtifactId, b: ArtifactId, uuid: GroupId)
    requires a != b && uuid !in s.births && s.groups == s.members.Values && s.groups <= s.births.Keys
    ensures var s' := UnionSpec(s, a, b, uuid);
            && SameGroup(s', a, b)
            && (forall x, y :: SameGroup(s, x, y) ==> SameGroup(s', x, y))
            && s'.groups == s'.members.Values
            && s'.groups <= s'.births.Keys
  {
    var s' := UnionSpec(s, a, b, uuid);
    forall g | g in s'.groups ensures g in s'.members.Values {
      if g in s.members.Values {
        var x :| x in s.members && s.members[x] == g;
        assert x in s'.members && s'.members[x] == g;
      } else {
        assert g == uuid && s'.members[a] == uuid;
      }
    }
    forall g | g in s'.members.Values ensures g in s'.groups {
      var x :| x in s'.members && s'.members[x] == g;
      if x in s.members { assert s.members[x] in s.members.Values; }
      if a in s.members { assert s.members[a] in s.members.Values; }
      if b in s.members { assert s.members[b] in s.members.Values; }
    }
  }

  lemma UnionFrame(s: Store, a: ArtifactId, b: ArtifactId, uuid: GroupId)
    ensures var s' := UnionSpec(s, a, b, uuid);
            s'.edges == s.edges && s'.members.Keys == s.members.Keys + {a, b}
  {
  }

  lemma UnionKeepsPeers(s: Store, a: ArtifactId, b: ArtifactId, uuid: GroupId)
    requires a < b && uuid !in s.births && s.groups == s.members.Values && s.groups <= s.births.Keys
    requires forall x :: x in s.members ==> HasPeer(s, x)
    ensures forall x :: x in UnionSpec(s, a, b, uuid).members ==> HasPeer(UnionSpec(s, a, b, uuid), x)
  {
    hide UnionSpec, SameGroup, HasPeer;
    var s' := UnionSpec(s, a, b, uuid);
    UnionMerges(s, a, b, uuid);
    UnionFrame(s, a, b, uuid);
    AllPeersCarryOver(s, s');
    forall x | x in s'.members && x !in s.members ensures HasPeer(s', x) {
      IsPeer(s', x, if x == a then b else a);
    }
  }

  lemma IsPeer(s: Store, x: ArtifactId, y: ArtifactId)
    requires x != y && (SameGroup(s, x, y) || SameGroup(s, y, x))
    ensures HasPeer(s, x)
  {
    assert SameGroup(s, x, y);
  }

  lemma UnionKeepsSound(s: Store, a: ArtifactId, b: ArtifactId, uuid: GroupId)
    requires a < b && uuid !in s.births && SoundExcept(s, a, b)
    ensures Sound(UnionSpec(s, a, b, uuid))
  {
    hide UnionSpec, SameGroup, HasPeer, StrongPairs;
    var s' := UnionSpec(s, a, b, uuid);
    UnionMerges(s, a, b, uuid);
    UnionFrame(s, a, b, uuid);
    UnionKeepsPeers(s, a, b, uuid);
    forall x, y | (x, y) in StrongPairs(s'.edges) ensures SameGroup(s', x, y) {
      if (x, y) != (a, b) { assert SameGroup(s, x, y); }
    }
  }

  /** After the union, members of one group are joined as soon as its two arguments are. */
  lemma UnionKeepsJoined(s: Store, a: ArtifactId, b: ArtifactId, uuid: GroupId, x: ArtifactId, y: ArtifactId)
    requires a < b && uuid !in s.births && s.groups == s.members.Values && s.groups <= s.births.Keys
    requires (a, b) in StrongPairs(s.edges)
    requires GroupsJoined(s)
    requires SameGroup(UnionSpec(s, a, b, uuid), x, y)
    ensures Joined(StrongPairs(s.edges), x, y)
  {
    var E := StrongPairs(s.edges);
    JoinedStep(E, a, b);
    JoinedStep(E, b, a);
    if !SameGroup(s, x, y) {
      Attached(s, a, b, uuid, x, y);
      Attached(s, a, b, uuid, y, x);
      var u :| (u == a || u == b) && Joined(E, x, u) && Joined(E, u, x);
      var v :| (v == a || v == b) && Joined(E, y, v) && Joined(E, v, y);
      JoinedStep(E, u, v);
      JoinedTrans(E, x, u, v);
      JoinedTrans(E, x, v, y);
    }
  }

  /** Whoever changed company in the union was joined to one of its arguments before. */
  lemma Attached(s: Store, a: ArtifactId, b: ArtifactId, uuid: GroupId, x: ArtifactId, y: ArtifactId)
    requires a != b && uuid !in s.births && s.groups == s.members.Values && s.groups <= s.births.Keys
    requires GroupsJoined(s)
    requires SameGroup(UnionSpec(s, a, b, uuid), x, y) && !SameGroup(s, x, y)
    ensures exists u :: (u == a || u == b) && Joined(StrongPairs(s.edges), x, u) && Joined(StrongPairs(s.edges), u, x)
  {
    var E := StrongPairs(s.edges);
    if x in s.members { assert s.members[x] in s.members.Values; }
    if y in s.members { assert s.members[y] in s.members.Values; }
    JoinedStep(E, x, x);
    var u := if x == a || SameGroup(s, x, a) then a else b;
    assert x == u || SameGroup(s, x, u);
    assert Joined(E, x, u) && Joined(E, u, x) by {
      if x != u { assert SameGroup(s, u, x); }
    }
  }

  /** A component keeps the smallest id ever issued inside it. */
  lemma UnionKeepsBirths(s: Store, a: ArtifactId, b: ArtifactId, uuid: GroupId)
    requires a != b && uuid !in s.births && s.groups == s.members.Values && s.groups <= s.births.Keys
    requires forall g :: g in s.births ==> s.births[g] in s.members && s.members[s.births[g]] <= g
    requires forall g :: g in s.groups ==> s.members[s.births[g]] == g
    ensures var s' := UnionSpec(s, a, b, uuid);
            && (forall g :: g in s'.births ==> s'.births[g] in s'.members && s'.members[s'.births[g]] <= g)
            && (forall g :: g in s'.groups ==> s'.members[s'.births[g]] == g)
  {
    var s' := UnionSpec(s, a, b, uuid);
    if a in s.members { assert s.members[a] in s.members.Values; }
    if b in s.members { assert s.members[b] in s.members.Values; }
    forall g | g in s'.births ensures s'.births[g] in s'.members && s'.members[s'.births[g]] <= g {
      if g in s.births { assert s.members[s.births[g]] <= g; }
    }
  }

  ghost function AddRow(s: Store, k: EdgeKey, score: real): Store {
    s.(edges := s.edges[k := score])
  }

  /** Peers survive any step that keeps companions together. */
  lemma PeersCarryOver(s: Store, s': Store, x: ArtifactId)
    requires HasPeer(s, x)
    requires forall y :: SameGroup(s, x, y) ==> SameGroup(s', x, y)
    ensures HasPeer(s', x)
  {
    var y :| y != x && SameGroup(s, x, y);
    assert SameGroup(s', x, y);
  }

  /** When nobody loses company, everybody who had a peer keeps one. */
  lemma AllPeersCarryOver(s: Store, s': Store)
    requires forall x :: x in s.members ==> HasPeer(s, x)
    requires forall x, y :: SameGroup(s, x, y) ==> SameGroup(s', x, y)
    ensures forall x :: x in s.members ==> HasPeer(s', x)
  {
    forall x | x in s.members ensures HasPeer(s', x) {
      PeersCarryOver(s, s', x);
    }
  }

  lemma RowKeepsPairsGrouped(s: Store, k: EdgeKey, score: real, x: ArtifactId, y: ArtifactId)
    requires EdgesGrouped(s)
    requires (x, y) in StrongPairs(s.edges[k := score])
    requires MergesGroups(k.etype) ==> (x, y) != (k.src, k.dst)
    ensures SameGroup(AddRow(s, k, score), x, y)
  {
    StrongPairsAfterRow(s.edges, k, score);
    assert (x, y) in StrongPairs(s.edges);
    assert SameGroup(s, x, y);
  }

  lemma RowKeepsSound(s: Store, k: EdgeKey, score: real)
    requires Sound(s) && k.src < k.dst
    ensures SoundExcept(AddRow(s, k, score), k.src, k.dst)
  {
    var s' := AddRow(s, k, score);
    hide HasPeer, StrongPairs, EdgesGrouped;
    AllPeersCarryOver(s, s');
    hide SameGroup;
    forall x, y | (x, y) in StrongPairs(s'.edges) && (x, y) != (k.src, k.dst) ensures SameGroup(s', x, y) {
      RowKeepsPairsGrouped(s, k, score, x, y);
    }
  }

  lemma WeakRowKeepsSound(s: Store, k: EdgeKey, score: real)
    requires Sound(s) && k.src < k.dst && !MergesGroups(k.etype)
    ensures Sound(AddRow(s, k, score))
  {
    var s' := AddRow(s, k, score);
    hide HasPeer, StrongPairs;
    AllPeersCarryOver(s, s');
    hide SameGroup;
    forall x, y | (x, y) in StrongPairs(s'.edges) ensures SameGroup(s', x, y) {
      RowKeepsPairsGrouped(s, k, score, x, y);
    }
  }

  lemma InsertKeepsSound(s: Store, a: ArtifactId, b: ArtifactId, t: EdgeType, score: real, uuid: GroupId)
    requires Sound(s) && uuid !in s.births
    ensures Sound(InsertSpec(s, a, b, t, score, uuid))
  {
    var k := Canonical(a, b, t);
    if a != b && k !in s.edges {
      hide Sound, SoundExcept, UnionSpec;
      if MergesGroups(t) {
        RowKeepsSound(s, k, score);
        UnionKeepsSound(AddRow(s, k, score), k.src, k.dst, uuid);
      } else {
        WeakRowKeepsSound(s, k, score);
      }
    }
  }

  ghost predicate GroupsJoined(s: Store) {
    forall x, y :: SameGroup(s, x, y) ==> Joined(StrongPairs(s.edges), x, y)
  }

  lemma RowKeepsJoined(s: Store, k: EdgeKey, score: real)
    requires GroupsJoined(s)
    ensures GroupsJoined(AddRow(s, k, score))
    ensures MergesGroups(k.etype) ==> (k.src, k.dst) in StrongPairs(AddRow(s, k, score).edges)
  {
    var s' := AddRow(s, k, score);
    StrongPairsAfterRow(s.edges, k, score);
    forall x, y | SameGroup(s', x, y) ensures Joined(StrongPairs(s'.edges), x, y) {
      assert SameGroup(s, x, y);
      JoinedGrows(StrongPairs(s.edges), StrongPairs(s'.edges), x, y);
    }
  }

  lemma InsertKeepsExact(s: Store, a: ArtifactId, b: ArtifactId, t: EdgeType, score: real, uuid: GroupId)
    requires Exact(s) && uuid !in s.births
    ensures Exact(InsertSpec(s, a, b, t, score, uuid))
  {
    InsertKeepsSound(s, a, b, t, score, uuid);
    var k := Canonical(a, b, t);
    if a != b && k !in s.edges {
      var s' := AddRow(s, k, score);
      RowKeepsJoined(s, k, score);
      if MergesGroups(t) {
        UnionKeepsBirths(s', k.src, k.dst, uuid);
        UnionKeepsGroupsJoined(s', k.src, k.dst, uuid);
      }
    }
  }

  lemma UnionKeepsGroupsJoined(s: Store, a: ArtifactId, b: ArtifactId, uuid: GroupId)
    requires a < b && uuid !in s.births && s.groups == s.members.Values && s.groups <= s.births.Keys
    requires (a, b) in StrongPairs(s.edges) && GroupsJoined(s)
    ensures GroupsJoined(UnionSpec(s, a, b, uuid))
  {
    var s' := UnionSpec(s, a, b, uuid);
    assert s'.edges == s.edges;
    forall x, y | SameGroup(s', x, y) ensures Joined(StrongPairs(s'.edges), x, y) {
      UnionKeepsJoined(s, a, b, uuid, x, y);
    }
  }

  // ---------------------------------------------------------------- one cleanup

  /** Every strong edge that survives the removal of `a` still has both ends in one group, even
      when the group is dissolved under a single left-over member. */
  lemma PurgeStrandsNoEdge(s: Store, a: ArtifactId)
    requires Sound(s)
    ensures EdgesGrouped(PurgeSpec(s, a))
  {
    hide HasPeer, PurgeSpec, SameGroup, StrongPairs;
    forall x, y | (x, y) in StrongPairs(PurgeSpec(s, a).edges) ensures SameGroup(PurgeSpec(s, a), x, y) {
      SurvivingPair(s, a, x, y);
      assert SameGroup(s, x, y);
      PurgeKeepsTogether(s, a, x, y);
    }
  }

  lemma SurvivingPair(s: Store, a: ArtifactId, x: ArtifactId, y: ArtifactId)
    requires (forall k :: k in s.edges ==> k.src < k.dst) && (x, y) in StrongPairs(PurgeSpec(s, a).edges)
    ensures (x, y) in StrongPairs(s.edges) && x != y && x != a && y != a
  {
    hide RepairSpec;
    PurgeEdges(s, a);
    var k :| k in PurgeSpec(s, a).edges && MergesGroups(k.etype) && (k.src, k.dst) == (x, y);
    assert k in s.edges && !Touches(k, a);
  }

  lemma PurgeEdges(s: Store, a: ArtifactId)
    ensures PurgeSpec(s, a).edges == s.edges - IncidentEdges(s, a)
  {
  }

  /** Two that stay keep their group, since two are enough for one. */
  lemma PurgeKeepsTogether(s: Store, a: ArtifactId, x: ArtifactId, y: ArtifactId)
    requires SameGroup(s, x, y) && x != y && x != a && y != a
    ensures SameGroup(PurgeSpec(s, a), x, y)
  {
    if a in s.members && s.members[x] == s.members[a] {
      CardinalityMonotone({x, y}, MembersOf(s.members - {a}, s.members[a]));
    }
  }

  lemma PurgeKeepsSound(s: Store, a: ArtifactId)
    requires Sound(s)
    ensures Sound(PurgeSpec(s, a))
  {
    hide PurgeSpec, HasPeer, SameGroup, StrongPairs, EdgesGrouped;
    PurgeFrame(s, a);
    PurgeStrandsNoEdge(s, a);
    if a in s.members {
      PurgeKeepsPeers(s, a);
      PurgeKeepsGroupRows(s, a);
    } else {
      PurgeOutsider(s, a);
    }
  }

  lemma CleanupKeepsSound(s: Store, a: ArtifactId, dryRun: bool)
    requires Sound(s)
    ensures Sound(CleanupSpec(s, a, dryRun))
  {
    hide Sound, PurgeSpec;
    PurgeKeepsSound(s, a);
  }

  lemma PurgeFrame(s: Store, a: ArtifactId)
    ensures var s' := PurgeSpec(s, a);
            s'.edges.Keys <= s.edges.Keys && s'.births == s.births && s'.groups <= s.groups
  {
  }

  lemma PurgeOutsider(s: Store, a: ArtifactId)
    requires Sound(s) && a !in s.members
    ensures PurgeSpec(s, a).members == s.members && PurgeSpec(s, a).groups == s.groups
    ensures forall x :: x in s.members ==> HasPeer(PurgeSpec(s, a), x)
  {
    assert s.members - {a} == s.members;
    forall x | x in s.members ensures HasPeer(PurgeSpec(s, a), x) {
      PeersCarryOver(s, PurgeSpec(s, a), x);
    }
  }

  lemma {:induction false} CardinalityMonotone<T>(x: set<T>, y: set<T>)
    requires x <= y
    ensures |x| <= |y|
  {
    assert y == x + (y - x);
  }

  /** A set with two elements or more has a second one. */
  lemma Another(s: set<ArtifactId>, x: ArtifactId) returns (y: ArtifactId)
    requires |s| > 1
    ensures y in s && y != x
  {
    if s <= {x} { CardinalityMonotone(s, {x}); }
    y :| y in s && y != x;
  }

  lemma PurgeKeepsPeers(s: Store, a: ArtifactId)
    requires Sound(s) && a in s.members
    ensures forall x :: x in PurgeSpec(s, a).members ==> HasPeer(PurgeSpec(s, a), x)
  {
    var s'' := PurgeSpec(s, a);
    var g := s.members[a];
    forall x | x in s''.members ensures HasPeer(s'', x) {
      assert HasPeer(s, x);
      var y :| y != x && SameGroup(s, x, y);
      if s.members[x] == g {
        var z := Another(MembersOf(s.members - {a}, g), x);
        assert SameGroup(s'', x, z);
      } else {
        assert SameGroup(s'', x, y);
      }
    }
  }

  lemma PurgeKeepsGroupRows(s: Store, a: ArtifactId)
    requires Sound(s) && a in s.members
    ensures PurgeSpec(s, a).groups == PurgeSpec(s, a).members.Values
  {
    var s'' := PurgeSpec(s, a);
    var g := s.members[a];
    forall h | h in s''.groups ensures h in s''.members.Values {
      var x :| x in s.members && s.members[x] == h;
      if h == g {
        var z := Another(MembersOf(s.members - {a}, g), a);
        assert z in s''.members && s''.members[z] == h;
      } else {
        assert x in s''.members && s''.members[x] == h;
      }
    }
    forall h | h in s''.members.Values ensures h in s''.groups {
      var x :| x in s''.members && s''.members[x] == h;
      assert s.members[x] in s.members.Values;
    }
  }

  // ---------------------------------------------------------------- runs

  /** `uuid` is the id the operation would draw if it had to found a group. */
  datatype Op =
    | Insert(a: ArtifactId, b: ArtifactId, etype: EdgeType, score: real, uuid: GroupId)
    | Cleanup(artifact: ArtifactId, dryRun: bool)

  ghost function Apply(s: Store, op: Op): Store {
    match op
    case Insert(a, b, t, score, uuid) => InsertSpec(s, a, b, t, score, uuid)
    case Cleanup(a, dryRun) => CleanupSpec(s, a, dryRun)
  }

  ghost function Run(held: set<ArtifactId>, ops: seq<Op>): Store {
    if ops == [] then Store(map[], {}, map[], held, map[])
    else Apply(Run(held, ops[..|ops| - 1]), ops[|ops| - 1])
  }

  /** UUIDs are never drawn twice. */
  ghost predicate FreshIds(ops: seq<Op>) {
    forall i, j :: 0 <= i < j < |ops| && ops[i].Insert? && ops[j].Insert? ==> ops[i].uuid != ops[j].uuid
  }

  lemma {:induction false} BirthsComeFromRun(held: set<ArtifactId>, ops: seq<Op>)
    ensures forall g :: g in Run(held, ops).births ==> exists i :: 0 <= i < |ops| && ops[i].Insert? && ops[i].uuid == g
  {
    if ops != [] {
      var init, last := ops[..|ops| - 1], ops[|ops| - 1];
      BirthsComeFromRun(held, init);
      forall g | g in Run(held, ops).births
        ensures exists i :: 0 <= i < |ops| && ops[i].Insert? && ops[i].uuid == g
      {
        if g in Run(held, init).births {
          var i :| 0 <= i < |init| && init[i].Insert? && init[i].uuid == g;
          assert ops[i] == init[i];
        } else {
          assert ops[|ops| - 1].uuid == g;
        }
      }
    }
  }

  lemma NextIdIsUnused(held: set<ArtifactId>, ops: seq<Op>)
    requires FreshIds(ops) && ops != [] && ops[|ops| - 1].Insert?
    ensures ops[|ops| - 1].uuid !in Run(held, ops[..|ops| - 1]).births
  {
    BirthsComeFromRun(held, ops[..|ops| - 1]);
  }

  /** Whatever mix of inserts and cleanups has happened, in any order. */
  lemma {:induction false} EveryRunIsSound(held: set<ArtifactId>, ops: seq<Op>)
    requires FreshIds(ops)
    ensures Sound(Run(held, ops))
  {
    if ops != [] {
      var s, last := Run(held, ops[..|ops| - 1]), ops[|ops| - 1];
      EveryRunIsSound(held, ops[..|ops| - 1]);
      match last
      case Insert(a, b, t, score, uuid) =>
        NextIdIsUnused(held, ops);
        InsertKeepsSound(s, a, b, t, score, uuid);
      case Cleanup(a, dryRun) => CleanupKeepsSound(s, a, dryRun);
    }
  }

  lemma {:induction false} InsertRunIsExact(held: set<ArtifactId>, ops: seq<Op>)
    requires FreshIds(ops) && forall i :: 0 <= i < |ops| ==> ops[i].Insert?
    ensures Exact(Run(held, ops))
  {
    if ops != [] {
      var s, last := Run(held, ops[..|ops| - 1]), ops[|ops| - 1];
      InsertRunIsExact(held, ops[..|ops| - 1]);
      NextIdIsUnused(held, ops);
      InsertKeepsExact(s, last.a, last.b, last.etype, last.score, last.uuid);
    }
  }

  // ---------------------------------------------------------------- main results

  /** Inserts alone: two artifacts share a group exactly when strong edges join them. */
  lemma GroupsAreComponents(held: set<ArtifactId>, ops: seq<Op>, x: ArtifactId, y: ArtifactId)
    requires FreshIds(ops) && forall i :: 0 <= i < |ops| ==> ops[i].Insert?
    requires x != y
    ensures SameGroup(Run(held, ops), x, y) <==> Joined(StrongPairs(Run(held, ops).edges), x, y)
  {
    var s := Run(held, ops);
    InsertRunIsExact(held, ops);
    if Joined(StrongPairs(s.edges), x, y) {
      var p :| IsPath(StrongPairs(s.edges), p, x, y);
      LabelConstantOnPath(s, p, x, y);
    }
  }

  /** Inserts alone: the id in use is the least of those issued in the component. */
  lemma ComponentKeepsSmallestId(held: set<ArtifactId>, ops: seq<Op>, g: GroupId, h: GroupId)
    requires FreshIds(ops) && forall i :: 0 <= i < |ops| ==> ops[i].Insert?
    requires g in Run(held, ops).groups && h in Run(held, ops).births
    requires Run(held, ops).births[h] in Run(held, ops).members
    requires Run(held, ops).members[Run(held, ops).births[h]] == g
    ensures g <= h && g in Run(held, ops).births
    ensures Run(held, ops).births[g] in Run(held, ops).members
    ensures Run(held, ops).members[Run(held, ops).births[g]] == g
  {
    InsertRunIsExact(held, ops);
  }

  /** The pairs an insert-only run leaves behind: those it was asked to store. */
  lemma {:induction false} RunStoresItsPairs(held: set<ArtifactId>, ops: seq<Op>)
    requires forall i :: 0 <= i < |ops| ==> ops[i].Insert?
    ensures StrongPairs(Run(held, ops).edges) == RequestedPairs(ops)
  {
    if ops != [] {
      var init, last := ops[..|ops| - 1], ops[|ops| - 1];
      var s := Run(held, init);
      RunStoresItsPairs(held, init);
      var k := Canonical(last.a, last.b, last.etype);
      if last.a != last.b {
        if k in s.edges {
          assert MergesGroups(last.etype) ==> (k.src, k.dst) in StrongPairs(s.edges);
        } else {
          StrongPairsAfterRow(s.edges, k, last.score);
          assert Run(held, ops).edges == s.edges[k := last.score];
        }
      }
    }
  }

  ghost function RequestedPairs(ops: seq<Op>): set<(ArtifactId, ArtifactId)> {
    if ops == [] then {} else RequestedPairs(ops[..|ops| - 1]) + RequestedPair(ops[|ops| - 1])
  }

  ghost function RequestedPair(op: Op): set<(ArtifactId, ArtifactId)> {
    if op.Insert? && op.a != op.b && MergesGroups(op.etype)
    then {if op.a < op.b then (op.a, op.b) else (op.b, op.a)}
    else {}
  }

  /** The partition depends on which strong pairs were inserted, not on their order, their
      repetition or the weak edges between them. */
  lemma PartitionIgnoresOrder(held: set<ArtifactId>, ops: seq<Op>, ops': seq<Op>, x: ArtifactId, y: ArtifactId)
    requires FreshIds(ops) && forall i :: 0 <= i < |ops| ==> ops[i].Insert?
    requires FreshIds(ops') && forall i :: 0 <= i < |ops'| ==> ops'[i].Insert?
    requires RequestedPairs(ops) == RequestedPairs(ops')
    requires x != y
    ensures SameGroup(Run(held, ops), x, y) <==> SameGroup(Run(held, ops'), x, y)
  {
    GroupsAreComponents(held, ops, x, y);
    GroupsAreComponents(held, ops', x, y);
    RunStoresItsPairs(held, ops);
    RunStoresItsPairs(held, ops');
  }

  /** With cleanups only one direction survives: a group is not split when the artifact that
      held it together goes. */
  lemma CleanupLeavesUnsplitGroup()
    ensures var ops := [Insert(1, 2, ExactCopy, 1.0, 10), Insert(2, 3, ExactCopy, 1.0, 11), Cleanup(2, false)];
            var s := Run({}, ops);
            SameGroup(s, 1, 3) && !Joined(StrongPairs(s.edges), 1, 3)
  {
    var ops := [Insert(1, 2, ExactCopy, 1.0, 10), Insert(2, 3, ExactCopy, 1.0, 11), Cleanup(2, false)];
    assert ops[..3] == ops && ops[..3][..2] == ops[..2] && ops[..2][..1] == ops[..1] && ops[..1][..0] == [];
    var s0, s1, s2 := Run({}, []), Run({}, ops[..1]), Run({}, ops[..2]);
    assert ops[2] == Cleanup(2, false) && s1 == Apply(s0, ops[0]) && s2 == Apply(s1, ops[1]) && Run({}, ops) == Apply(s2, ops[2]);
    hide Run;
    TwoInserts(s0);
    TwoInsertsThenPurge(s2);
    NothingJoins(1, 3);
  }

  lemma TwoInserts(s0: Store)
    requires s0 == Store(map[], {}, map[], {}, map[])
    ensures var s2 := InsertSpec(InsertSpec(s0, 1, 2, ExactCopy, 1.0, 10), 2, 3, ExactCopy, 1.0, 11);
            && s2.members == map[1 := 10, 2 := 10, 3 := 10] && s2.held == {}
            && s2.edges == map[EdgeKey(1, 2, ExactCopy) := 1.0, EdgeKey(2, 3, ExactCopy) := 1.0]
  {
    var s1 := InsertSpec(s0, 1, 2, ExactCopy, 1.0, 10);
    assert s1.members == map[1 := 10, 2 := 10] && s1.edges == map[EdgeKey(1, 2, ExactCopy) := 1.0];
  }

  lemma TwoInsertsThenPurge(s2: Store)
    requires s2.members == map[1 := 10, 2 := 10, 3 := 10] && s2.held == {}
    requires s2.edges == map[EdgeKey(1, 2, ExactCopy) := 1.0, EdgeKey(2, 3, ExactCopy) := 1.0]
    ensures var s := CleanupSpec(s2, 2, false);
            SameGroup(s, 1, 3) && StrongPairs(s.edges) == {}
  {
    assert MembersOf(s2.members - {2}, 10) == {1, 3};
    var s := PurgeSpec(s2, 2);
    assert s.members == map[1 := 10, 3 := 10];
    assert s.edges == map[];
  }

  lemma NothingJoins(x: ArtifactId, y: ArtifactId)
    requires x != y
    ensures !Joined({}, x, y)
  {
    forall p ensures !IsPath({}, p, x, y) {
      if |p| > 1 { assert !Adjacent({}, p[0], p[1]); }
    }
  }
}
