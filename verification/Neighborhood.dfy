/** The bounded neighbourhood query (similarity/neighborhood.rs): a capped breadth-first walk
    over the stored similarity edges of one tenant, then sorting and paging. */
module Neighborhood {
  import opened Options
  import opened SimilarityModel
  import StableSort

  type Id = nat

  const MAX_DEPTH: nat := 4
  const MAX_NODES: nat := 256
  const MAX_EDGES: nat := 1024

  /** Digests and model versions are modelled by their order. */
  datatype Artifact = Artifact(sha: nat, artifactClass: nat)

  datatype EdgeRow = EdgeRow(src: Id, dst: Id, etype: EdgeType, model: nat, score: real)

  datatype EdgeKey = EdgeKey(src: Id, dst: Id, etype: EdgeType)

  /** `edges` lists the rows in any order. */
  datatype Db = Db(artifacts: map<Id, Artifact>, edges: seq<EdgeRow>)

  /** A machine word. */
  const WORD: nat := 0x1_0000_0000_0000_0000

  type Size = n: nat | n < WORD

  datatype Query = Query(
    seed: Id,
    edgeTypes: seq<EdgeType>,
    model: nat,
    minScore: real,
    maxDepth: nat,
    maxNodes: nat,
    maxEdges: nat,
    offset: Size,
    limit: Size,
    includeWeak: bool)

  datatype Node = Node(id: Id, sha: nat, artifactClass: nat, depth: nat)

  datatype Response = Response(nodes: seq<Node>, edges: seq<EdgeRow>, truncated: bool)

  /** `Panicked` is a slice whose end lies before its start. */
  datatype QueryError = NotFound | Panicked

  function Clamp(x: nat, hi: nat): nat {
    if x < 1 then 1 else if x > hi then hi else x
  }

  function Depth(q: Query): nat {
    if q.maxDepth < MAX_DEPTH then q.maxDepth else MAX_DEPTH
  }

  function NodeCap(q: Query): nat {
    Clamp(q.maxNodes, MAX_NODES)
  }

  function EdgeCap(q: Query): nat {
    Clamp(q.maxEdges, MAX_EDGES)
  }

  function KeyOf(r: EdgeRow): EdgeKey {
    EdgeKey(r.src, r.dst, r.etype)
  }

  /** The table's primary key and check, and its foreign keys for the model in question. */
  ghost predicate Valid(db: Db, q: Query) {
    && (forall r :: r in db.edges ==> r.src < r.dst)
    && (forall r, r' :: r in db.edges && r' in db.edges && r.model == r'.model && r.src == r'.src && r.dst == r'.dst && r.etype == r'.etype ==> r == r')
  }

  // ---------------------------------------------------------------- the filtered graph

  predicate Passes(db: Db, q: Query, r: EdgeRow) {
    && r.src in db.artifacts && r.dst in db.artifacts
    && r.model == q.model
    && r.score >= q.minScore
    && (q.edgeTypes == [] || r.etype in q.edgeTypes)
    && (q.includeWeak || !IsWeakLead(r.etype))
  }

  predicate Touches(r: EdgeRow, u: Id) {
    r.src == u || r.dst == u
  }

  function Other(r: EdgeRow, u: Id): Id {
    if r.src == u then r.dst else r.src
  }

  /** A filtered edge between `u` and something else. */
  ghost predicate Links(db: Db, q: Query, r: EdgeRow, u: Id) {
    r in db.edges && Passes(db, q, r) && Touches(r, u)
  }

  ghost function Neighbors(db: Db, q: Query, u: Id): set<Id> {
    set r | r in db.edges && Passes(db, q, r) && Touches(r, u) :: Other(r, u)
  }

  /** What can be reached from the seed in at most `n` steps. */
  ghost function Ball(db: Db, q: Query, n: nat): set<Id> {
    if n == 0 then {q.seed}
    else Ball(db, q, n - 1) + set u, w | u in Ball(db, q, n - 1) && w in Neighbors(db, q, u) :: w
  }

  ghost predicate AtDistance(db: Db, q: Query, u: Id, d: nat) {
    u in Ball(db, q, d) && (d > 0 ==> u !in Ball(db, q, d - 1))
  }

  /** A filtered edge with an end strictly closer than the depth bound. */
  ghost predicate InRange(db: Db, q: Query, r: EdgeRow) {
    Depth(q) > 0 && exists u :: u in Ball(db, q, Depth(q) - 1) && Links(db, q, r, u)
  }

  // ---------------------------------------------------------------- loading neighbours

  /** Rank of the type name in alphabetical order. */
  function TypeRank(t: EdgeType): nat {
    match t
    case ByteSimilar => 0
    case ExactCopy => 1
    case NormalizedEquivalent => 2
    case SemanticStrong => 3
    case SemanticWeak => 4
    case SharedProvenance => 5
  }

  /** `ORDER BY score DESC, edge_type, src_artifact, dst_artifact`. */
  function RowOrder(): (EdgeRow, EdgeRow) -> bool {
    (x: EdgeRow, y: EdgeRow) =>
      x.score > y.score
      || (x.score == y.score
          && (TypeRank(x.etype) < TypeRank(y.etype)
              || (TypeRank(x.etype) == TypeRank(y.etype)
                  && (x.src < y.src || (x.src == y.src && x.dst <= y.dst)))))
  }

  lemma RowOrderIsPreorder()
    ensures StableSort.TotalPreorder(RowOrder())
  {
  }

  /** The filtered edges at a node, best first. */
  method LoadNeighbors(db: Db, q: Query, u: Id) returns (out: seq<EdgeRow>)
    ensures forall r :: r in out <==> Links(db, q, r, u)
    ensures StableSort.Sorted(RowOrder(), out)
    ensures forall i, j :: 0 <= i < j < |out| ==> RowBefore(out[i], out[j])
    ensures forall r :: multiset(out)[r] == if Links(db, q, r, u) then multiset(db.edges)[r] else 0
  {
    out := [];
    for k := 0 to |db.edges|
      invariant forall r :: r in out <==> r in db.edges[..k] && Passes(db, q, r) && Touches(r, u)
      invariant forall r :: multiset(out)[r] == if Passes(db, q, r) && Touches(r, u) then multiset(db.edges[..k])[r] else 0
    {
      var r := db.edges[k];
      assert db.edges[..k + 1] == db.edges[..k] + [r];
      if Touches(r, u) && Passes(db, q, r) { out := out + [r]; }
    }
    assert db.edges[..|db.edges|] == db.edges;
    RowOrderIsPreorder();
    StableSort.SortIsSortedPermutation(RowOrder(), out);
    forall r ensures r in StableSort.Sort(RowOrder(), out) <==> r in out { StableSort.SortKeepsMembers(RowOrder(), out, r); }
    out := StableSort.Sort(RowOrder(), out);
    forall i, j | 0 <= i < j < |out| ensures RowBefore(out[i], out[j]) { RowsAreBefore(out[i], out[j]); }
  }

  // ---------------------------------------------------------------- the walk

  /** The mutable variables of the walk. */
  datatype Walk = Walk(
    frontier: seq<(Id, nat)>,
    visited: set<Id>,
    nodes: map<Id, nat>,
    edges: seq<EdgeRow>,
    seen: set<EdgeKey>,
    truncated: bool)

  ghost function Waiting(s: Walk): set<Id> {
    set e | e in s.frontier :: e.0
  }

  /** Node and edge bookkeeping. */
  ghost predicate Bookkeeping(db: Db, q: Query, s: Walk) {
    && s.visited == s.nodes.Keys
    && q.seed in s.nodes && |s.nodes| <= NodeCap(q) && |s.edges| <= EdgeCap(q)
    && (forall u :: u in s.nodes ==> AtDistance(db, q, u, s.nodes[u]) && s.nodes[u] <= Depth(q) && u in db.artifacts)
    && (forall r :: r in s.edges ==> InRange(db, q, r) && KeyOf(r) in s.seen)
    && StableSort.Distinct(s.edges)
  }

  /** The queue holds discovered nodes in order of depth, `lo` first, spanning two depths. */
  ghost predicate Queue(s: Walk, lo: nat) {
    && (forall e :: e in s.frontier ==> e.0 in s.nodes && s.nodes[e.0] == e.1 && lo <= e.1 <= lo + 1)
    && (forall i, j :: 0 <= i < j < |s.frontier| ==> s.frontier[i].1 <= s.frontier[j].1)
  }

  /** The neighbourhood of a finished node has been taken in, as far as the caps allow. */
  ghost predicate Finished(db: Db, q: Query, s: Walk, u: Id) {
    forall r :: Links(db, q, r, u) ==> Handled(q, s, r, u)
  }

  ghost predicate Handled(q: Query, s: Walk, r: EdgeRow, u: Id) {
    && KeyOf(r) in s.seen
    && (Other(r, u) in s.nodes || (s.truncated && |s.nodes| == NodeCap(q)))
  }

  /** Every edge seen was kept, unless the edge cap cut it off. */
  ghost predicate SeenKept(db: Db, q: Query, s: Walk) {
    forall r :: r in db.edges && Passes(db, q, r) && KeyOf(r) in s.seen ==> r in s.edges || (s.truncated && |s.edges| == EdgeCap(q))
  }

  ghost predicate LostNode(db: Db, q: Query, s: Walk, w: Id) {
    w in Ball(db, q, Depth(q)) && w !in s.nodes && |s.nodes| == NodeCap(q)
  }

  ghost predicate LostEdge(db: Db, q: Query, s: Walk, r: EdgeRow) {
    InRange(db, q, r) && KeyOf(r) in s.seen && r !in s.edges
  }

  ghost predicate Truncation(db: Db, q: Query, s: Walk) {
    s.truncated ==> (exists w :: LostNode(db, q, s, w)) || (exists r :: LostEdge(db, q, s, r))
  }

  /** All of it; `busy` nodes are not finished yet. */
  ghost predicate Invariant(db: Db, q: Query, s: Walk, busy: set<Id>) {
    && Bookkeeping(db, q, s)
    && (forall u :: u in s.nodes && u !in busy && s.nodes[u] < Depth(q) ==> Finished(db, q, s, u))
    && SeenKept(db, q, s)
    && Truncation(db, q, s)
  }

  lemma SeedIsFound(db: Db, q: Query, s: Walk, busy: set<Id>)
    requires Invariant(db, q, s, busy)
    ensures q.seed in s.nodes
  {
    hide AtDistance, Finished, SeenKept, Truncation;
  }

  /** With every node nearer than `k` finished and no node turned away, the ball is covered. */
  lemma {:induction false} BallIsCovered(db: Db, q: Query, s: Walk, busy: set<Id>, k: nat)
    requires Invariant(db, q, s, busy) && k <= Depth(q)
    requires forall u :: u in s.nodes && s.nodes[u] < k ==> u !in busy
    requires !s.truncated || |s.nodes| < NodeCap(q)
    ensures Ball(db, q, k) <= s.nodes.Keys
  {
    hide Invariant, Neighbors;
    if k == 0 {
      SeedIsFound(db, q, s, busy);
    } else {
      BallIsCovered(db, q, s, busy, k - 1);
      forall w | w in Ball(db, q, k) && w !in Ball(db, q, k - 1) ensures w in s.nodes {
        var u :| u in Ball(db, q, k - 1) && w in Neighbors(db, q, u);
        NearIsFinished(db, q, s, busy, k, u);
        NeighborIsFound(db, q, s, u, w);
      }
    }
  }

  lemma NearIsFinished(db: Db, q: Query, s: Walk, busy: set<Id>, k: nat, u: Id)
    requires Invariant(db, q, s, busy) && 0 < k <= Depth(q)
    requires forall v :: v in s.nodes && s.nodes[v] < k ==> v !in busy
    requires u in s.nodes && u in Ball(db, q, k - 1)
    ensures Finished(db, q, s, u)
  {
    hide SeenKept, Truncation, Ball, Finished, AtDistance;
    assert AtDistance(db, q, u, s.nodes[u]);
    DistanceIsLeast(db, q, u, s.nodes[u], k - 1);
  }

  lemma NeighborIsFound(db: Db, q: Query, s: Walk, u: Id, w: Id)
    requires Finished(db, q, s, u) && w in Neighbors(db, q, u)
    requires !s.truncated || |s.nodes| < NodeCap(q)
    ensures w in s.nodes
  {
    hide Passes;
    var r :| r in db.edges && Passes(db, q, r) && Touches(r, u) && Other(r, u) == w;
    assert Links(db, q, r, u) && Handled(q, s, r, u);
  }

  lemma {:induction false} BallGrows(db: Db, q: Query, m: nat, n: nat)
    requires m <= n
    ensures Ball(db, q, m) <= Ball(db, q, n)
    decreases n
  {
    if m < n { BallGrows(db, q, m, n - 1); }
  }

  lemma DistanceIsLeast(db: Db, q: Query, u: Id, d: nat, n: nat)
    requires AtDistance(db, q, u, d) && u in Ball(db, q, n)
    ensures d <= n
  {
    hide Ball;
    if n < d { BallGrows(db, q, n, d - 1); }
  }

  // ---------------------------------------------------------------- one neighbour

  /** `if seen_edge_keys.insert(key) { .. }` */
  function TakeEdge(q: Query, s: Walk, r: EdgeRow): Walk {
    if KeyOf(r) in s.seen then s
    else if |s.edges| < EdgeCap(q) then s.(seen := s.seen + {KeyOf(r)}, edges := s.edges + [r])
    else s.(seen := s.seen + {KeyOf(r)}, truncated := true)
  }

  /** `if !visited.contains(&other_id) { .. }` */
  function TakeNode(q: Query, s: Walk, w: Id, d: nat): Walk {
    if w in s.visited then s
    else if |s.nodes| < NodeCap(q) then
      s.(visited := s.visited + {w}, nodes := s.nodes[w := d], frontier := s.frontier + [(w, d)])
    else s.(truncated := true)
  }

  ghost predicate Later(s: Walk, s': Walk) {
    && s.seen <= s'.seen
    && (s.truncated ==> s'.truncated)
    && s.nodes.Keys <= s'.nodes.Keys
    && |s.nodes| <= |s'.nodes|
  }

  lemma HandledStays(q: Query, s: Walk, s': Walk, r: EdgeRow, u: Id)
    requires Handled(q, s, r, u) && Later(s, s') && |s'.nodes| <= NodeCap(q)
    ensures Handled(q, s', r, u)
  {
  }

  lemma FinishedStays(db: Db, q: Query, s: Walk, s': Walk, u: Id)
    requires Finished(db, q, s, u) && Later(s, s') && |s'.nodes| <= NodeCap(q)
    ensures Finished(db, q, s', u)
  {
    forall r | Links(db, q, r, u) ensures Handled(q, s', r, u) {
      HandledStays(q, s, s', r, u);
    }
  }

  lemma EdgeInRange(db: Db, q: Query, s: Walk, r: EdgeRow, u: Id)
    requires Bookkeeping(db, q, s) && u in s.nodes && s.nodes[u] < Depth(q) && Links(db, q, r, u)
    ensures InRange(db, q, r)
  {
    hide Bookkeeping, Ball, AtDistance, Links, Depth;
    StandsInBall(db, q, s, u);
    BallGrows(db, q, s.nodes[u], Depth(q) - 1);
    assert u in Ball(db, q, Depth(q) - 1);
  }

  lemma StandsInBall(db: Db, q: Query, s: Walk, u: Id)
    requires Bookkeeping(db, q, s) && u in s.nodes
    ensures u in Ball(db, q, s.nodes[u])
  {
    hide Ball;
    assert AtDistance(db, q, u, s.nodes[u]);
  }

  lemma TakeEdgeKeeps(db: Db, q: Query, s: Walk, busy: set<Id>, r: EdgeRow, u: Id)
    requires Valid(db, q) && Invariant(db, q, s, busy)
    requires u in s.nodes && s.nodes[u] < Depth(q) && Links(db, q, r, u)
    ensures var s' := TakeEdge(q, s, r);
            Invariant(db, q, s', busy) && KeyOf(r) in s'.seen && Later(s, s')
  {
    var s' := TakeEdge(q, s, r);
    EdgeInRange(db, q, s, r, u);
    if KeyOf(r) !in s.seen {
      forall v | v in s'.nodes && v !in busy && s'.nodes[v] < Depth(q) ensures Finished(db, q, s', v) {
        FinishedStays(db, q, s, s', v);
      }
      assert r !in s.edges;
      if s.truncated {
        if w :| LostNode(db, q, s, w) {
          assert LostNode(db, q, s', w);
        } else {
          var r' :| LostEdge(db, q, s, r');
          assert LostEdge(db, q, s', r');
        }
      } else if s'.truncated {
        assert LostEdge(db, q, s', r);
      }
      assert SeenKept(db, q, s');
    }
  }

  lemma NewNodeDistance(db: Db, q: Query, s: Walk, busy: set<Id>, cur: Id, r: EdgeRow)
    requires Invariant(db, q, s, busy) && cur in s.nodes && s.nodes[cur] < Depth(q) && Links(db, q, r, cur)
    requires forall u :: u in s.nodes && s.nodes[u] < s.nodes[cur] ==> u !in busy
    requires Other(r, cur) !in s.nodes
    ensures Other(r, cur) in Ball(db, q, s.nodes[cur] + 1)
    ensures |s.nodes| < NodeCap(q) ==> AtDistance(db, q, Other(r, cur), s.nodes[cur] + 1)
  {
    assert Other(r, cur) in Neighbors(db, q, cur);
    if |s.nodes| < NodeCap(q) {
      BallIsCovered(db, q, s, busy, s.nodes[cur]);
    }
  }

  function Admit(s: Walk, w: Id, d: nat): Walk {
    s.(visited := s.visited + {w}, nodes := s.nodes[w := d], frontier := s.frontier + [(w, d)])
  }

  lemma AdmitKeepsQueue(s: Walk, w: Id, d: nat)
    requires Queue(s, d) && w !in s.nodes
    ensures Queue(Admit(s, w, d + 1), d)
    ensures Waiting(Admit(s, w, d + 1)) == Waiting(s) + {w}
  {
    var s' := Admit(s, w, d + 1);
    assert s'.frontier[|s.frontier|] == (w, d + 1);
    forall e | e in s.frontier ensures e in s'.frontier {}
    forall e | e in s'.frontier ensures e in s.frontier || e == (w, d + 1) {}
  }

  lemma AdmitKeeps(db: Db, q: Query, s: Walk, busy: set<Id>, w: Id, d: nat)
    requires Invariant(db, q, s, busy) && w !in s.nodes && |s.nodes| < NodeCap(q)
    requires AtDistance(db, q, w, d) && d <= Depth(q) && w in db.artifacts
    ensures Invariant(db, q, Admit(s, w, d), busy + {w})
  {
    var s' := Admit(s, w, d);
    assert s'.nodes.Keys == s.nodes.Keys + {w};
    forall v | v in s'.nodes && v !in busy + {w} && s'.nodes[v] < Depth(q) ensures Finished(db, q, s', v) {
      FinishedStays(db, q, s, s', v);
    }
    if s.truncated {
      assert forall w :: !LostNode(db, q, s, w);
      var r' :| LostEdge(db, q, s, r');
      assert LostEdge(db, q, s', r');
    }
  }

  lemma TurnAwayKeeps(db: Db, q: Query, s: Walk, busy: set<Id>, w: Id)
    requires Invariant(db, q, s, busy) && w in Ball(db, q, Depth(q)) && w !in s.nodes && |s.nodes| >= NodeCap(q)
    ensures Invariant(db, q, s.(truncated := true), busy)
  {
    var s' := s.(truncated := true);
    assert LostNode(db, q, s', w);
    forall v | v in s'.nodes && v !in busy && s'.nodes[v] < Depth(q) ensures Finished(db, q, s', v) {
      FinishedStays(db, q, s, s', v);
    }
  }

  /** What the inner loop keeps while it works on `cur` at depth `d`. */
  ghost predicate Expanding(db: Db, q: Query, s: Walk, cur: Id, d: nat) {
    && Invariant(db, q, s, Waiting(s) + {cur})
    && Queue(s, d)
    && cur in s.nodes && s.nodes[cur] == d < Depth(q)
  }

  ghost predicate Grew(s: Walk, s': Walk) {
    |s'.nodes| > |s.nodes| || (s'.nodes == s.nodes && s'.frontier == s.frontier)
  }

  lemma NotNearerAreDone(s: Walk, cur: Id, d: nat)
    requires Queue(s, d) && cur in s.nodes && s.nodes[cur] == d
    ensures forall u :: u in s.nodes && s.nodes[u] < d ==> u !in Waiting(s) + {cur}
  {
  }

  lemma NeighborDistance(db: Db, q: Query, s: Walk, cur: Id, d: nat, r: EdgeRow)
    requires Expanding(db, q, s, cur, d) && Links(db, q, r, cur) && Other(r, cur) !in s.nodes
    ensures Other(r, cur) in db.artifacts && Other(r, cur) in Ball(db, q, Depth(q))
    ensures |s.nodes| < NodeCap(q) ==> AtDistance(db, q, Other(r, cur), d + 1)
  {
    NotNearerAreDone(s, cur, d);
    NewNodeDistance(db, q, s, Waiting(s) + {cur}, cur, r);
    BallGrows(db, q, d + 1, Depth(q));
  }

  lemma AdmitNeighbor(db: Db, q: Query, s: Walk, cur: Id, d: nat, r: EdgeRow)
    requires Expanding(db, q, s, cur, d) && Links(db, q, r, cur) && KeyOf(r) in s.seen
    requires Other(r, cur) !in s.nodes && |s.nodes| < NodeCap(q)
    ensures var s' := Admit(s, Other(r, cur), d + 1);
            Expanding(db, q, s', cur, d) && Handled(q, s', r, cur) && Later(s, s') && Grew(s, s')
  {
    hide Invariant, Ball, AtDistance, Queue, Links, Waiting;
    var w := Other(r, cur);
    NeighborDistance(db, q, s, cur, d, r);
    AdmitKeepsQueue(s, w, d);
    AdmitKeeps(db, q, s, Waiting(s) + {cur}, w, d + 1);
    assert Waiting(s) + {cur} + {w} == Waiting(s) + {w} + {cur};
  }

  lemma TurnAwayNeighbor(db: Db, q: Query, s: Walk, cur: Id, d: nat, r: EdgeRow)
    requires Expanding(db, q, s, cur, d) && Links(db, q, r, cur) && KeyOf(r) in s.seen
    requires Other(r, cur) !in s.nodes && |s.nodes| == NodeCap(q)
    ensures var s' := s.(truncated := true);
            Expanding(db, q, s', cur, d) && Handled(q, s', r, cur) && Later(s, s') && Grew(s, s')
  {
    hide Invariant, Ball, AtDistance, Links;
    NeighborDistance(db, q, s, cur, d, r);
    TurnAwayKeeps(db, q, s, Waiting(s) + {cur}, Other(r, cur));
    assert Waiting(s.(truncated := true)) == Waiting(s);
  }

  lemma TakeNodeKeeps(db: Db, q: Query, s: Walk, cur: Id, d: nat, r: EdgeRow)
    requires Expanding(db, q, s, cur, d) && Links(db, q, r, cur) && KeyOf(r) in s.seen
    ensures var s' := TakeNode(q, s, Other(r, cur), d + 1);
            Expanding(db, q, s', cur, d) && Handled(q, s', r, cur) && Later(s, s') && Grew(s, s')
  {
    hide Finished, SeenKept, Truncation, Ball, AtDistance, Queue, Waiting;
    if Other(r, cur) !in s.visited {
      if |s.nodes| < NodeCap(q) { AdmitNeighbor(db, q, s, cur, d, r); } else { TurnAwayNeighbor(db, q, s, cur, d, r); }
    }
  }

  function TakeNeighbor(q: Query, s: Walk, r: EdgeRow, cur: Id, d: nat): Walk {
    TakeNode(q, TakeEdge(q, s, r), Other(r, cur), d + 1)
  }

  lemma TakeNeighborKeeps(db: Db, q: Query, s: Walk, cur: Id, d: nat, r: EdgeRow)
    requires Valid(db, q) && Expanding(db, q, s, cur, d) && Links(db, q, r, cur)
    ensures var s' := TakeNeighbor(q, s, r, cur, d);
            && Expanding(db, q, s', cur, d) && Handled(q, s', r, cur) && Later(s, s') && Grew(s, s')
            && |s'.nodes| <= NodeCap(q)
  {
    hide Expanding, Handled, Links, TakeEdge, TakeNode, Valid;
    TakeEdgeExpands(db, q, s, cur, d, r);
    TakeNodeKeeps(db, q, TakeEdge(q, s, r), cur, d, r);
    ExpandingKeepsCap(db, q, TakeNeighbor(q, s, r, cur, d), cur, d);
  }

  lemma TakeEdgeExpands(db: Db, q: Query, s: Walk, cur: Id, d: nat, r: EdgeRow)
    requires Valid(db, q) && Expanding(db, q, s, cur, d) && Links(db, q, r, cur)
    ensures var s1 := TakeEdge(q, s, r);
            && Expanding(db, q, s1, cur, d) && KeyOf(r) in s1.seen && Later(s, s1)
            && s1.nodes == s.nodes && s1.frontier == s.frontier
  {
    hide Invariant, Links, Valid;
    TakeEdgeKeeps(db, q, s, Waiting(s) + {cur}, r, cur);
  }

  lemma ExpandingKeepsCap(db: Db, q: Query, s: Walk, cur: Id, d: nat)
    requires Expanding(db, q, s, cur, d)
    ensures |s.nodes| <= NodeCap(q)
  {
    hide Finished, SeenKept, Truncation, Queue, AtDistance;
  }

  // ---------------------------------------------------------------- the loops

  /** The inner loop: everything next to `cur`, which stands at depth `d`. */
  method Expand(db: Db, q: Query, s0: Walk, cur: Id, d: nat) returns (s: Walk)
    requires Valid(db, q) && Expanding(db, q, s0, cur, d)
    ensures Expanding(db, q, s, cur, d) && Finished(db, q, s, cur) && Grew(s0, s)
  {
    hide Invariant, Queue, Waiting;
    s := s0;
    var neighbors := LoadNeighbors(db, q, cur);
    for k := 0 to |neighbors|
      invariant Expanding(db, q, s, cur, d) && Grew(s0, s)
      invariant forall i :: 0 <= i < k ==> Handled(q, s, neighbors[i], cur)
    {
      var r := neighbors[k];
      assert Links(db, q, r, cur);
      TakeNeighborKeeps(db, q, s, cur, d, r);
      var s' := TakeNeighbor(q, s, r, cur, d);
      forall i | 0 <= i < k ensures Handled(q, s', neighbors[i], cur) {
        HandledStays(q, s, s', neighbors[i], cur);
      }
      s := s';
    }
    forall r | Links(db, q, r, cur) ensures Handled(q, s, r, cur) {
      assert r in neighbors;
    }
  }

  function Pop(s: Walk): Walk
    requires s.frontier != []
  {
    s.(frontier := s.frontier[1..])
  }

  ghost predicate AtLoopHead(db: Db, q: Query, s: Walk) {
    && Invariant(db, q, s, Waiting(s))
    && (s.frontier != [] ==> Queue(s, s.frontier[0].1))
  }

  lemma PopKeeps(db: Db, q: Query, s: Walk)
    requires AtLoopHead(db, q, s) && s.frontier != []
    ensures var (cur, d) := s.frontier[0];
            && (d < Depth(q) ==> Expanding(db, q, Pop(s), cur, d))
            && (d >= Depth(q) ==> AtLoopHead(db, q, Pop(s)))
  {
    var (cur, d) := s.frontier[0];
    var s' := Pop(s);
    PoppedQueue(s);
    FrontierIsIrrelevant(db, q, s, s', Waiting(s));
    if d >= Depth(q) {
      DeepNodesNeedNoWork(db, q, s', Waiting(s'), cur);
      hide Invariant, Waiting;
      if s'.frontier != [] { QueueRestarts(s', d); }
    }
  }

  lemma PoppedQueue(s: Walk)
    requires s.frontier != [] && Queue(s, s.frontier[0].1)
    ensures var (cur, d) := s.frontier[0];
            Queue(Pop(s), d) && Waiting(s) == Waiting(Pop(s)) + {cur} && cur in s.nodes && s.nodes[cur] == d
  {
    var s' := Pop(s);
    assert s.frontier[0] in s.frontier;
    assert s.frontier == [s.frontier[0]] + s'.frontier;
    assert forall e :: e in s'.frontier ==> e in s.frontier;
  }

  lemma DeepNodesNeedNoWork(db: Db, q: Query, s: Walk, busy: set<Id>, cur: Id)
    requires Invariant(db, q, s, busy + {cur}) && cur in s.nodes && s.nodes[cur] >= Depth(q)
    ensures Invariant(db, q, s, busy)
  {
  }

  lemma FrontierIsIrrelevant(db: Db, q: Query, s: Walk, s': Walk, busy: set<Id>)
    requires Invariant(db, q, s, busy) && s' == s.(frontier := s'.frontier)
    ensures Invariant(db, q, s', busy)
  {
    forall u | Finished(db, q, s, u) ensures Finished(db, q, s', u) {
      FinishedStays(db, q, s, s', u);
    }
    if s.truncated {
      if w :| LostNode(db, q, s, w) {
        assert LostNode(db, q, s', w);
      } else {
        var r :| LostEdge(db, q, s, r);
        assert LostEdge(db, q, s', r);
      }
    }
  }

  lemma QueueRestarts(s: Walk, lo: nat)
    requires Queue(s, lo) && s.frontier != []
    ensures Queue(s, s.frontier[0].1)
  {
    assert s.frontier[0] in s.frontier;
    forall e | e in s.frontier ensures s.frontier[0].1 <= e.1 <= s.frontier[0].1 + 1 {
      var i :| 0 <= i < |s.frontier| && s.frontier[i] == e;
    }
  }

  lemma ExpandedKeeps(db: Db, q: Query, s: Walk, cur: Id, d: nat)
    requires Expanding(db, q, s, cur, d) && Finished(db, q, s, cur)
    ensures AtLoopHead(db, q, s) && Invariant(db, q, s, Waiting(s))
  {
    if s.frontier != [] { QueueRestarts(s, d); }
  }

  ghost predicate Omitted(db: Db, q: Query, s: Walk) {
    || (exists w :: w in Ball(db, q, Depth(q)) && w !in s.nodes)
    || (exists r :: InRange(db, q, r) && r !in s.edges)
  }

  lemma NothingOmitted(db: Db, q: Query, s: Walk)
    requires Invariant(db, q, s, {}) && !s.truncated
    ensures !Omitted(db, q, s)
  {
    hide Invariant, Ball, Links, Depth;
    BallIsCovered(db, q, s, {}, Depth(q));
    forall r | InRange(db, q, r) ensures r in s.edges {
      var u :| u in Ball(db, q, Depth(q) - 1) && Links(db, q, r, u);
      BallGrows(db, q, Depth(q) - 1, Depth(q));
      NearIsFinished(db, q, s, {}, Depth(q), u);
      EdgeIsKept(db, q, s, {}, r, u);
    }
  }

  lemma EdgeIsKept(db: Db, q: Query, s: Walk, busy: set<Id>, r: EdgeRow, u: Id)
    requires Invariant(db, q, s, busy) && !s.truncated && Finished(db, q, s, u) && Links(db, q, r, u)
    ensures r in s.edges
  {
    hide Bookkeeping, Truncation, Passes;
    assert Handled(q, s, r, u);
  }

  lemma StartIsAtLoopHead(db: Db, q: Query, s: Walk)
    requires q.seed in db.artifacts && s == Walk([(q.seed, 0)], {q.seed}, map[q.seed := 0], [], {}, false)
    ensures AtLoopHead(db, q, s)
  {
    assert Waiting(s) == {q.seed} by { assert s.frontier[0] in s.frontier; }
  }

  lemma FlagIsExact(db: Db, q: Query, s: Walk)
    requires Invariant(db, q, s, Waiting(s)) && (s.frontier == [] || s.truncated)
    ensures Bookkeeping(db, q, s)
    ensures s.truncated <==> Omitted(db, q, s)
  {
    if s.truncated {
      if w :| LostNode(db, q, s, w) {
        assert w in Ball(db, q, Depth(q)) && w !in s.nodes;
      } else {
        var r :| LostEdge(db, q, s, r);
        assert InRange(db, q, r) && r !in s.edges;
      }
    } else {
      assert Waiting(s) == {};
      NothingOmitted(db, q, s);
    }
  }

  /** Only a full list leaves something out: below the node cap all near nodes are there, and
      below both caps all edges in range. */
  ghost predicate CapsExplain(db: Db, q: Query, s: Walk) {
    |s.nodes| < NodeCap(q) ==>
      && Ball(db, q, Depth(q)) <= s.nodes.Keys
      && (|s.edges| < EdgeCap(q) ==> forall r :: InRange(db, q, r) ==> r in s.edges)
  }

  lemma OnlyCapsOmit(db: Db, q: Query, s: Walk)
    requires Invariant(db, q, s, Waiting(s)) && (s.frontier == [] || |s.nodes| >= NodeCap(q))
    ensures CapsExplain(db, q, s)
  {
    hide Invariant, Ball, Links, Depth;
    if |s.nodes| < NodeCap(q) {
      assert Waiting(s) == {};
      BallIsCovered(db, q, s, {}, Depth(q));
      forall r | InRange(db, q, r) ensures r in s.edges || |s.edges| >= EdgeCap(q) {
        var u :| u in Ball(db, q, Depth(q) - 1) && Links(db, q, r, u);
        BallGrows(db, q, Depth(q) - 1, Depth(q));
        NearIsFinished(db, q, s, {}, Depth(q), u);
        HandledIsKept(db, q, s, {}, r, u);
      }
    }
  }

  lemma HandledIsKept(db: Db, q: Query, s: Walk, busy: set<Id>, r: EdgeRow, u: Id)
    requires Invariant(db, q, s, busy) && Finished(db, q, s, u) && Links(db, q, r, u)
    ensures r in s.edges || |s.edges| >= EdgeCap(q)
  {
    hide Bookkeeping, Truncation, Passes;
    assert Handled(q, s, r, u);
  }

  method Traverse(db: Db, q: Query) returns (s: Walk)
    requires Valid(db, q) && q.seed in db.artifacts
    ensures Bookkeeping(db, q, s)
    ensures s.truncated <==> Omitted(db, q, s)
    ensures CapsExplain(db, q, s)
  {
    s := Walk([(q.seed, 0)], {q.seed}, map[q.seed := 0], [], {}, false);
    StartIsAtLoopHead(db, q, s);
    hide Invariant, Queue, Waiting, CapsExplain;
    while |s.frontier| > 0
      invariant AtLoopHead(db, q, s)
      decreases NodeCap(q) - |s.nodes|, |s.frontier|
    {
      var (cur, d) := s.frontier[0];
      PopKeeps(db, q, s);
      s := Pop(s);
      if d < Depth(q) {
        s := Expand(db, q, s, cur, d);
        ExpandedKeeps(db, q, s, cur, d);
        if s.truncated && |s.nodes| >= NodeCap(q) && |s.edges| >= EdgeCap(q) {
          FlagIsExact(db, q, s);
          OnlyCapsOmit(db, q, s);
          return;
        }
      }
    }
    FlagIsExact(db, q, s);
    OnlyCapsOmit(db, q, s);
  }

  // ---------------------------------------------------------------- sorting and paging

  /** Depth, then digest, then id. */
  function NodeOrder(): (Node, Node) -> bool {
    (x: Node, y: Node) =>
      || x.depth < y.depth
      || (x.depth == y.depth && (x.sha < y.sha || (x.sha == y.sha && x.id <= y.id)))
  }

  function ShaOf(db: Db, u: Id): nat {
    if u in db.artifacts then db.artifacts[u].sha else 0
  }

  /** Score descending, then type, then the two digests. */
  function EdgeOrder(db: Db): (EdgeRow, EdgeRow) -> bool {
    (x: EdgeRow, y: EdgeRow) =>
      || x.score > y.score
      || (x.score == y.score
          && (|| TypeRank(x.etype) < TypeRank(y.etype)
              || (x.etype == y.etype
                  && (|| ShaOf(db, x.src) < ShaOf(db, y.src)
                      || (ShaOf(db, x.src) == ShaOf(db, y.src) && ShaOf(db, x.dst) <= ShaOf(db, y.dst))))))
  }

  function Page<T>(s: seq<T>, offset: nat, limit: nat): seq<T> {
    var end := if offset + limit < |s| then offset + limit else |s|;
    if offset < |s| then s[offset..end] else []
  }

  /** The page as computed: the end of the slice wraps. */
  function CutPage<T>(s: seq<T>, offset: Size, limit: Size): Result<seq<T>, QueryError> {
    var sum := (offset + limit) % WORD;
    var end := if sum < |s| then sum else |s|;
    if offset < |s| then (if offset <= end then Ok(s[offset..end]) else Err(Panicked)) else Ok([])
  }

  /** It is the page that was asked for, unless the sum wraps and there is something to slice. */
  lemma CutPageIsExact<T>(s: seq<T>, offset: Size, limit: Size)
    ensures CutPage(s, offset, limit) == if offset < |s| && offset + limit >= WORD then Err(Panicked) else Ok(Page(s, offset, limit))
  {
    if offset + limit >= WORD {
      assert (offset + limit) % WORD == offset + limit - WORD;
    }
  }

  ghost function Pages<T>(s: seq<T>, limit: nat, n: nat): seq<T> {
    if n == 0 then [] else Pages(s, limit, n - 1) + Page(s, (n - 1) * limit, limit)
  }

  /** Consecutive pages tile the list: the first `n` make up its first `n * limit` entries. */
  lemma {:induction false} PagesTile<T>(s: seq<T>, limit: nat, n: nat)
    ensures Pages(s, limit, n) == s[..if n * limit < |s| then n * limit else |s|]
  {
    if n > 0 {
      PagesTile(s, limit, n - 1);
      assert n * limit == (n - 1) * limit + limit;
    }
  }

  method CollectNodes(db: Db, nodes: map<Id, nat>) returns (out: seq<Node>)
    requires nodes.Keys <= db.artifacts.Keys
    ensures |out| == |nodes| && StableSort.Distinct(out)
    ensures forall n :: n in out <==> n.id in nodes && n == Node(n.id, db.artifacts[n.id].sha, db.artifacts[n.id].artifactClass, nodes[n.id])
  {
    out := [];
    var left := nodes.Keys;
    while left != {}
      invariant left <= nodes.Keys && |out| + |left| == |nodes.Keys| && StableSort.Distinct(out)
      invariant forall n :: n in out <==> n.id in nodes && n.id !in left && n == Node(n.id, db.artifacts[n.id].sha, db.artifacts[n.id].artifactClass, nodes[n.id])
      decreases |left|
    {
      var u :| u in left;
      out := out + [Node(u, db.artifacts[u].sha, db.artifacts[u].artifactClass, nodes[u])];
      left := left - {u};
    }
  }

  lemma OrdersAreTotal(db: Db)
    ensures StableSort.TotalPreorder(NodeOrder())
    ensures StableSort.TotalPreorder(EdgeOrder(db))
  {
    assert forall t, t' :: TypeRank(t) == TypeRank(t') ==> t == t';
  }

  // ---------------------------------------------------------------- distance means walks

  ghost predicate IsWalk(db: Db, q: Query, p: seq<Id>, u: Id) {
    && |p| > 0 && p[0] == q.seed && p[|p| - 1] == u
    && forall i :: 0 <= i < |p| - 1 ==> p[i + 1] in Neighbors(db, q, p[i])
  }

  /** The balls the distances are measured with are made of walks along filtered edges. */
  lemma {:induction false} BallIsMadeOfWalks(db: Db, q: Query, n: nat, u: Id)
    ensures u in Ball(db, q, n) <==> exists p :: IsWalk(db, q, p, u) && |p| <= n + 1
  {
    if u in Ball(db, q, n) {
      var p := WalkTo(db, q, n, u);
    }
    if p :| IsWalk(db, q, p, u) && |p| <= n + 1 {
      WalkStaysInBall(db, q, p, u);
      BallGrows(db, q, |p| - 1, n);
    }
  }

  lemma {:induction false} WalkTo(db: Db, q: Query, n: nat, u: Id) returns (p: seq<Id>)
    requires u in Ball(db, q, n)
    ensures IsWalk(db, q, p, u) && |p| <= n + 1
  {
    if n == 0 {
      p := [u];
    } else if u in Ball(db, q, n - 1) {
      p := WalkTo(db, q, n - 1, u);
    } else {
      var v :| v in Ball(db, q, n - 1) && u in Neighbors(db, q, v);
      p := WalkTo(db, q, n - 1, v);
      p := p + [u];
    }
  }

  lemma {:induction false} WalkStaysInBall(db: Db, q: Query, p: seq<Id>, u: Id)
    requires IsWalk(db, q, p, u)
    ensures u in Ball(db, q, |p| - 1)
  {
    if |p| > 1 {
      var v := p[|p| - 2];
      assert p[|p| - 2 + 1] in Neighbors(db, q, v);
      WalkStaysInBall(db, q, p[..|p| - 1], v);
    }
  }

  // ---------------------------------------------------------------- the answer in terms of rows

  /** What a row must be to be followed or returned. */
  ghost predicate Usable(db: Db, q: Query, r: EdgeRow) {
    && r in db.edges && r.src in db.artifacts && r.dst in db.artifacts
    && r.model == q.model && r.score >= q.minScore
    && (q.edgeTypes == [] || r.etype in q.edgeTypes)
    && (q.includeWeak || (r.etype != ByteSimilar && r.etype != SharedProvenance && r.etype != SemanticWeak))
  }

  /** A row that leads from one end to the other, whichever way round it is stored. */
  ghost predicate Linked(db: Db, q: Query, x: Id, y: Id) {
    exists r :: Usable(db, q, r) && ((r.src == x && r.dst == y) || (r.src == y && r.dst == x))
  }

  ghost predicate Chain(db: Db, q: Query, p: seq<Id>, u: Id) {
    && |p| > 0 && p[0] == q.seed && p[|p| - 1] == u
    && forall i :: 0 <= i < |p| - 1 ==> Linked(db, q, p[i], p[i + 1])
  }

  /** A chain of at most `n` rows leads here from the seed. */
  ghost predicate Within(db: Db, q: Query, u: Id, n: nat) {
    exists p :: Chain(db, q, p, u) && |p| <= n + 1
  }

  /** A usable row with an end nearer than both depth bounds. */
  ghost predicate NearRow(db: Db, q: Query, r: EdgeRow) {
    && Usable(db, q, r) && q.maxDepth > 0
    && ((Within(db, q, r.src, q.maxDepth - 1) && Within(db, q, r.src, 3)) || (Within(db, q, r.dst, q.maxDepth - 1) && Within(db, q, r.dst, 3)))
  }

  lemma NeighborsAreLinked(db: Db, q: Query, u: Id, w: Id)
    ensures w in Neighbors(db, q, u) <==> Linked(db, q, u, w)
  {
    if w in Neighbors(db, q, u) {
      var r :| r in db.edges && Passes(db, q, r) && Touches(r, u) && Other(r, u) == w;
      assert Usable(db, q, r);
    }
    if Linked(db, q, u, w) {
      var r :| Usable(db, q, r) && ((r.src == u && r.dst == w) || (r.src == w && r.dst == u));
      assert Passes(db, q, r) && Touches(r, u) && Other(r, u) == w;
    }
  }

  /** The balls of the search, in terms of rows. */
  lemma BallIsMadeOfRows(db: Db, q: Query, n: nat, u: Id)
    ensures u in Ball(db, q, n) <==> Within(db, q, u, n)
  {
    BallIsMadeOfWalks(db, q, n, u);
    hide Ball, Neighbors, Linked;
    forall x, y ensures y in Neighbors(db, q, x) <==> Linked(db, q, x, y) { NeighborsAreLinked(db, q, x, y); }
    if p :| IsWalk(db, q, p, u) && |p| <= n + 1 { assert Chain(db, q, p, u); }
    if p :| Chain(db, q, p, u) && |p| <= n + 1 { assert IsWalk(db, q, p, u); }
  }

  lemma WithinGrows(db: Db, q: Query, u: Id, m: nat, n: nat)
    requires Within(db, q, u, m) && m <= n
    ensures Within(db, q, u, n)
  {
  }

  /** Being at a distance is being within it and no nearer. */
  lemma DistanceInRows(db: Db, q: Query, u: Id, d: nat)
    ensures AtDistance(db, q, u, d) <==> Within(db, q, u, d) && (d > 0 ==> !Within(db, q, u, d - 1))
  {
    BallIsMadeOfRows(db, q, d, u);
    if d > 0 { BallIsMadeOfRows(db, q, d - 1, u); }
    hide Ball, Within;
  }

  /** The depth bound of the search is the lesser of the one asked for and four. */
  lemma DepthInRows(db: Db, q: Query, u: Id)
    ensures u in Ball(db, q, Depth(q)) <==> Within(db, q, u, q.maxDepth) && Within(db, q, u, 4)
  {
    BallIsMadeOfRows(db, q, Depth(q), u);
    hide Ball, Chain;
    if Within(db, q, u, Depth(q)) {
      WithinGrows(db, q, u, Depth(q), q.maxDepth);
      WithinGrows(db, q, u, Depth(q), 4);
    }
  }

  lemma RangeInRows(db: Db, q: Query, r: EdgeRow)
    ensures InRange(db, q, r) <==> NearRow(db, q, r)
  {
    hide Ball, Within;
    if Depth(q) > 0 {
      NearEnd(db, q, r.src);
      NearEnd(db, q, r.dst);
    }
    if NearRow(db, q, r) {
      assert Links(db, q, r, r.src) && Links(db, q, r, r.dst);
    }
  }

  lemma NearEnd(db: Db, q: Query, u: Id)
    requires Depth(q) > 0
    ensures u in Ball(db, q, Depth(q) - 1) <==> Within(db, q, u, q.maxDepth - 1) && Within(db, q, u, 3)
  {
    BallIsMadeOfRows(db, q, Depth(q) - 1, u);
    hide Ball, Chain;
    if Within(db, q, u, Depth(q) - 1) {
      WithinGrows(db, q, u, Depth(q) - 1, q.maxDepth - 1);
      WithinGrows(db, q, u, Depth(q) - 1, 3);
    }
  }

  // ---------------------------------------------------------------- the query

  ghost predicate Lists(nodes: seq<Node>, u: Id) {
    exists n :: n in nodes && n.id == u
  }

  ghost predicate Unlisted(nodes: seq<Node>, u: Id) {
    forall n :: n in nodes ==> n.id != u
  }

  /** Nearest first, then by digest, then by id: no two alike. */
  ghost predicate NodesInOrder(nodes: seq<Node>) {
    forall i, j :: 0 <= i < j < |nodes| ==>
      || nodes[i].depth < nodes[j].depth
      || (nodes[i].depth == nodes[j].depth
          && (nodes[i].sha < nodes[j].sha || (nodes[i].sha == nodes[j].sha && nodes[i].id < nodes[j].id)))
  }

  lemma OrderOfNodes(nodes: seq<Node>)
    requires StableSort.Sorted(NodeOrder(), nodes)
    requires forall i, j :: 0 <= i < j < |nodes| ==> nodes[i].id != nodes[j].id
    ensures NodesInOrder(nodes)
  {
    forall i, j | 0 <= i < j < |nodes|
      ensures nodes[i].depth < nodes[j].depth
           || (nodes[i].depth == nodes[j].depth
               && (nodes[i].sha < nodes[j].sha || (nodes[i].sha == nodes[j].sha && nodes[i].id < nodes[j].id)))
    {
      assert NodeOrder()(nodes[i], nodes[j]);
    }
  }

  /** The name of an edge type, as stored. */
  function TypeName(t: EdgeType): string {
    match t
    case ByteSimilar => "byte_similar"
    case ExactCopy => "exact_copy"
    case NormalizedEquivalent => "normalized_equivalent"
    case SemanticStrong => "semantic_variant_strong"
    case SemanticWeak => "semantic_variant_weak"
    case SharedProvenance => "shared_provenance"
  }

  predicate Alphabetical(s: string, t: string) {
    if s == [] then true
    else t != [] && (s[0] < t[0] || (s[0] == t[0] && Alphabetical(s[1..], t[1..])))
  }

  /** Score descending, then the name of the type, then the digests of the two ends. */
  ghost predicate EdgeBefore(db: Db, x: EdgeRow, y: EdgeRow) {
    && x.src in db.artifacts && x.dst in db.artifacts && y.src in db.artifacts && y.dst in db.artifacts
    && (|| x.score > y.score
        || (x.score == y.score
            && (|| (x.etype != y.etype && Alphabetical(TypeName(x.etype), TypeName(y.etype)))
                || (x.etype == y.etype
                    && (|| db.artifacts[x.src].sha < db.artifacts[y.src].sha
                        || (db.artifacts[x.src].sha == db.artifacts[y.src].sha && db.artifacts[x.dst].sha <= db.artifacts[y.dst].sha))))))
  }

  ghost predicate EdgesInOrder(db: Db, edges: seq<EdgeRow>) {
    forall i, j :: 0 <= i < j < |edges| ==> EdgeBefore(db, edges[i], edges[j])
  }

  /** Two texts are ordered by the first character in which they differ. */
  lemma {:induction false} FirstDifference(s: string, t: string, n: nat)
    requires n < |s| && n < |t| && s[..n] == t[..n] && s[n] != t[n]
    ensures Alphabetical(s, t) <==> s[n] < t[n]
  {
    if n > 0 {
      assert s[0] == s[..n][0] == t[..n][0] == t[0];
      assert s[1..][..n - 1] == s[..n][1..] && t[1..][..n - 1] == t[..n][1..];
      FirstDifference(s[1..], t[1..], n - 1);
    }
  }

  lemma {:induction false} AlphabeticalItself(s: string)
    ensures Alphabetical(s, s)
  {
    if s != [] { AlphabeticalItself(s[1..]); }
  }

  lemma StrongBeforeWeak()
    ensures var x, y := TypeName(SemanticStrong), TypeName(SemanticWeak);
            Alphabetical(x, y) && !Alphabetical(y, x)
  {
    var x, y := TypeName(SemanticStrong), TypeName(SemanticWeak);
    assert x[..17] == y[..17] == "semantic_variant_";
    hide Alphabetical;
    FirstDifference(x, y, 17);
    FirstDifference(y, x, 17);
  }

  predicate Semantic(t: EdgeType) {
    t.SemanticStrong? || t.SemanticWeak?
  }

  /** Where two names differ first, unless both are semantic. */
  lemma NamesDiffer(s: EdgeType, t: EdgeType)
    requires s != t && !(Semantic(s) && Semantic(t))
    ensures var x, y := TypeName(s), TypeName(t);
            && |x| > 1 && |y| > 1
            && (x[0] != y[0] || x[1] != y[1])
            && (TypeRank(s) <= TypeRank(t) <==> x[0] < y[0] || (x[0] == y[0] && x[1] < y[1]))
  {
  }

  /** The ranks of the types are the alphabetical order of their names. */
  lemma TypesInAlphabet(s: EdgeType, t: EdgeType)
    ensures TypeRank(s) <= TypeRank(t) <==> Alphabetical(TypeName(s), TypeName(t))
    ensures TypeRank(s) == TypeRank(t) <==> s == t
  {
    hide Alphabetical, TypeName;
    var x, y := TypeName(s), TypeName(t);
    if s == t {
      AlphabeticalItself(x);
    } else if Semantic(s) && Semantic(t) {
      StrongBeforeWeak();
    } else {
      NamesDiffer(s, t);
      FirstDifference(x, y, if x[0] != y[0] then 0 else 1);
    }
  }

  /** Score descending, then the name of the type, then the two ends. */
  ghost predicate RowBefore(x: EdgeRow, y: EdgeRow) {
    || x.score > y.score
    || (x.score == y.score
        && (|| (x.etype != y.etype && Alphabetical(TypeName(x.etype), TypeName(y.etype)))
            || (x.etype == y.etype && (x.src < y.src || (x.src == y.src && x.dst <= y.dst)))))
  }

  lemma RowsAreBefore(x: EdgeRow, y: EdgeRow)
    ensures RowOrder()(x, y) <==> RowBefore(x, y)
  {
    hide TypeName, Alphabetical, TypeRank;
    TypesInAlphabet(x.etype, y.etype);
    TypesInAlphabet(y.etype, x.etype);
  }

  lemma OrderOfEdges(db: Db, q: Query, edges: seq<EdgeRow>)
    requires StableSort.Sorted(EdgeOrder(db), edges) && forall e :: e in edges ==> NearRow(db, q, e)
    ensures EdgesInOrder(db, edges)
  {
    hide Within, TypeName, Alphabetical, TypeRank;
    forall i, j | 0 <= i < j < |edges| ensures EdgeBefore(db, edges[i], edges[j]) {
      var x, y := edges[i], edges[j];
      assert x in edges && y in edges && Usable(db, q, x) && Usable(db, q, y);
      assert EdgeOrder(db)(x, y);
      TypesInAlphabet(x.etype, y.etype);
      TypesInAlphabet(y.etype, x.etype);
    }
  }

  lemma DepthIsBounded(q: Query)
    ensures Depth(q) <= q.maxDepth && Depth(q) <= 4
  {
  }

  /** The query in terms of the search. `all` is the complete sorted edge list of which one page
      is returned. */
  method Search(db: Db, q: Query) returns (r: Result<Response, QueryError>, ghost all: seq<EdgeRow>)
    requires Valid(db, q)
    ensures r == Err(NotFound) <==> q.seed !in db.artifacts
    ensures r == Err(Panicked) <==> q.seed in db.artifacts && q.offset < |all| && q.offset + q.limit >= WORD
    // the edges are filtered edges with an end nearer than the bound, each once
    ensures q.seed in db.artifacts ==>
      && |all| <= EdgeCap(q)
      && (forall e :: e in all ==> InRange(db, q, e))
      && StableSort.Distinct(all)
      && StableSort.Sorted(EdgeOrder(db), all)
    ensures r.Ok? ==>
      // every returned node stands at its exact distance, truncated or not
      && (forall n :: n in r.value.nodes ==>
            n.depth <= Depth(q) && AtDistance(db, q, n.id, n.depth)
            && n.id in db.artifacts && n.sha == db.artifacts[n.id].sha && n.artifactClass == db.artifacts[n.id].artifactClass)
      && 1 <= |r.value.nodes| <= NodeCap(q)
      // the seed is listed, and no node twice
      && Lists(r.value.nodes, q.seed)
      && (forall i, j :: 0 <= i < j < |r.value.nodes| ==> r.value.nodes[i].id != r.value.nodes[j].id)
      && StableSort.Sorted(NodeOrder(), r.value.nodes)
      && r.value.edges == Page(all, q.offset, q.limit)
      // the flag is exact
      && (r.value.truncated <==>
            || (exists w :: w in Ball(db, q, Depth(q)) && Unlisted(r.value.nodes, w))
            || (exists e :: InRange(db, q, e) && e !in all))
      // and only a full list leaves something out
      && (|r.value.nodes| < NodeCap(q) ==>
            && (forall w :: w in Ball(db, q, Depth(q)) ==> Lists(r.value.nodes, w))
            && (|all| < EdgeCap(q) ==> forall e :: InRange(db, q, e) ==> e in all))
  {
    hide Ball, AtDistance, InRange, Valid, StableSort.Distinct, Page, CutPage, NodeOrder, EdgeOrder, Omitted, Lists, Unlisted;
    all := [];
    if q.seed !in db.artifacts { return Err(NotFound), []; }
    var s := Traverse(db, q);
    var list := CollectNodes(db, s.nodes);
    SortKeepsNodes(db, s.nodes, list);
    var nodes := StableSort.Sort(NodeOrder(), list);
    SortKeepsEdges(db, s.edges);
    var edges := StableSort.Sort(EdgeOrder(db), s.edges);
    all := edges;
    CutPageIsExact(edges, q.offset, q.limit);
    var page := CutPage(edges, q.offset, q.limit);
    if page.Err? { return Err(Panicked), edges; }
    r := Ok(Response(nodes, page.value, s.truncated));
    FlagCarriesOver(db, q, s, nodes, edges);
  }

  lemma SortKeepsNodes(db: Db, nodes: map<Id, nat>, list: seq<Node>)
    requires nodes.Keys <= db.artifacts.Keys && StableSort.Distinct(list)
    requires forall n :: n in list <==> n.id in nodes && n == Node(n.id, db.artifacts[n.id].sha, db.artifacts[n.id].artifactClass, nodes[n.id])
    ensures var t := StableSort.Sort(NodeOrder(), list);
            && |t| == |list| && StableSort.Sorted(NodeOrder(), t)
            && (forall n :: n in t <==> n in list)
            && (forall u :: u in nodes <==> Lists(t, u))
            && (forall i, j :: 0 <= i < j < |t| ==> t[i].id != t[j].id)
  {
    OrdersAreTotal(db);
    StableSort.SortKeepsDistinct(NodeOrder(), list);
    StableSort.SortIsSortedPermutation(NodeOrder(), list);
    var t := StableSort.Sort(NodeOrder(), list);
    forall n ensures n in t <==> n in list {
      StableSort.SortKeepsMembers(NodeOrder(), list, n);
    }
    forall u | u in nodes ensures Lists(t, u) {
      assert Node(u, db.artifacts[u].sha, db.artifacts[u].artifactClass, nodes[u]) in t;
    }
  }

  /** What the walk omitted is what the response does not list. */
  lemma FlagCarriesOver(db: Db, q: Query, s: Walk, nodes: seq<Node>, edges: seq<EdgeRow>)
    requires forall u :: u in s.nodes <==> Lists(nodes, u)
    requires forall r :: r in edges <==> r in s.edges
    ensures Omitted(db, q, s) <==>
              || (exists w :: w in Ball(db, q, Depth(q)) && Unlisted(nodes, w))
              || (exists e :: InRange(db, q, e) && e !in edges)
  {
    hide Ball, InRange;
    forall w ensures w !in s.nodes <==> Unlisted(nodes, w) {
      assert w in s.nodes <==> Lists(nodes, w);
    }
    if r :| InRange(db, q, r) && r !in s.edges { assert r !in edges; }
    if r :| InRange(db, q, r) && r !in edges { assert r !in s.edges; }
    if w :| w in Ball(db, q, Depth(q)) && w !in s.nodes { assert Unlisted(nodes, w); }
    if w :| w in Ball(db, q, Depth(q)) && Unlisted(nodes, w) { assert w !in s.nodes; }
  }

  lemma SortKeepsEdges(db: Db, edges: seq<EdgeRow>)
    requires StableSort.Distinct(edges)
    ensures var t := StableSort.Sort(EdgeOrder(db), edges);
            && |t| == |edges| && StableSort.Sorted(EdgeOrder(db), t)
            && (forall r :: r in t <==> r in edges)
            && StableSort.Distinct(t)
  {
    var t := StableSort.Sort(EdgeOrder(db), edges);
    OrdersAreTotal(db);
    StableSort.SortIsSortedPermutation(EdgeOrder(db), edges);
    forall r ensures r in t <==> r in edges {
      StableSort.SortKeepsMembers(EdgeOrder(db), edges, r);
    }
    StableSort.SortKeepsDistinct(EdgeOrder(db), edges);
  }

  /** The whole query. `all` is the complete sorted edge list of which one page is returned. */
  method RunQuery(db: Db, q: Query) returns (r: Result<Response, QueryError>, ghost all: seq<EdgeRow>)
    requires Valid(db, q)
    ensures r == Err(NotFound) <==> q.seed !in db.artifacts
    ensures r == Err(Panicked) <==> q.seed in db.artifacts && q.offset < |all| && q.offset + q.limit >= WORD
    // usable rows with an end near enough, each once, best first
    ensures q.seed in db.artifacts ==>
      && |all| <= 1024 && (|all| <= q.maxEdges || |all| <= 1)
      && (forall e :: e in all ==> NearRow(db, q, e))
      && StableSort.Distinct(all)
      && EdgesInOrder(db, all)
    ensures r.Ok? ==>
      // every returned node stands at the length of its shortest chain, truncated or not
      && (forall n :: n in r.value.nodes ==>
            && Within(db, q, n.id, n.depth) && (n.depth > 0 ==> !Within(db, q, n.id, n.depth - 1))
            && n.depth <= q.maxDepth && n.depth <= 4
            && n.id in db.artifacts && n.sha == db.artifacts[n.id].sha && n.artifactClass == db.artifacts[n.id].artifactClass)
      && 1 <= |r.value.nodes| <= 256 && (|r.value.nodes| <= q.maxNodes || |r.value.nodes| == 1)
      && Lists(r.value.nodes, q.seed)
      && NodesInOrder(r.value.nodes)
      && r.value.edges == Page(all, q.offset, q.limit)
      // the flag is exact
      && (r.value.truncated <==>
            || (exists w :: Within(db, q, w, q.maxDepth) && Within(db, q, w, 4) && Unlisted(r.value.nodes, w))
            || (exists e :: NearRow(db, q, e) && e !in all))
      // and only a full list leaves something out
      && (|r.value.nodes| < 256 && |r.value.nodes| < q.maxNodes ==>
            && (forall w :: Within(db, q, w, q.maxDepth) && Within(db, q, w, 4) ==> Lists(r.value.nodes, w))
            && (|all| < 1024 && (|all| < q.maxEdges || all == []) ==> forall e :: NearRow(db, q, e) ==> e in all))
  {
    hide Ball, AtDistance, InRange, Within, NearRow, Valid, StableSort.Distinct, Page, Depth;
    r, all := Search(db, q);
    forall w ensures w in Ball(db, q, Depth(q)) <==> Within(db, q, w, q.maxDepth) && Within(db, q, w, 4) { DepthInRows(db, q, w); }
    forall e ensures InRange(db, q, e) <==> NearRow(db, q, e) { RangeInRows(db, q, e); }
    DepthIsBounded(q);
    if q.seed in db.artifacts { OrderOfEdges(db, q, all); }
    if r.Ok? {
      OrderOfNodes(r.value.nodes);
      forall n | n in r.value.nodes
        ensures Within(db, q, n.id, n.depth) && (n.depth > 0 ==> !Within(db, q, n.id, n.depth - 1))
      {
        DistanceInRows(db, q, n.id, n.depth);
      }
    }
  }
}
