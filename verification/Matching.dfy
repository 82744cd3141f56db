/** One-to-one greedy matching of two function lists (semantic/edges.rs).

    `CoverageWithTau` is keyed by list index, `RecomputePairs` (inside `function_pair_evidence`)
    by file offset. Scores are exact reals. */
module Matching {
  import Jaccard
  import opened Numbers
  import StableSort

  datatype FunctionRow = FunctionRow(offset: nat, tokens: seq<nat>)

  /** A scored pair; `left` and `right` are indices or offsets, depending on the copy. */
  datatype Pair = Pair(left: nat, right: nat, score: real)

  datatype Coverage = Coverage(
    aToB: real,
    bToA: real,
    matchedPairs: nat,
    topPairs: seq<Pair>,
    contestedA: seq<nat>,
    contestedB: seq<nat>,
    unmatchedA: seq<nat>,
    unmatchedB: seq<nat>)

  // ---------------------------------------------------------------- specification functions

  function PairOf(a: seq<FunctionRow>, b: seq<FunctionRow>, i: nat, j: nat): Pair
    requires i < |a| && j < |b|
  {
    Pair(i, j, Jaccard.Score(a[i].tokens, b[j].tokens))
  }

  /** The candidates met before reaching row `i`, column `j` of the nested scan. */
  function CandidatesUpTo(a: seq<FunctionRow>, b: seq<FunctionRow>, tau: real, i: nat, j: nat): seq<Pair>
    requires i <= |a| && j <= |b| && (i == |a| ==> j == 0)
    decreases i, j
  {
    if j > 0 then
      CandidatesUpTo(a, b, tau, i, j - 1)
      + (if PairOf(a, b, i, j - 1).score >= tau then [PairOf(a, b, i, j - 1)] else [])
    else if i > 0 then
      CandidatesUpTo(a, b, tau, i - 1, |b|)
    else
      []
  }

  function Candidates(a: seq<FunctionRow>, b: seq<FunctionRow>, tau: real): seq<Pair> {
    CandidatesUpTo(a, b, tau, |a|, 0)
  }

  function OffsetAt(rows: seq<FunctionRow>, i: nat): nat {
    if i < |rows| then rows[i].offset else 0
  }

  function AtOffsets(a: seq<FunctionRow>, b: seq<FunctionRow>, p: Pair): Pair {
    Pair(OffsetAt(a, p.left), OffsetAt(b, p.right), p.score)
  }

  function AllAtOffsets(a: seq<FunctionRow>, b: seq<FunctionRow>, ps: seq<Pair>): (r: seq<Pair>)
    ensures |r| == |ps| && forall k :: 0 <= k < |ps| ==> r[k] == AtOffsets(a, b, ps[k])
  {
    if ps == [] then [] else [AtOffsets(a, b, ps[0])] + AllAtOffsets(a, b, ps[1..])
  }

  /** Score descending, then left ascending, then right ascending. */
  predicate Ranks(x: Pair, y: Pair) {
    || x.score > y.score
    || (x.score == y.score && (x.left < y.left || (x.left == y.left && x.right <= y.right)))
  }

  function ByOffsets(a: seq<FunctionRow>, b: seq<FunctionRow>): (Pair, Pair) -> bool {
    (x, y) => Ranks(AtOffsets(a, b, x), AtOffsets(a, b, y))
  }

  function ByRank(): (Pair, Pair) -> bool {
    (x, y) => Ranks(x, y)
  }

  function Greedy(ps: seq<Pair>, usedL: set<nat>, usedR: set<nat>): seq<Pair> {
    if ps == [] then []
    else if ps[0].left in usedL || ps[0].right in usedR then Greedy(ps[1..], usedL, usedR)
    else [ps[0]] + Greedy(ps[1..], usedL + {ps[0].left}, usedR + {ps[0].right})
  }

  function Assigned(a: seq<FunctionRow>, b: seq<FunctionRow>, tau: real): seq<Pair> {
    Greedy(StableSort.Sort(ByOffsets(a, b), Candidates(a, b, tau)), {}, {})
  }

  function OffsetMatching(a: seq<FunctionRow>, b: seq<FunctionRow>, tau: real): seq<Pair> {
    Greedy(StableSort.Sort(ByRank(), AllAtOffsets(a, b, Candidates(a, b, tau))), {}, {})
  }

  ghost function Lefts(ps: seq<Pair>): set<nat> {
    set p | p in ps :: p.left
  }

  ghost function Rights(ps: seq<Pair>): set<nat> {
    set p | p in ps :: p.right
  }

  /** The offsets of the first `n` rows whose index satisfies `keep`, in row order. */
  ghost function Select(rows: seq<FunctionRow>, keep: set<nat>, n: nat): seq<nat>
    requires n <= |rows|
  {
    if n == 0 then []
    else Select(rows, keep, n - 1) + (if n - 1 in keep then [rows[n - 1].offset] else [])
  }

  ghost function UpTo(n: nat): (r: set<nat>)
    ensures forall i: nat :: i in r <==> i < n
  {
    if n == 0 then {} else UpTo(n - 1) + {n - 1}
  }

  ghost function Indices(rows: seq<FunctionRow>): set<nat> {
    UpTo(|rows|)
  }

  ghost function Rows(rows: seq<FunctionRow>, keep: set<nat>): seq<nat> {
    Select(rows, keep, |rows|)
  }

  // ---------------------------------------------------------------- the index-keyed algorithm

  method CollectCandidates(a: seq<FunctionRow>, b: seq<FunctionRow>, tau: real) returns (candidates: seq<Pair>)
    ensures candidates == Candidates(a, b, tau)
  {
    candidates := [];
    for i := 0 to |a|
      invariant candidates == CandidatesUpTo(a, b, tau, i, 0)
    {
      for j := 0 to |b|
        invariant candidates == CandidatesUpTo(a, b, tau, i, j)
      {
        var score := Jaccard.Compute(a[i].tokens, b[j].tokens);
        if score >= tau {
          candidates := candidates + [Pair(i, j, score)];
        }
      }
    }
  }

  /** The `had_candidate` arrays. */
  method MarkCandidates(candidates: seq<Pair>, n: nat, m: nat) returns (hadA: array<bool>, hadB: array<bool>)
    requires forall p :: p in candidates ==> p.left < n && p.right < m
    ensures fresh(hadA) && fresh(hadB) && hadA.Length == n && hadB.Length == m
    ensures forall i :: 0 <= i < n ==> (hadA[i] <==> i in Lefts(candidates))
    ensures forall j :: 0 <= j < m ==> (hadB[j] <==> j in Rights(candidates))
  {
    hadA, hadB := new bool[n](_ => false), new bool[m](_ => false);
    for k := 0 to |candidates|
      invariant forall i :: 0 <= i < n ==> (hadA[i] <==> i in Lefts(candidates[..k]))
      invariant forall j :: 0 <= j < m ==> (hadB[j] <==> j in Rights(candidates[..k]))
    {
      EndpointsOfPrefix(candidates, k);
      assert candidates[k] in candidates;
      hadA[candidates[k].left] := true;
      hadB[candidates[k].right] := true;
    }
    assert candidates[..|candidates|] == candidates;
  }

  /** The assignment loop over `used_a` and `used_b`. */
  method AssignGreedily(candidates: seq<Pair>, n: nat, m: nat) returns (chosen: seq<Pair>, usedA: array<bool>, usedB: array<bool>)
    requires forall p :: p in candidates ==> p.left < n && p.right < m
    ensures chosen == Greedy(candidates, {}, {})
    ensures fresh(usedA) && fresh(usedB) && usedA.Length == n && usedB.Length == m
    ensures forall i :: 0 <= i < n ==> (usedA[i] <==> i in Lefts(chosen))
    ensures forall j :: 0 <= j < m ==> (usedB[j] <==> j in Rights(chosen))
  {
    hide Greedy;
    usedA, usedB := new bool[n](_ => false), new bool[m](_ => false);
    chosen := [];
    GreedyOfNothing();
    assert candidates[0..] == candidates && Lefts(chosen) == {} == Rights(chosen);
    for k := 0 to |candidates|
      invariant forall i :: 0 <= i < n ==> (usedA[i] <==> i in Lefts(chosen))
      invariant forall j :: 0 <= j < m ==> (usedB[j] <==> j in Rights(chosen))
      invariant chosen + Greedy(candidates[k..], Lefts(chosen), Rights(chosen)) == Greedy(candidates, {}, {})
    {
      var p := candidates[k];
      assert p in candidates;
      EndpointsGrow(chosen, p);
      GreedyStep(chosen, candidates[k..]);
      assert candidates[k..][1..] == candidates[k + 1..];
      if !(usedA[p.left] || usedB[p.right]) {
        usedA[p.left] := true;
        usedB[p.right] := true;
        chosen := chosen + [p];
      }
    }
    assert candidates[|candidates|..] == [] && chosen + [] == chosen;
  }

  lemma GreedyOfNothing()
    ensures forall usedL, usedR :: Greedy([], usedL, usedR) == []
  {
  }

  lemma GreedyStep(chosen: seq<Pair>, rest: seq<Pair>)
    requires rest != []
    ensures var p := rest[0];
            chosen + Greedy(rest, Lefts(chosen), Rights(chosen))
            == if p.left in Lefts(chosen) || p.right in Rights(chosen)
               then chosen + Greedy(rest[1..], Lefts(chosen), Rights(chosen))
               else (chosen + [p]) + Greedy(rest[1..], Lefts(chosen) + {p.left}, Rights(chosen) + {p.right})
  {
  }

  method CoverageWithTau(a: seq<FunctionRow>, b: seq<FunctionRow>, tau: real) returns (cov: Coverage)
    ensures var g := Assigned(a, b, tau); var c := Candidates(a, b, tau);
            && cov.matchedPairs == |g|
            && cov.topPairs == AllAtOffsets(a, b, g)[..Min(5, |g|)]
            && cov.contestedA == Rows(a, Lefts(c) - Lefts(g))
            && cov.contestedB == Rows(b, Rights(c) - Rights(g))
            && cov.unmatchedA == Rows(a, Indices(a) - Lefts(c))
            && cov.unmatchedB == Rows(b, Indices(b) - Rights(c))
            && cov.aToB == (if a == [] then 0.0 else |g| as real / |a| as real)
            && cov.bToA == (if b == [] then 0.0 else |g| as real / |b| as real)
  {
    var candidates := CollectCandidates(a, b, tau);
    CandidatesInRange(a, b, tau);
    SortFacts(a, b, candidates);
    SortKeepsEndpoints(a, b, candidates);
    candidates := StableSort.Sort(ByOffsets(a, b), candidates);

    var hadA, hadB := MarkCandidates(candidates, |a|, |b|);
    var chosen, usedA, usedB := AssignGreedily(candidates, |a|, |b|);

    var contestedA := Filter(a, hadA, usedA, Lefts(candidates) - Lefts(chosen));
    var contestedB := Filter(b, hadB, usedB, Rights(candidates) - Rights(chosen));
    var allA, allB := new bool[|a|](_ => true), new bool[|b|](_ => true);
    var unmatchedA := Filter(a, allA, hadA, Indices(a) - Lefts(candidates));
    var unmatchedB := Filter(b, allB, hadB, Indices(b) - Rights(candidates));

    AssignedAlreadyRanked(a, b, tau);
    var top := StableSort.Sort(ByRank(), AllAtOffsets(a, b, chosen));
    top := top[..Min(5, |top|)];
    cov := Coverage(
      if |a| == 0 then 0.0 else |chosen| as real / |a| as real,
      if |b| == 0 then 0.0 else |chosen| as real / |b| as real,
      |chosen|, top, contestedA, contestedB, unmatchedA, unmatchedB);
  }

  /** The `enumerate().filter(..).map(offset)` chains. */
  method Filter(rows: seq<FunctionRow>, yes: array<bool>, no: array<bool>, ghost keep: set<nat>) returns (out: seq<nat>)
    requires yes.Length == no.Length == |rows|
    requires forall i :: 0 <= i < |rows| ==> (i in keep <==> yes[i] && !no[i])
    ensures out == Rows(rows, keep)
  {
    out := [];
    for i := 0 to |rows|
      invariant out == Select(rows, keep, i)
    {
      if yes[i] && !no[i] { out := out + [rows[i].offset]; }
    }
  }

  // ---------------------------------------------------------------- the offset-keyed copy

  const MAX_PAIRS: nat := 64

  method CollectOffsetCandidates(a: seq<FunctionRow>, b: seq<FunctionRow>, tau: real) returns (candidates: seq<Pair>)
    ensures candidates == AllAtOffsets(a, b, Candidates(a, b, tau))
  {
    candidates := [];
    FirstOffsetCandidates(a, b, tau);
    hide AllAtOffsets, CandidatesUpTo, Jaccard.Score;
    for i := 0 to |a|
      invariant candidates == AllAtOffsets(a, b, CandidatesUpTo(a, b, tau, i, 0))
    {
      for j := 0 to |b|
        invariant candidates == AllAtOffsets(a, b, CandidatesUpTo(a, b, tau, i, j))
      {
        NextOffsetCandidate(a, b, tau, i, j);
        var score := Jaccard.Compute(a[i].tokens, b[j].tokens);
        if score >= tau {
          candidates := candidates + [Pair(a[i].offset, b[j].offset, score)];
        }
      }
      RowIsDone(a, b, tau, i);
    }
  }

  lemma FirstOffsetCandidates(a: seq<FunctionRow>, b: seq<FunctionRow>, tau: real)
    ensures AllAtOffsets(a, b, CandidatesUpTo(a, b, tau, 0, 0)) == []
  {
  }

  lemma RowIsDone(a: seq<FunctionRow>, b: seq<FunctionRow>, tau: real, i: nat)
    requires i < |a|
    ensures CandidatesUpTo(a, b, tau, i + 1, 0) == CandidatesUpTo(a, b, tau, i, |b|)
  {
  }

  lemma NextOffsetCandidate(a: seq<FunctionRow>, b: seq<FunctionRow>, tau: real, i: nat, j: nat)
    requires i < |a| && j < |b|
    ensures var score := Jaccard.Score(a[i].tokens, b[j].tokens);
            AllAtOffsets(a, b, CandidatesUpTo(a, b, tau, i, j + 1))
            == AllAtOffsets(a, b, CandidatesUpTo(a, b, tau, i, j))
               + if score >= tau then [Pair(a[i].offset, b[j].offset, score)] else []
  {
    hide AllAtOffsets, Jaccard.Score;
    assert CandidatesUpTo(a, b, tau, i, j + 1)
        == CandidatesUpTo(a, b, tau, i, j) + if PairOf(a, b, i, j).score >= tau then [PairOf(a, b, i, j)] else [];
  }

  method RecomputePairs(a: seq<FunctionRow>, b: seq<FunctionRow>, tau: real, maxPairs: nat) returns (pairs: seq<Pair>)
    ensures var limit := if maxPairs < 1 then 1 else Min(maxPairs, 64);
            var g := OffsetMatching(a, b, tau);
            pairs == g[..Min(limit, |g|)]
  {
    var limit := if maxPairs < 1 then 1 else if maxPairs > MAX_PAIRS then MAX_PAIRS else maxPairs;
    var candidates := CollectOffsetCandidates(a, b, tau);
    candidates := StableSort.Sort(ByRank(), candidates);
    var usedA, usedB := {}, {};
    var chosen := [];
    for k := 0 to |candidates|
      invariant usedA == Lefts(chosen) && usedB == Rights(chosen)
      invariant chosen + Greedy(candidates[k..], usedA, usedB) == OffsetMatching(a, b, tau)
    {
      var p := candidates[k];
      GreedyStep(chosen, candidates[k..]);
      EndpointsGrow(chosen, p);
      assert candidates[k..][1..] == candidates[k + 1..];
      if !(p.left in usedA || p.right in usedB) {
        usedA := usedA + {p.left};
        usedB := usedB + {p.right};
        chosen := chosen + [p];
      }
    }
    pairs := chosen[..Min(limit, |chosen|)];
  }

  // ---------------------------------------------------------------- candidates and their order

  ghost predicate IsCandidate(a: seq<FunctionRow>, b: seq<FunctionRow>, tau: real, p: Pair) {
    p.left < |a| && p.right < |b| && p == PairOf(a, b, p.left, p.right) && p.score >= tau
  }

  /** Scanned before reaching row `i`, column `j`. */
  ghost predicate Before(p: Pair, i: nat, j: nat) {
    p.left < i || (p.left == i && p.right < j)
  }

  lemma {:induction false} CandidatesUpToAre(a: seq<FunctionRow>, b: seq<FunctionRow>, tau: real, i: nat, j: nat, p: Pair)
    requires i <= |a| && j <= |b| && (i == |a| ==> j == 0)
    ensures p in CandidatesUpTo(a, b, tau, i, j) <==> IsCandidate(a, b, tau, p) && Before(p, i, j)
    decreases i, j
  {
    if j > 0 {
      CandidatesUpToAre(a, b, tau, i, j - 1, p);
    } else if i > 0 {
      CandidatesUpToAre(a, b, tau, i - 1, |b|, p);
    }
  }

  /** The candidates are the pairs scoring at least tau, all of them. */
  lemma CandidatesAre(a: seq<FunctionRow>, b: seq<FunctionRow>, tau: real, p: Pair)
    ensures p in Candidates(a, b, tau) <==> IsCandidate(a, b, tau, p)
  {
    CandidatesUpToAre(a, b, tau, |a|, 0, p);
  }

  lemma CandidatesInRange(a: seq<FunctionRow>, b: seq<FunctionRow>, tau: real)
    ensures forall p :: p in Candidates(a, b, tau) ==> p.left < |a| && p.right < |b|
  {
    forall p | p in Candidates(a, b, tau) ensures p.left < |a| && p.right < |b| {
      CandidatesAre(a, b, tau, p);
    }
  }

  lemma SortFacts(a: seq<FunctionRow>, b: seq<FunctionRow>, ps: seq<Pair>)
    ensures StableSort.TotalPreorder(ByOffsets(a, b))
    ensures StableSort.Sorted(ByOffsets(a, b), StableSort.Sort(ByOffsets(a, b), ps))
    ensures forall p :: p in StableSort.Sort(ByOffsets(a, b), ps) <==> p in ps
  {
    StableSort.SortIsSortedPermutation(ByOffsets(a, b), ps);
    forall p ensures p in StableSort.Sort(ByOffsets(a, b), ps) <==> p in ps {
      StableSort.SortKeepsMembers(ByOffsets(a, b), ps, p);
    }
  }

  lemma SortKeepsEndpoints(a: seq<FunctionRow>, b: seq<FunctionRow>, ps: seq<Pair>)
    ensures Lefts(StableSort.Sort(ByOffsets(a, b), ps)) == Lefts(ps)
    ensures Rights(StableSort.Sort(ByOffsets(a, b), ps)) == Rights(ps)
  {
    SortFacts(a, b, ps);
  }

  lemma EndpointsGrow(g: seq<Pair>, p: Pair)
    ensures Lefts(g + [p]) == Lefts(g) + {p.left} && Rights(g + [p]) == Rights(g) + {p.right}
  {
    assert p in g + [p];
    assert forall q :: q in g ==> q in g + [p];
  }

  lemma EndpointsOfPrefix(ps: seq<Pair>, k: nat)
    requires k < |ps|
    ensures Lefts(ps[..k + 1]) == Lefts(ps[..k]) + {ps[k].left}
    ensures Rights(ps[..k + 1]) == Rights(ps[..k]) + {ps[k].right}
  {
    assert ps[..k + 1] == ps[..k] + [ps[k]];
    EndpointsGrow(ps[..k], ps[k]);
  }

  lemma {:induction false} SelectCounts(rows: seq<FunctionRow>, s: set<nat>, t: set<nat>, u: set<nat>, n: nat)
    requires n <= |rows| && s !! t && s !! u && t !! u && s + t + u == Indices(rows)
    ensures |Select(rows, s, n)| + |Select(rows, t, n)| + |Select(rows, u, n)| == n
  {
    if n > 0 {
      SelectCounts(rows, s, t, u, n - 1);
      assert n - 1 in Indices(rows);
    }
  }

  lemma {:induction false} SelectCountsSet(rows: seq<FunctionRow>, s: set<nat>, n: nat)
    requires n <= |rows| && forall i :: i in s ==> i < n
    ensures |Select(rows, s, n)| == |s|
  {
    if n > 0 {
      SelectCountsSet(rows, s - {n - 1}, n - 1);
      SelectDependsBelow(rows, s, s - {n - 1}, n - 1);
    } else {
      assert s == {};
    }
  }

  lemma {:induction false} SelectDependsBelow(rows: seq<FunctionRow>, s: set<nat>, t: set<nat>, n: nat)
    requires n <= |rows| && forall i :: 0 <= i < n ==> (i in s <==> i in t)
    ensures Select(rows, s, n) == Select(rows, t, n)
  {
    if n > 0 { SelectDependsBelow(rows, s, t, n - 1); }
  }

  // ---------------------------------------------------------------- what greedy assignment is

  ghost predicate OneToOne(ps: seq<Pair>) {
    forall i, j :: 0 <= i < j < |ps| ==> ps[i].left != ps[j].left && ps[i].right != ps[j].right
  }

  ghost predicate Clash(p: Pair, q: Pair) {
    p.left == q.left || p.right == q.right
  }

  lemma HeadKeepsMatching(p: Pair, g: seq<Pair>)
    requires OneToOne(g) && forall q :: q in g ==> !Clash(p, q)
    ensures OneToOne([p] + g)
  {
    forall j | 0 <= j < |g| ensures !Clash(p, g[j]) {
      assert g[j] in g;
    }
  }

  lemma {:induction false} GreedyIsMatching(ps: seq<Pair>, usedL: set<nat>, usedR: set<nat>)
    ensures OneToOne(Greedy(ps, usedL, usedR))
    ensures forall p :: p in Greedy(ps, usedL, usedR) ==> p in ps && p.left !in usedL && p.right !in usedR
  {
    if ps != [] {
      if ps[0].left in usedL || ps[0].right in usedR {
        GreedyIsMatching(ps[1..], usedL, usedR);
      } else {
        var l', r' := usedL + {ps[0].left}, usedR + {ps[0].right};
        GreedyIsMatching(ps[1..], l', r');
        HeadKeepsMatching(ps[0], Greedy(ps[1..], l', r'));
      }
    }
  }

  /** A pair is passed over only for an earlier one. */
  lemma {:induction false} GreedyIsStable(ps: seq<Pair>, usedL: set<nat>, usedR: set<nat>, k: nat) returns (m: nat)
    requires k < |ps| && ps[k] !in Greedy(ps, usedL, usedR)
    requires ps[k].left !in usedL && ps[k].right !in usedR
    ensures m < k && ps[m] in Greedy(ps, usedL, usedR) && Clash(ps[m], ps[k])
  {
    if ps[0].left in usedL || ps[0].right in usedR {
      m := GreedyIsStable(ps[1..], usedL, usedR, k - 1);
      m := m + 1;
    } else if Clash(ps[0], ps[k]) {
      m := 0;
    } else {
      m := GreedyIsStable(ps[1..], usedL + {ps[0].left}, usedR + {ps[0].right}, k - 1);
      m := m + 1;
    }
  }

  ghost function Weight(w: Pair -> real, ps: seq<Pair>): real {
    if ps == [] then 0.0 else w(ps[0]) + Weight(w, ps[1..])
  }

  ghost function Without(ps: seq<Pair>, k: nat): seq<Pair>
    requires k < |ps|
  {
    ps[..k] + ps[k + 1..]
  }

  lemma {:induction false} WeightWithout(w: Pair -> real, ps: seq<Pair>, k: nat)
    requires k < |ps|
    ensures Weight(w, ps) == Weight(w, Without(ps, k)) + w(ps[k])
  {
    if k == 0 {
      assert Without(ps, 0) == ps[1..];
    } else {
      WeightWithout(w, ps[1..], k - 1);
      assert Without(ps, k) == [ps[0]] + Without(ps[1..], k - 1);
    }
  }

  /** Drops the pair of a matching that meets `c` on the left (or right), if there is one. */
  lemma DropClash(w: Pair -> real, c: Pair, m: seq<Pair>, onLeft: bool) returns (m': seq<Pair>)
    requires OneToOne(m) && w(c) >= 0.0 && forall p :: p in m ==> w(p) <= w(c)
    ensures OneToOne(m') && forall p :: p in m' ==> p in m
    ensures forall p :: p in m' ==> if onLeft then p.left != c.left else p.right != c.right
    ensures Weight(w, m) <= Weight(w, m') + w(c)
  {
    if k :| 0 <= k < |m| && (if onLeft then m[k].left == c.left else m[k].right == c.right) {
      m' := Without(m, k);
      WeightWithout(w, m, k);
      assert m[k] in m;
    } else {
      m' := m;
    }
  }

  /** What is left of the rival after dropping the pairs that meet `ps[0]`. */
  lemma StillFree(ps: seq<Pair>, usedL: set<nat>, usedR: set<nat>, rival: seq<Pair>, m1: seq<Pair>, m2: seq<Pair>)
    requires ps != []
    requires forall k :: 0 <= k < |rival| ==> rival[k] in ps && rival[k].left !in usedL && rival[k].right !in usedR
    requires forall p :: p in m1 ==> p in rival && p.left != ps[0].left
    requires forall p :: p in m2 ==> p in m1 && p.right != ps[0].right
    ensures forall k :: 0 <= k < |m2| ==>
              m2[k] in ps[1..] && m2[k].left !in usedL + {ps[0].left} && m2[k].right !in usedR + {ps[0].right}
  {
    forall k | 0 <= k < |m2|
      ensures m2[k] in ps[1..] && m2[k].left !in usedL + {ps[0].left} && m2[k].right !in usedR + {ps[0].right}
    {
      var p := m2[k];
      assert p in m1 && p in rival;
      var i :| 0 <= i < |rival| && rival[i] == p;
      var j :| 0 <= j < |ps| && ps[j] == p;
      assert ps[1..][j - 1] == p;
    }
  }

  /** Greedy reaches half of what any rival matching reaches, for any weight that does not
      increase along the list. */
  lemma {:induction false} HalfWeight(ps: seq<Pair>, usedL: set<nat>, usedR: set<nat>, rival: seq<Pair>, w: Pair -> real)
    requires forall i, j :: 0 <= i < j < |ps| ==> w(ps[i]) >= w(ps[j])
    requires forall p :: p in ps ==> w(p) >= 0.0
    requires OneToOne(rival)
    requires forall k :: 0 <= k < |rival| ==> rival[k] in ps && rival[k].left !in usedL && rival[k].right !in usedR
    ensures Weight(w, rival) <= 2.0 * Weight(w, Greedy(ps, usedL, usedR))
  {
    if ps == [] {
      assert rival == [];
    } else {
      var c := ps[0];
      if c.left in usedL || c.right in usedR {
        HalfWeight(ps[1..], usedL, usedR, rival, w);
      } else {
        assert forall p :: p in rival ==> w(p) <= w(c);
        var m1 := DropClash(w, c, rival, true);
        var m2 := DropClash(w, c, m1, false);
        StillFree(ps, usedL, usedR, rival, m1, m2);
        HalfWeight(ps[1..], usedL + {c.left}, usedR + {c.right}, m2, w);
        var g := Greedy(ps[1..], usedL + {c.left}, usedR + {c.right});
        assert ([c] + g)[1..] == g;
      }
    }
  }

  ghost function One(): Pair -> real {
    (p: Pair) => 1.0
  }

  lemma {:induction false} UnitWeightIsLength(ps: seq<Pair>)
    ensures Weight(One(), ps) == |ps| as real
  {
    if ps != [] { UnitWeightIsLength(ps[1..]); }
  }

  ghost function ItsScore(): Pair -> real {
    (p: Pair) => p.score
  }

  ghost function Total(ps: seq<Pair>): real {
    Weight(ItsScore(), ps)
  }

  // ---------------------------------------------------------------- the ranked list

  lemma RankIsTotalOrder()
    ensures StableSort.TotalPreorder(ByRank()) && StableSort.Antisymmetric(ByRank())
  {
    assert forall x, y :: ByRank()(x, y) == Ranks(x, y);
  }

  lemma {:induction false} GreedyKeepsOrder(ps: seq<Pair>, usedL: set<nat>, usedR: set<nat>, le: (Pair, Pair) -> bool)
    requires StableSort.Sorted(le, ps)
    ensures StableSort.Sorted(le, Greedy(ps, usedL, usedR))
  {
    if ps != [] {
      if ps[0].left in usedL || ps[0].right in usedR {
        GreedyKeepsOrder(ps[1..], usedL, usedR, le);
      } else {
        var l', r' := usedL + {ps[0].left}, usedR + {ps[0].right};
        GreedyKeepsOrder(ps[1..], l', r', le);
        GreedyIsMatching(ps[1..], l', r');
        forall p | p in Greedy(ps[1..], l', r') ensures le(ps[0], p) {
          assert p in ps[1..];
        }
      }
    }
  }

  lemma AssignedIsRanked(a: seq<FunctionRow>, b: seq<FunctionRow>, tau: real)
    ensures StableSort.Sorted(ByOffsets(a, b), Assigned(a, b, tau))
  {
    var c := Candidates(a, b, tau);
    SortFacts(a, b, c);
    GreedyKeepsOrder(StableSort.Sort(ByOffsets(a, b), c), {}, {}, ByOffsets(a, b));
  }

  /** Sorting the assigned pairs again, before the top five are taken, changes nothing. */
  lemma AssignedAlreadyRanked(a: seq<FunctionRow>, b: seq<FunctionRow>, tau: real)
    ensures var top := AllAtOffsets(a, b, Assigned(a, b, tau));
            StableSort.Sort(ByRank(), top) == top
  {
    AssignedIsRanked(a, b, tau);
    var g := Assigned(a, b, tau);
    var top := AllAtOffsets(a, b, g);
    forall i, j | 0 <= i < j < |top| ensures ByRank()(top[i], top[j]) {
      assert ByOffsets(a, b)(g[i], g[j]);
    }
    StableSort.SortOfSorted(ByRank(), top);
  }

  // ---------------------------------------------------------------- main results

  /** The assignment is one-to-one and made of candidates; a candidate left out loses to an
      assigned pair at least as good that shares a function with it. In particular nothing can
      be added. */
  lemma MatchingIsStable(a: seq<FunctionRow>, b: seq<FunctionRow>, tau: real)
    ensures OneToOne(Assigned(a, b, tau))
    ensures forall p :: p in Assigned(a, b, tau) ==> IsCandidate(a, b, tau, p)
    ensures forall p :: IsCandidate(a, b, tau, p) && p !in Assigned(a, b, tau) ==>
              exists q :: q in Assigned(a, b, tau) && Clash(q, p) && ByOffsets(a, b)(q, p)
  {
    var c := Candidates(a, b, tau);
    var ps := StableSort.Sort(ByOffsets(a, b), c);
    SortFacts(a, b, c);
    GreedyIsMatching(ps, {}, {});
    forall p | p in Assigned(a, b, tau) ensures IsCandidate(a, b, tau, p) {
      CandidatesAre(a, b, tau, p);
    }
    forall p | IsCandidate(a, b, tau, p) && p !in Assigned(a, b, tau)
      ensures exists q :: q in Assigned(a, b, tau) && Clash(q, p) && ByOffsets(a, b)(q, p)
    {
      CandidatesAre(a, b, tau, p);
      var k :| 0 <= k < |ps| && ps[k] == p;
      var m := GreedyIsStable(ps, {}, {}, k);
      assert ps[m] in Assigned(a, b, tau);
    }
  }

  /** The whole assignment, said in scores and offsets: pairs of rows scoring at least tau, no row
      in two of them, the better score first and the smaller offsets first among equals; and
      every such pair that is left out shares a row with one that comes before it. */
  lemma AssignedInDetail(a: seq<FunctionRow>, b: seq<FunctionRow>, tau: real)
    ensures var g := Assigned(a, b, tau);
            && (forall k :: 0 <= k < |g| ==>
                  g[k].left < |a| && g[k].right < |b| && g[k].score == Jaccard.Score(a[g[k].left].tokens, b[g[k].right].tokens) >= tau)
            && (forall k, l :: 0 <= k < l < |g| ==>
                  && g[k].left != g[l].left && g[k].right != g[l].right
                  && (g[k].score > g[l].score
                      || (g[k].score == g[l].score && a[g[k].left].offset < a[g[l].left].offset)
                      || (g[k].score == g[l].score && a[g[k].left].offset == a[g[l].left].offset && b[g[k].right].offset <= b[g[l].right].offset)))
            && (forall i, j :: 0 <= i < |a| && 0 <= j < |b| && Jaccard.Score(a[i].tokens, b[j].tokens) >= tau ==>
                  exists k :: 0 <= k < |g|
                    && (g[k].left == i || g[k].right == j)
                    && (g[k].score > Jaccard.Score(a[i].tokens, b[j].tokens)
                        || (g[k].score == Jaccard.Score(a[i].tokens, b[j].tokens) && a[g[k].left].offset < a[i].offset)
                        || (g[k].score == Jaccard.Score(a[i].tokens, b[j].tokens) && a[g[k].left].offset == a[i].offset
                            && b[g[k].right].offset <= b[j].offset)))
  {
    var g := Assigned(a, b, tau);
    MatchingIsStable(a, b, tau);
    AssignedIsRanked(a, b, tau);
    hide Assigned;
    forall k | 0 <= k < |g| ensures IsCandidate(a, b, tau, g[k]) { assert g[k] in g; }
    forall k, l | 0 <= k < l < |g| ensures ByOffsets(a, b)(g[k], g[l]) && !Clash(g[k], g[l]) {}
    forall i, j | 0 <= i < |a| && 0 <= j < |b| && Jaccard.Score(a[i].tokens, b[j].tokens) >= tau
      ensures exists k :: 0 <= k < |g| && Clash(g[k], PairOf(a, b, i, j)) && ByOffsets(a, b)(g[k], PairOf(a, b, i, j))
    {
      var p := PairOf(a, b, i, j);
      assert IsCandidate(a, b, tau, p);
      var q :| q in g && Clash(q, p) && ByOffsets(a, b)(q, p);
    }
  }

  /** What the sets in the coverage result are: the rows with a partner scoring at least tau, and
      the rows in the assignment. */
  lemma EndsInDetail(a: seq<FunctionRow>, b: seq<FunctionRow>, tau: real)
    ensures forall i: nat :: i in Lefts(Candidates(a, b, tau)) <==>
              i < |a| && exists j :: 0 <= j < |b| && Jaccard.Score(a[i].tokens, b[j].tokens) >= tau
    ensures forall j: nat :: j in Rights(Candidates(a, b, tau)) <==>
              j < |b| && exists i :: 0 <= i < |a| && Jaccard.Score(a[i].tokens, b[j].tokens) >= tau
    ensures forall i: nat :: i in Lefts(Assigned(a, b, tau)) <==> exists p :: p in Assigned(a, b, tau) && p.left == i
    ensures forall j: nat :: j in Rights(Assigned(a, b, tau)) <==> exists p :: p in Assigned(a, b, tau) && p.right == j
  {
    var c := Candidates(a, b, tau);
    forall p ensures p in c <==> IsCandidate(a, b, tau, p) { CandidatesAre(a, b, tau, p); }
    hide Candidates, Assigned;
    forall i: nat, j: nat | i < |a| && j < |b| && Jaccard.Score(a[i].tokens, b[j].tokens) >= tau
      ensures i in Lefts(c) && j in Rights(c)
    {
      assert IsCandidate(a, b, tau, PairOf(a, b, i, j));
    }
  }

  /** A list of the coverage result has the offsets of its rows in row order, each row once. */
  lemma {:induction false} SelectInOrder(rows: seq<FunctionRow>, keep: set<nat>, n: nat) returns (at: seq<nat>)
    requires n <= |rows|
    ensures forall k, l :: 0 <= k < l < |at| ==> at[k] < at[l]
    ensures forall i: nat :: i in at <==> i < n && i in keep
    ensures |Select(rows, keep, n)| == |at|
    ensures forall k :: 0 <= k < |at| ==> at[k] < |rows| && Select(rows, keep, n)[k] == rows[at[k]].offset
  {
    at := [];
    if n > 0 {
      at := SelectInOrder(rows, keep, n - 1);
      if n - 1 in keep {
        forall k | 0 <= k < |at| ensures at[k] < n - 1 { assert at[k] in at; }
        at := at + [n - 1];
      }
    }
  }

  /** Against any one-to-one rival over the same candidates: at least half the pairs and at
      least half the total score. */
  lemma MatchingIsHalfOptimal(a: seq<FunctionRow>, b: seq<FunctionRow>, tau: real, rival: seq<Pair>)
    requires OneToOne(rival) && forall p :: p in rival ==> IsCandidate(a, b, tau, p)
    ensures |rival| <= 2 * |Assigned(a, b, tau)|
    ensures Total(rival) <= 2.0 * Total(Assigned(a, b, tau))
  {
    var c := Candidates(a, b, tau);
    var ps := StableSort.Sort(ByOffsets(a, b), c);
    SortFacts(a, b, c);
    forall p | p in rival ensures p in ps { CandidatesAre(a, b, tau, p); }
    forall p | p in ps ensures p.score >= 0.0 {
      CandidatesAre(a, b, tau, p);
      Jaccard.ScoreInUnitInterval(a[p.left].tokens, b[p.right].tokens);
    }
    assert forall i, j :: 0 <= i < j < |ps| ==> ByOffsets(a, b)(ps[i], ps[j]);
    HalfWeight(ps, {}, {}, rival, One());
    UnitWeightIsLength(rival);
    UnitWeightIsLength(Assigned(a, b, tau));
    HalfWeight(ps, {}, {}, rival, ItsScore());
  }

  /** Every function of a side is assigned, contested or unmatched, and only one of them. */
  lemma SidesArePartitioned(a: seq<FunctionRow>, b: seq<FunctionRow>, tau: real)
    ensures var c, g := Candidates(a, b, tau), Assigned(a, b, tau);
            && |g| == |Rows(a, Lefts(g))| == |Rows(b, Rights(g))|
            && |g| + |Rows(a, Lefts(c) - Lefts(g))| + |Rows(a, Indices(a) - Lefts(c))| == |a|
            && |g| + |Rows(b, Rights(c) - Rights(g))| + |Rows(b, Indices(b) - Rights(c))| == |b|
  {
    hide *;
    var c, g := Candidates(a, b, tau), Assigned(a, b, tau);
    MatchingIsStable(a, b, tau);
    EndpointsNest(a, b, tau);
    EndpointsAreDistinct(g);
    OneSide(a, Lefts(c), Lefts(g));
    OneSide(b, Rights(c), Rights(g));
  }

  lemma EndpointsNest(a: seq<FunctionRow>, b: seq<FunctionRow>, tau: real)
    ensures var c, g := Candidates(a, b, tau), Assigned(a, b, tau);
            Lefts(g) <= Lefts(c) <= Indices(a) && Rights(g) <= Rights(c) <= Indices(b)
  {
    hide Candidates, Assigned, OneToOne, IsCandidate, ByOffsets;
    var c, g := Candidates(a, b, tau), Assigned(a, b, tau);
    MatchingIsStable(a, b, tau);
    CandidatesInRange(a, b, tau);
    forall p | p in g ensures p in c { CandidatesAre(a, b, tau, p); }
  }

  /** The rows of one side that had a candidate, and of those the ones that were used. */
  lemma OneSide(rows: seq<FunctionRow>, had: set<nat>, used: set<nat>)
    requires used <= had <= Indices(rows)
    ensures |Rows(rows, used)| == |used|
    ensures |used| + |Rows(rows, had - used)| + |Rows(rows, Indices(rows) - had)| == |rows|
  {
    hide Select;
    SelectCountsSet(rows, used, |rows|);
    SelectCounts(rows, used, had - used, Indices(rows) - had, |rows|);
  }

  lemma {:induction false} EndpointsAreDistinct(g: seq<Pair>)
    requires OneToOne(g)
    ensures |Lefts(g)| == |g| && |Rights(g)| == |g|
  {
    if g != [] {
      var init, last := g[..|g| - 1], g[|g| - 1];
      EndpointsAreDistinct(init);
      assert g == init + [last];
      EndpointsGrow(init, last);
      assert last.left !in Lefts(init) && last.right !in Rights(init);
    }
  }

  ghost predicate DistinctOffsets(rows: seq<FunctionRow>) {
    forall i, j :: 0 <= i < j < |rows| ==> rows[i].offset != rows[j].offset
  }

  lemma {:induction false} InsertCommutes(a: seq<FunctionRow>, b: seq<FunctionRow>, x: Pair, ps: seq<Pair>)
    ensures AllAtOffsets(a, b, StableSort.Insert(ByOffsets(a, b), x, ps))
         == StableSort.Insert(ByRank(), AtOffsets(a, b, x), AllAtOffsets(a, b, ps))
  {
    if ps != [] && !ByOffsets(a, b)(x, ps[0]) {
      InsertCommutes(a, b, x, ps[1..]);
    } else {
      assert ([x] + ps)[1..] == ps;
    }
  }

  lemma {:induction false} SortCommutes(a: seq<FunctionRow>, b: seq<FunctionRow>, ps: seq<Pair>)
    ensures AllAtOffsets(a, b, StableSort.Sort(ByOffsets(a, b), ps))
         == StableSort.Sort(ByRank(), AllAtOffsets(a, b, ps))
  {
    if ps != [] {
      SortCommutes(a, b, ps[1..]);
      InsertCommutes(a, b, ps[0], StableSort.Sort(ByOffsets(a, b), ps[1..]));
    }
  }

  ghost function OffsetsOf(rows: seq<FunctionRow>, used: set<nat>): set<nat> {
    set i | i in used :: OffsetAt(rows, i)
  }

  lemma UsedCommutes(rows: seq<FunctionRow>, used: set<nat>, i: nat)
    requires DistinctOffsets(rows) && i < |rows| && used <= Indices(rows)
    ensures i in used <==> rows[i].offset in OffsetsOf(rows, used)
    ensures OffsetsOf(rows, used + {i}) == OffsetsOf(rows, used) + {rows[i].offset}
  {
    if i in used {
      assert OffsetAt(rows, i) in OffsetsOf(rows, used);
    }
    assert i in used + {i} && OffsetAt(rows, i) == rows[i].offset;
  }

  lemma {:induction false} GreedyCommutes(a: seq<FunctionRow>, b: seq<FunctionRow>, ps: seq<Pair>, usedL: set<nat>, usedR: set<nat>)
    requires DistinctOffsets(a) && DistinctOffsets(b)
    requires forall p :: p in ps ==> p.left < |a| && p.right < |b|
    requires usedL <= Indices(a) && usedR <= Indices(b)
    ensures AllAtOffsets(a, b, Greedy(ps, usedL, usedR))
         == Greedy(AllAtOffsets(a, b, ps), OffsetsOf(a, usedL), OffsetsOf(b, usedR))
  {
    if ps != [] {
      var p := ps[0];
      UsedCommutes(a, usedL, p.left);
      UsedCommutes(b, usedR, p.right);
      if p.left in usedL || p.right in usedR {
        GreedyCommutes(a, b, ps[1..], usedL, usedR);
      } else {
        GreedyCommutes(a, b, ps[1..], usedL + {p.left}, usedR + {p.right});
        var g := Greedy(ps[1..], usedL + {p.left}, usedR + {p.right});
        assert ([p] + g)[1..] == g;
      }
    }
  }

  /** With distinct offsets the two copies choose the same pairs in the same order. */
  lemma CopiesAgree(a: seq<FunctionRow>, b: seq<FunctionRow>, tau: real)
    requires DistinctOffsets(a) && DistinctOffsets(b)
    ensures AllAtOffsets(a, b, Assigned(a, b, tau)) == OffsetMatching(a, b, tau)
  {
    var c := Candidates(a, b, tau);
    var ps := StableSort.Sort(ByOffsets(a, b), c);
    CandidatesInRange(a, b, tau);
    SortFacts(a, b, c);
    GreedyCommutes(a, b, ps, {}, {});
    SortCommutes(a, b, c);
    assert OffsetsOf(a, {}) == {} && OffsetsOf(b, {}) == {};
  }

  // ---------------------------------------------------------------- input order

  ghost function FlatMap<T, U>(h: T -> seq<U>, s: seq<T>): seq<U> {
    if s == [] then [] else FlatMap(h, s[..|s| - 1]) + h(s[|s| - 1])
  }

  ghost function Dropped<T>(s: seq<T>, k: nat): seq<T>
    requires k < |s|
  {
    s[..k] + s[k + 1..]
  }

  lemma FlatMapSnoc<T, U>(h: T -> seq<U>, s: seq<T>, x: T)
    ensures multiset(FlatMap(h, s + [x])) == multiset(FlatMap(h, s)) + multiset(h(x))
  {
    assert (s + [x])[..|s|] == s;
    assert FlatMap(h, s + [x]) == FlatMap(h, s) + h(x);
  }

  lemma {:induction false} FlatMapDrop<T, U>(h: T -> seq<U>, s: seq<T>, k: nat)
    requires k < |s|
    ensures multiset(FlatMap(h, s)) == multiset(FlatMap(h, Dropped(s, k))) + multiset(h(s[k]))
  {
    var init, last := s[..|s| - 1], s[|s| - 1];
    assert s == init + [last];
    FlatMapSnoc(h, init, last);
    if k == |init| {
      assert Dropped(s, k) == init;
    } else {
      var rest := Dropped(init, k);
      assert init[k] == s[k] && Dropped(s, k) == rest + [last];
      FlatMapDrop(h, init, k);
      FlatMapSnoc(h, rest, last);
    }
  }

  /** Where the last element of one arrangement stands in another. */
  lemma FindLast<T>(s: seq<T>, t: seq<T>) returns (k: nat)
    requires s != [] && multiset(s) == multiset(t)
    ensures k < |t| && t[k] == s[|s| - 1]
    ensures multiset(s[..|s| - 1]) == multiset(Dropped(t, k))
  {
    var x := s[|s| - 1];
    assert x in multiset(t);
    k :| 0 <= k < |t| && t[k] == x;
    assert s == s[..|s| - 1] + [x];
    assert t == (t[..k] + [x]) + t[k + 1..];
    assert multiset(s[..|s| - 1]) == multiset(s) - multiset{x};
    assert multiset(Dropped(t, k)) == multiset(t) - multiset{x};
  }

  lemma {:induction false} FlatMapIgnoresOrder<T, U>(h: T -> seq<U>, h': T -> seq<U>, s: seq<T>, s': seq<T>)
    requires multiset(s) == multiset(s')
    requires forall x :: x in s ==> multiset(h(x)) == multiset(h'(x))
    ensures multiset(FlatMap(h, s)) == multiset(FlatMap(h', s'))
    decreases |s|
  {
    if s == [] {
      assert |multiset(s)| == |multiset(s')|;
    } else {
      var k := FindLast(s, s');
      FlatMapIgnoresOrder(h, h', s[..|s| - 1], Dropped(s', k));
      FlatMapDrop(h', s', k);
      assert s == s[..|s| - 1] + [s[|s| - 1]];
    }
  }

  /** The offset-keyed candidate made of two rows, if they score enough. */
  ghost function Hit(tau: real, fa: FunctionRow): FunctionRow -> seq<Pair> {
    (fb: FunctionRow) =>
      if Jaccard.Score(fa.tokens, fb.tokens) >= tau
      then [Pair(fa.offset, fb.offset, Jaccard.Score(fa.tokens, fb.tokens))]
      else []
  }

  ghost function RowOf(b: seq<FunctionRow>, tau: real): FunctionRow -> seq<Pair> {
    (fa: FunctionRow) => FlatMap(Hit(tau, fa), b)
  }

  lemma {:induction false} CandidatesByRows(a: seq<FunctionRow>, b: seq<FunctionRow>, tau: real, i: nat, j: nat)
    requires i <= |a| && j <= |b| && (i == |a| ==> j == 0)
    ensures AllAtOffsets(a, b, CandidatesUpTo(a, b, tau, i, j))
         == FlatMap(RowOf(b, tau), a[..i]) + (if i < |a| then FlatMap(Hit(tau, a[i]), b[..j]) else [])
    decreases i, j
  {
    hide CandidatesUpTo, AllAtOffsets, FlatMap, RowOf, Hit;
    if j > 0 {
      CandidatesByRows(a, b, tau, i, j - 1);
      NextColumn(a, b, tau, i, j);
      var rows, row, hit := FlatMap(RowOf(b, tau), a[..i]), FlatMap(Hit(tau, a[i]), b[..j - 1]), Hit(tau, a[i])(b[j - 1]);
      assert (rows + row) + hit == rows + (row + hit);
    } else {
      if i < |a| { NoColumn(Hit(tau, a[i]), b); }
      if i > 0 {
        CandidatesByRows(a, b, tau, i - 1, |b|);
        NextRow(a, b, tau, i);
      } else {
        NoRow(a, b, tau);
      }
    }
  }

  lemma NoColumn<T, U>(h: T -> seq<U>, s: seq<T>)
    ensures FlatMap(h, s[..0]) == []
  {
  }

  lemma NoRow(a: seq<FunctionRow>, b: seq<FunctionRow>, tau: real)
    ensures AllAtOffsets(a, b, CandidatesUpTo(a, b, tau, 0, 0)) == FlatMap(RowOf(b, tau), a[..0])
  {
  }

  lemma NextRow(a: seq<FunctionRow>, b: seq<FunctionRow>, tau: real, i: nat)
    requires 0 < i <= |a|
    ensures CandidatesUpTo(a, b, tau, i, 0) == CandidatesUpTo(a, b, tau, i - 1, |b|)
    ensures FlatMap(RowOf(b, tau), a[..i])
         == FlatMap(RowOf(b, tau), a[..i - 1]) + FlatMap(Hit(tau, a[i - 1]), b[..|b|])
  {
    hide AllAtOffsets;
    assert b[..|b|] == b && a[..i][..i - 1] == a[..i - 1];
  }

  lemma NextColumn(a: seq<FunctionRow>, b: seq<FunctionRow>, tau: real, i: nat, j: nat)
    requires i < |a| && 0 < j <= |b|
    ensures AllAtOffsets(a, b, CandidatesUpTo(a, b, tau, i, j))
         == AllAtOffsets(a, b, CandidatesUpTo(a, b, tau, i, j - 1)) + Hit(tau, a[i])(b[j - 1])
    ensures FlatMap(Hit(tau, a[i]), b[..j]) == FlatMap(Hit(tau, a[i]), b[..j - 1]) + Hit(tau, a[i])(b[j - 1])
  {
    assert b[..j][..j - 1] == b[..j - 1];
    var hit := if PairOf(a, b, i, j - 1).score >= tau then [PairOf(a, b, i, j - 1)] else [];
    assert AllAtOffsets(a, b, hit) == Hit(tau, a[i])(b[j - 1]);
    AllAtOffsetsConcat(a, b, CandidatesUpTo(a, b, tau, i, j - 1), hit);
  }

  lemma AllAtOffsetsConcat(a: seq<FunctionRow>, b: seq<FunctionRow>, ps: seq<Pair>, qs: seq<Pair>)
    ensures AllAtOffsets(a, b, ps + qs) == AllAtOffsets(a, b, ps) + AllAtOffsets(a, b, qs)
  {
  }

  /** Permuting either input changes neither the chosen pairs nor their order. */
  lemma InputOrderIsIrrelevant(a: seq<FunctionRow>, a': seq<FunctionRow>, b: seq<FunctionRow>, b': seq<FunctionRow>, tau: real)
    requires multiset(a) == multiset(a') && multiset(b) == multiset(b')
    ensures OffsetMatching(a, b, tau) == OffsetMatching(a', b', tau)
  {
    var c, c' := AllAtOffsets(a, b, Candidates(a, b, tau)), AllAtOffsets(a', b', Candidates(a', b', tau));
    CandidatesByRows(a, b, tau, |a|, 0);
    CandidatesByRows(a', b', tau, |a'|, 0);
    assert a[..|a|] == a && a'[..|a'|] == a';
    forall fa | fa in a ensures multiset(RowOf(b, tau)(fa)) == multiset(RowOf(b', tau)(fa)) {
      FlatMapIgnoresOrder(Hit(tau, fa), Hit(tau, fa), b, b');
    }
    FlatMapIgnoresOrder(RowOf(b, tau), RowOf(b', tau), a, a');
    RankIsTotalOrder();
    StableSort.SortIsSortedPermutation(ByRank(), c);
    StableSort.SortIsSortedPermutation(ByRank(), c');
    StableSort.SortedArrangementIsUnique(ByRank(), StableSort.Sort(ByRank(), c), StableSort.Sort(ByRank(), c'));
  }

  /** The same for the index-keyed copy, which the offsets must then identify rows. */
  lemma AssignmentIgnoresInputOrder(a: seq<FunctionRow>, a': seq<FunctionRow>, b: seq<FunctionRow>, b': seq<FunctionRow>, tau: real)
    requires multiset(a) == multiset(a') && multiset(b) == multiset(b')
    requires DistinctOffsets(a) && DistinctOffsets(b) && DistinctOffsets(a') && DistinctOffsets(b')
    ensures AllAtOffsets(a, b, Assigned(a, b, tau)) == AllAtOffsets(a', b', Assigned(a', b', tau))
  {
    CopiesAgree(a, b, tau);
    CopiesAgree(a', b', tau);
    InputOrderIsIrrelevant(a, a', b, b', tau);
  }
}
