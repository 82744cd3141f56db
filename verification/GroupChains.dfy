/** Variant groups in terms of nothing but the requested edges and the names of their types
    (similarity/edges.rs with similarity/model.rs). */
module GroupChains {
  import opened SimilarityModel
  import opened VariantGroups

  /** An edge between the two was asked for that is an exact copy, a normalized equivalent or a
      strong semantic variant. */
  ghost predicate AskedFor(ops: seq<Op>, x: ArtifactId, y: ArtifactId) {
    exists j :: 0 <= j < |ops| && ops[j].Insert? && x != y
      && ((ops[j].a == x && ops[j].b == y) || (ops[j].a == y && ops[j].b == x))
      && (ops[j].etype == ExactCopy || ops[j].etype == NormalizedEquivalent || ops[j].etype == SemanticStrong)
  }

  lemma {:induction false} PairWasAskedFor(ops: seq<Op>, x: ArtifactId, y: ArtifactId)
    requires forall i :: 0 <= i < |ops| ==> ops[i].Insert?
    ensures Adjacent(RequestedPairs(ops), x, y) <==> AskedFor(ops, x, y)
  {
    if ops != [] {
      var init, last := ops[..|ops| - 1], ops[|ops| - 1];
      PairWasAskedFor(init, x, y);
      assert forall j :: 0 <= j < |init| ==> ops[j] == init[j];
    }
  }

  ghost predicate Chain(ops: seq<Op>, p: seq<ArtifactId>, x: ArtifactId, y: ArtifactId) {
    |p| > 1 && p[0] == x && p[|p| - 1] == y && forall i :: 0 <= i < |p| - 1 ==> AskedFor(ops, p[i], p[i + 1])
  }

  /** After any inserts two artifacts share a group exactly when a chain of such edges leads from
      one to the other. */
  lemma GroupsAreChains(held: set<ArtifactId>, ops: seq<Op>, x: ArtifactId, y: ArtifactId)
    requires FreshIds(ops) && x != y && forall i :: 0 <= i < |ops| ==> ops[i].Insert?
    ensures var members := Run(held, ops).members;
            (x in members && y in members && members[x] == members[y]) <==> exists p :: Chain(ops, p, x, y)
  {
    GroupsAreComponents(held, ops, x, y);
    RunStoresItsPairs(held, ops);
    hide Run, RequestedPairs, StrongPairs, FreshIds, Chain;
    forall p ensures IsPath(RequestedPairs(ops), p, x, y) <==> Chain(ops, p, x, y) { ChainIsPath(ops, p, x, y); }
    hide IsPath;
  }

  lemma ChainIsPath(ops: seq<Op>, p: seq<ArtifactId>, x: ArtifactId, y: ArtifactId)
    requires x != y && forall i :: 0 <= i < |ops| ==> ops[i].Insert?
    ensures IsPath(RequestedPairs(ops), p, x, y) <==> Chain(ops, p, x, y)
  {
    hide RequestedPairs, Adjacent, AskedFor;
    forall i | 0 <= i < |p| - 1
      ensures Adjacent(RequestedPairs(ops), p[i], p[i + 1]) <==> AskedFor(ops, p[i], p[i + 1])
    {
      PairWasAskedFor(ops, p[i], p[i + 1]);
    }
  }

  /** Leads never make a group: fuzzy hashes, shared provenance and weak semantic edges alone
      leave nobody grouped. */
  lemma {:induction false} LeadsMakeNoGroup(held: set<ArtifactId>, ops: seq<Op>)
    requires forall i :: 0 <= i < |ops| ==>
               ops[i].Insert? && (ops[i].etype == ByteSimilar || ops[i].etype == SharedProvenance || ops[i].etype == SemanticWeak)
    ensures Run(held, ops).members == map[] && Run(held, ops).groups == {}
  {
    if ops != [] { LeadsMakeNoGroup(held, ops[..|ops| - 1]); }
  }

  /** The leads of the query layer are exactly the types that never merge. */
  lemma LeadsAreWhatDoesNotMerge(t: EdgeType)
    ensures IsWeakLead(t) <==> !MergesGroups(t)
    ensures IsWeakLead(t) <==> t == ByteSimilar || t == SharedProvenance || t == SemanticWeak
  {
  }
}
