/** The versioned similarity policy (similarity/model.rs): edge types, which of them merge
    variant groups, and how bidirectional coverage is classified. */
module SimilarityModel {
  import opened Options

  datatype EdgeType =
    | ExactCopy
    | NormalizedEquivalent
    | ByteSimilar
    | SharedProvenance
    | SemanticStrong
    | SemanticWeak

  const MATCH_TAU: real := 0.35
  const WEAK_COVERAGE: real := 0.35
  const STRONG_COVERAGE: real := 0.60
  const STRONG_MIN_PAIRS: nat := 3

  predicate MergesGroups(t: EdgeType) {
    t.ExactCopy? || t.NormalizedEquivalent? || t.SemanticStrong?
  }

  /** The edge types the query layer calls weak leads (neighborhood.rs). */
  predicate IsWeakLead(t: EdgeType) {
    t.ByteSimilar? || t.SharedProvenance? || t.SemanticWeak?
  }

  function ClassifySemanticEdge(aToB: real, bToA: real, matchedPairs: nat): Option<EdgeType> {
    if aToB >= STRONG_COVERAGE && bToA >= STRONG_COVERAGE && matchedPairs >= STRONG_MIN_PAIRS then
      Some(SemanticStrong)
    else if aToB >= WEAK_COVERAGE && bToA >= WEAK_COVERAGE then
      Some(SemanticWeak)
    else
      None
  }
}
