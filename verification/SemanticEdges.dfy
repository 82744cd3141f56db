/** From function coverage to an edge between two binaries (semantic/edges.rs with
    similarity/model.rs). */
module SemanticEdges {
  import opened Matching
  import opened Options
  import opened SimilarityModel

  /** The fraction of `n` functions that `matched` assigned pairs cover. */
  ghost function Fraction(matched: nat, n: nat): real {
    if n == 0 then 0.0 else matched as real / n as real
  }

  ghost function Decision(a: seq<FunctionRow>, b: seq<FunctionRow>): Option<EdgeType> {
    var matched := |Assigned(a, b, MATCH_TAU)|;
    ClassifySemanticEdge(Fraction(matched, |a|), Fraction(matched, |b|), matched)
  }

  /** The edge type and the score of the pair, the mean of both coverages. */
  method DecideEdge(a: seq<FunctionRow>, b: seq<FunctionRow>) returns (t: Option<EdgeType>, score: real)
    ensures t == Decision(a, b)
    ensures 2.0 * score == Fraction(|Assigned(a, b, MATCH_TAU)|, |a|) + Fraction(|Assigned(a, b, MATCH_TAU)|, |b|)
  {
    var cov := CoverageWithTau(a, b, MATCH_TAU);
    t := ClassifySemanticEdge(cov.aToB, cov.bToA, cov.matchedPairs);
    score := (cov.aToB + cov.bToA) / 2.0;
  }

  lemma CrossMultiply(m: real, d: real, x: real, y: real)
    requires d > 0.0 && y > 0.0
    ensures m / d >= x / y <==> m * y >= x * d
  {
    var a, b := m / d, x / y;
    assert m == a * d && x == b * y;
    Scaled(a - b, d * y);
    assert (a - b) * (d * y) == m * y - x * d by {
      assert (a * d) * y == a * (d * y) && (b * y) * d == b * (d * y);
    }
  }

  lemma Scaled(c: real, z: real)
    requires z > 0.0
    ensures c * z >= 0.0 <==> c >= 0.0
  {
  }

  lemma FractionAtLeast(matched: nat, n: nat, p: nat, q: nat)
    requires p > 0 && q > 0
    ensures Fraction(matched, n) >= p as real / q as real <==> n > 0 && q * matched >= p * n
  {
    if n > 0 {
      CrossMultiply(matched as real, n as real, p as real, q as real);
      assert matched as real * q as real == (q * matched) as real && p as real * n as real == (p * n) as real;
    } else {
      assert p as real / q as real > 0.0;
    }
  }

  /** In whole numbers, of the pairs that score at least 0.35: strong takes three of them assigned
      and three fifths of both sides, weak seven twentieths of both sides. */
  lemma DecisionInNumbers(a: seq<FunctionRow>, b: seq<FunctionRow>)
    ensures var m := |Assigned(a, b, 0.35)|;
            && (Decision(a, b) == Some(SemanticStrong) <==> m >= 3 && 5 * m >= 3 * |a| && 5 * m >= 3 * |b|)
            && (Decision(a, b) == Some(SemanticWeak) <==>
                  m > 0 && 20 * m >= 7 * |a| && 20 * m >= 7 * |b| && Decision(a, b) != Some(SemanticStrong))
            && (Decision(a, b).Some? ==> Decision(a, b).value.SemanticStrong? || Decision(a, b).value.SemanticWeak?)
  {
    var m := |Assigned(a, b, MATCH_TAU)|;
    MatchedAtMost(a, b);
    hide Assigned, Fraction;
    FractionAtLeast(m, |a|, 3, 5);
    FractionAtLeast(m, |b|, 3, 5);
    FractionAtLeast(m, |a|, 7, 20);
    FractionAtLeast(m, |b|, 7, 20);
    assert 3 as real / 5 as real == STRONG_COVERAGE && 7 as real / 20 as real == WEAK_COVERAGE;
  }

  lemma MatchedAtMost(a: seq<FunctionRow>, b: seq<FunctionRow>)
    ensures |Assigned(a, b, MATCH_TAU)| <= |a| && |Assigned(a, b, MATCH_TAU)| <= |b|
  {
    hide *;
    SidesArePartitioned(a, b, MATCH_TAU);
  }

  /** The edge between two binaries does not depend on the order in which their functions are
      listed. */
  lemma DecisionIgnoresInputOrder(a: seq<FunctionRow>, a': seq<FunctionRow>, b: seq<FunctionRow>, b': seq<FunctionRow>)
    requires multiset(a) == multiset(a') && multiset(b) == multiset(b')
    requires DistinctOffsets(a) && DistinctOffsets(b) && DistinctOffsets(a') && DistinctOffsets(b')
    ensures Decision(a, b) == Decision(a', b')
  {
    AssignmentIgnoresInputOrder(a, a', b, b', MATCH_TAU);
    assert |multiset(a)| == |multiset(a')| && |multiset(b)| == |multiset(b')|;
    SameNumberAtOffsets(a, b, Assigned(a, b, MATCH_TAU));
    SameNumberAtOffsets(a', b', Assigned(a', b', MATCH_TAU));
  }

  lemma SameNumberAtOffsets(a: seq<FunctionRow>, b: seq<FunctionRow>, ps: seq<Pair>)
    ensures |AllAtOffsets(a, b, ps)| == |ps|
  {
  }
}
