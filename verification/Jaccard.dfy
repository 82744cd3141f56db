/** Jaccard similarity of two token-hash lists (semantic/features.rs). */
module Jaccard {
  ghost predicate StrictlySorted(s: seq<nat>) {
    forall i, j :: 0 <= i < j < |s| ==> s[i] < s[j]
  }

  ghost function Elements(s: seq<nat>): set<nat> {
    set x | x in s
  }

  /** |A ∩ B| / |A ∪ B|, with two empty sets counted as equal. */
  ghost function SetJaccard(a: set<nat>, b: set<nat>): real {
    if a + b == {} then 1.0 else |a * b| as real / Positive(|a + b|)
  }

  ghost function Positive(n: nat): (r: real)
    ensures r != 0.0 && (n > 0 ==> r == n as real)
  {
    if n == 0 then 1.0 else n as real
  }

  /** The number of equal heads met by the two-pointer walk; defined for any two lists. */
  function Matches(a: seq<nat>, b: seq<nat>): (n: nat)
    ensures n <= |a| && n <= |b|
    decreases |a| + |b|
  {
    if a == [] || b == [] then 0
    else if a[0] < b[0] then Matches(a[1..], b)
    else if a[0] > b[0] then Matches(a, b[1..])
    else 1 + Matches(a[1..], b[1..])
  }

  function Score(a: seq<nat>, b: seq<nat>): real {
    var union := |a| + |b| - Matches(a, b);
    if union == 0 then 1.0 else Matches(a, b) as real / union as real
  }

  method Compute(a: seq<nat>, b: seq<nat>) returns (score: real)
    ensures score == Score(a, b)
  {
    if |a| == 0 && |b| == 0 {
      return 1.0;
    }
    var i, j, inter := 0, 0, 0;
    while i < |a| && j < |b|
      invariant i <= |a| && j <= |b| && inter <= i && inter <= j
      invariant inter + Matches(a[i..], b[j..]) == Matches(a, b)
      decreases |a| - i + |b| - j
    {
      if a[i] < b[j] {
        i := i + 1;
      } else if a[i] > b[j] {
        j := j + 1;
      } else {
        inter := inter + 1;
        i := i + 1;
        j := j + 1;
      }
    }
    var union := |a| + |b| - inter;
    if union == 0 { score := 1.0; } else { score := inter as real / union as real; }
  }

  lemma {:induction false} DistinctCount(s: seq<nat>)
    requires StrictlySorted(s)
    ensures |Elements(s)| == |s|
  {
    if s != [] {
      DistinctCount(s[1..]);
      assert Elements(s) == {s[0]} + Elements(s[1..]);
      assert s[0] !in Elements(s[1..]);
    }
  }

  /** A head below the other list's head is in neither's intersection. */
  lemma LowHeadDrops(a: seq<nat>, b: seq<nat>)
    requires StrictlySorted(a) && StrictlySorted(b) && a != [] && b != [] && a[0] < b[0]
    ensures Elements(a) * Elements(b) == Elements(a[1..]) * Elements(b)
  {
    assert Elements(a) == {a[0]} + Elements(a[1..]);
    assert a[0] !in Elements(b);
  }

  lemma EqualHeadsCount(a: seq<nat>, b: seq<nat>)
    requires StrictlySorted(a) && StrictlySorted(b) && a != [] && b != [] && a[0] == b[0]
    ensures |Elements(a) * Elements(b)| == 1 + |Elements(a[1..]) * Elements(b[1..])|
  {
    assert Elements(a) == {a[0]} + Elements(a[1..]) && a[0] !in Elements(a[1..]);
    assert Elements(b) == {b[0]} + Elements(b[1..]);
    assert Elements(a) * Elements(b) == {a[0]} + Elements(a[1..]) * Elements(b[1..]);
  }

  lemma {:induction false} MatchesCountIntersection(a: seq<nat>, b: seq<nat>)
    requires StrictlySorted(a) && StrictlySorted(b)
    ensures Matches(a, b) == |Elements(a) * Elements(b)|
    decreases |a| + |b|
  {
    if a == [] || b == [] {
      assert Elements(a) * Elements(b) == {};
    } else if a[0] < b[0] {
      MatchesCountIntersection(a[1..], b);
      LowHeadDrops(a, b);
    } else if a[0] > b[0] {
      MatchesCountIntersection(a, b[1..]);
      LowHeadDrops(b, a);
      assert Elements(a) * Elements(b) == Elements(b) * Elements(a);
      assert Elements(a) * Elements(b[1..]) == Elements(b[1..]) * Elements(a);
    } else {
      MatchesCountIntersection(a[1..], b[1..]);
      EqualHeadsCount(a, b);
    }
  }

  /** On the sorted deduplicated lists the extractor produces, the walk computes the ratio of
      the set intersection to the set union. */
  lemma ScoreIsSetJaccard(a: seq<nat>, b: seq<nat>)
    requires StrictlySorted(a) && StrictlySorted(b)
    ensures Score(a, b) == SetJaccard(Elements(a), Elements(b))
  {
    var A, B := Elements(a), Elements(b);
    DistinctCount(a);
    DistinctCount(b);
    MatchesCountIntersection(a, b);
    assert |A + B| == |A| + |B| - |A * B|;
    if A + B == {} { assert |A + B| == 0; } else { assert |A + B| != 0; }
  }

  lemma ScoreInUnitInterval(a: seq<nat>, b: seq<nat>)
    ensures 0.0 <= Score(a, b) <= 1.0
  {
    var m, u := Matches(a, b), |a| + |b| - Matches(a, b);
    if u != 0 {
      RatioBounds(m, u);
    }
  }

  lemma RatioBounds(m: nat, u: nat)
    requires u > 0
    ensures 0.0 <= m as real / u as real
    ensures m as real / u as real <= 1.0 <==> m <= u
    ensures m as real / u as real == 1.0 <==> m == u
  {
    var q := m as real / u as real;
    assert q * u as real == m as real;
  }

  lemma {:induction false} MatchesSymmetric(a: seq<nat>, b: seq<nat>)
    ensures Matches(a, b) == Matches(b, a)
    decreases |a| + |b|
  {
    if a != [] && b != [] {
      if a[0] < b[0] { MatchesSymmetric(a[1..], b); }
      else if a[0] > b[0] { MatchesSymmetric(a, b[1..]); }
      else { MatchesSymmetric(a[1..], b[1..]); }
    }
  }

  lemma ScoreSymmetric(a: seq<nat>, b: seq<nat>)
    ensures Score(a, b) == Score(b, a)
  {
    MatchesSymmetric(a, b);
  }

  /** A perfect score means equal lists, sorted or not. */
  lemma PerfectScoreMeansEqual(a: seq<nat>, b: seq<nat>)
    ensures Score(a, b) == 1.0 <==> a == b
  {
    var m, u := Matches(a, b), |a| + |b| - Matches(a, b);
    if u != 0 {
      RatioBounds(m, u);
      FullMatch(a, b);
    }
  }

  lemma {:induction false} FullMatch(a: seq<nat>, b: seq<nat>)
    ensures |a| == |b| == Matches(a, b) <==> a == b
    decreases |a| + |b|
  {
    if a != [] && b != [] {
      assert a == [a[0]] + a[1..] && b == [b[0]] + b[1..];
      FullMatch(a[1..], b[1..]);
    }
  }
}
