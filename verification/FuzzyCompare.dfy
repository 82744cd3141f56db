/** Comparing two printed digests (fuzzy.rs): run collapsing, edit distance in two rows, the
    common-block test, and the score.

    A char stands for one byte of a text, as the code works on bytes. Block sizes wrap as 32-bit
    numbers and the score's cap as a signed one, as in a release build. */
module FuzzyCompare {
  import opened Options
  import opened FuzzyDigest
  import opened Numbers
  import opened Bytes
  import RollingHash

  // ---------------------------------------------------------------- runs

  /** How many times the last character is repeated at the end. */
  function TrailingRun(s: string): (n: nat)
    ensures s != [] <==> n > 0
    ensures n <= |s|
  {
    if s == [] then 0
    else if |s| > 1 && s[|s| - 2] == s[|s| - 1] then TrailingRun(s[..|s| - 1]) + 1
    else 1
  }

  /** Every run of equal characters, cut to three. */
  function CollapseRuns(s: string): (r: string)
    ensures |r| <= |s|
  {
    if s == [] then [] else CollapseRuns(s[..|s| - 1]) + (if TrailingRun(s) <= 3 then [s[|s| - 1]] else [])
  }

  /** Four equal characters in a row, seen from the last one. */
  lemma {:induction false} RunOfFour(s: string)
    requires |s| >= 4
    ensures TrailingRun(s) >= 4 <==> s[|s| - 1] == s[|s| - 2] == s[|s| - 3] == s[|s| - 4]
  {
    var n := |s|;
    assert s[..n - 1][..n - 2] == s[..n - 2] && s[..n - 2][..n - 3] == s[..n - 3];
    assert s[..n - 1][n - 2] == s[n - 2] && s[..n - 2][n - 3] == s[n - 3] && s[..n - 3][n - 4] == s[n - 4];
    assert TrailingRun(s[..n - 3]) >= 1;
    assert TrailingRun(s[..n - 2]) == if s[n - 4] == s[n - 3] then TrailingRun(s[..n - 3]) + 1 else 1;
    assert TrailingRun(s[..n - 1]) == if s[n - 3] == s[n - 2] then TrailingRun(s[..n - 2]) + 1 else 1;
  }

  /** The test of the loop decides whether the run has passed three. */
  lemma CollapseNext(s: string, i: nat)
    requires i < |s|
    ensures CollapseRuns(s[..i + 1])
         == CollapseRuns(s[..i]) + if i < 3 || s[i] != s[i - 1] || s[i] != s[i - 2] || s[i] != s[i - 3] then [s[i]] else []
  {
    assert s[..i + 1][..i] == s[..i];
    if i >= 3 { RunOfFour(s[..i + 1]); }
    hide TrailingRun;
  }

  method StripSequences(s: string) returns (r: string)
    ensures r == CollapseRuns(s)
  {
    assert CollapseRuns([]) == [];
    hide CollapseRuns;
    r := [];
    var i := 0;
    while i < |s| && i < 3
      invariant 0 <= i <= |s| && i <= 3 && r == CollapseRuns(s[..i])
    {
      CollapseNext(s, i);
      r := r + [s[i]];
      i := i + 1;
    }
    while i < |s|
      invariant 0 <= i <= |s| && (i < |s| ==> i >= 3)
      invariant r == CollapseRuns(s[..i])
    {
      CollapseNext(s, i);
      if s[i] != s[i - 1] || s[i] != s[i - 2] || s[i] != s[i - 3] {
        r := r + [s[i]];
      }
      i := i + 1;
    }
    assert s[..|s|] == s;
  }

  /** The collapsed string ends in the same run, cut to three. */
  lemma {:induction false} CollapsedRun(s: string)
    ensures var r := CollapseRuns(s);
            && TrailingRun(r) == (if TrailingRun(s) <= 3 then TrailingRun(s) else 3)
            && (s != [] ==> r != [] && r[|r| - 1] == s[|s| - 1])
  {
    if s != [] {
      var t := s[..|s| - 1];
      CollapsedRun(t);
      var r := CollapseRuns(s);
      if TrailingRun(s) <= 3 {
        assert r[..|r| - 1] == CollapseRuns(t);
      } else {
        assert r == CollapseRuns(t);
      }
    }
  }

  /** Collapsing twice is collapsing once: what comes out has no run of four. */
  lemma {:induction false} CollapseIsIdempotent(s: string)
    ensures CollapseRuns(CollapseRuns(s)) == CollapseRuns(s)
  {
    if s != [] {
      var t := s[..|s| - 1];
      CollapseIsIdempotent(t);
      CollapsedRun(s);
      var r := CollapseRuns(s);
      if TrailingRun(s) <= 3 {
        assert r[..|r| - 1] == CollapseRuns(t);
      } else {
        assert r == CollapseRuns(t);
      }
    }
  }

  // ---------------------------------------------------------------- edit distance

  function EditDistance(s: string, t: string): nat
    decreases |s| + |t|
  {
    if s == [] then |t|
    else if t == [] then |s|
    else
      var s', t' := s[..|s| - 1], t[..|t| - 1];
      Min(Min(EditDistance(s, t') + 1, EditDistance(s', t) + 1),
          EditDistance(s', t') + if s[|s| - 1] == t[|t| - 1] then 0 else 1)
  }

  /** One edit of a text; `Same` costs nothing. */
  datatype Edit = Same(c: char) | Change(from: char, to: char) | Drop(c: char) | Add(c: char)

  function Consumed(x: Edit): string {
    match x
    case Same(c) => [c]
    case Change(a, _) => [a]
    case Drop(c) => [c]
    case Add(_) => []
  }

  function Produced(x: Edit): string {
    match x
    case Same(c) => [c]
    case Change(_, b) => [b]
    case Drop(_) => []
    case Add(c) => [c]
  }

  function Source(e: seq<Edit>): string {
    if e == [] then [] else Source(e[..|e| - 1]) + Consumed(e[|e| - 1])
  }

  function Target(e: seq<Edit>): string {
    if e == [] then [] else Target(e[..|e| - 1]) + Produced(e[|e| - 1])
  }

  function Cost(e: seq<Edit>): nat {
    if e == [] then 0 else Cost(e[..|e| - 1]) + if e[|e| - 1].Same? then 0 else 1
  }

  /** `e` turns `s` into `t` at cost `d`. */
  ghost predicate Rewrites(e: seq<Edit>, s: string, t: string, d: nat) {
    Source(e) == s && Target(e) == t && Cost(e) == d
  }

  lemma {:induction false} OneMoreCharacter(s: string, t: string)
    ensures s != [] ==> EditDistance(s, t) <= EditDistance(s[..|s| - 1], t) + 1
    ensures t != [] ==> EditDistance(s, t) <= EditDistance(s, t[..|t| - 1]) + 1
  {
    if s != [] && t == [] { assert EditDistance(s[..|s| - 1], t) == |s| - 1; }
  }

  lemma OneMoreEdit(s: string, t: string, x: Edit)
    ensures EditDistance(s + Consumed(x), t + Produced(x)) <= EditDistance(s, t) + if x.Same? then 0 else 1
  {
    var s', t' := s + Consumed(x), t + Produced(x);
    OneMoreCharacter(s', t');
    match x
    case Same(_) => assert s'[..|s|] == s && t'[..|t|] == t;
    case Change(_, _) => assert s'[..|s|] == s && t'[..|t|] == t;
    case Drop(_) => assert s'[..|s|] == s && t' == t;
    case Add(_) => assert t'[..|t|] == t && s' == s;
  }

  /** No list of edits from `s` to `t` is cheaper. */
  lemma {:induction false} EditDistanceIsALowerBound(e: seq<Edit>)
    ensures EditDistance(Source(e), Target(e)) <= Cost(e)
  {
    if e == [] {
      assert EditDistance([], []) == 0;
    } else {
      hide EditDistance, Consumed, Produced;
      EditDistanceIsALowerBound(e[..|e| - 1]);
      OneMoreEdit(Source(e[..|e| - 1]), Target(e[..|e| - 1]), e[|e| - 1]);
    }
  }

  /** A cheapest list of edits. */
  ghost function Cheapest(s: string, t: string): seq<Edit>
    decreases |s| + |t|
  {
    if s == [] then (if t == [] then [] else Cheapest(s, t[..|t| - 1]) + [Add(t[|t| - 1])])
    else if t == [] then Cheapest(s[..|s| - 1], t) + [Drop(s[|s| - 1])]
    else
      var s', t', a, b := s[..|s| - 1], t[..|t| - 1], s[|s| - 1], t[|t| - 1];
      if EditDistance(s, t) == EditDistance(s, t') + 1 then Cheapest(s, t') + [Add(b)]
      else if EditDistance(s, t) == EditDistance(s', t) + 1 then Cheapest(s', t) + [Drop(a)]
      else Cheapest(s', t') + [if a == b then Same(a) else Change(a, b)]
  }

  lemma Appended(e: seq<Edit>, x: Edit, s: string, t: string, d: nat)
    requires Rewrites(e, s, t, d)
    ensures Rewrites(e + [x], s + Consumed(x), t + Produced(x), d + if x.Same? then 0 else 1)
  {
    assert (e + [x])[..|e|] == e;
  }

  /** The recursive distance is the least number of edits: some list of edits costs exactly
      that. */
  lemma {:induction false} EditDistanceIsReached(s: string, t: string)
    ensures Rewrites(Cheapest(s, t), s, t, EditDistance(s, t))
    decreases |s| + |t|
  {
    if s == [] && t == [] {
      return;
    }
    hide Rewrites;
    assert s + [] == s && t + [] == t;
    if s == [] {
      var t', b := t[..|t| - 1], t[|t| - 1];
      assert t == t' + [b];
      EditDistanceIsReached(s, t');
      Appended(Cheapest(s, t'), Add(b), s, t', |t'|);
    } else if t == [] {
      var s', a := s[..|s| - 1], s[|s| - 1];
      assert s == s' + [a];
      EditDistanceIsReached(s', t);
      Appended(Cheapest(s', t), Drop(a), s', t, |s'|);
    } else {
      EditDistanceIsReachedInside(s, t);
    }
  }

  lemma {:induction false} EditDistanceIsReachedInside(s: string, t: string)
    requires s != [] && t != []
    ensures Rewrites(Cheapest(s, t), s, t, EditDistance(s, t))
    decreases |s| + |t|, 0
  {
    var s', t', a, b := s[..|s| - 1], t[..|t| - 1], s[|s| - 1], t[|t| - 1];
    assert s == s' + [a] && t == t' + [b] && s + [] == s && t + [] == t;
    CheapestStep(s, t);
    hide Rewrites, EditDistance, Cheapest;
    if EditDistance(s, t) == EditDistance(s, t') + 1 {
      EditDistanceIsReached(s, t');
      Appended(Cheapest(s, t'), Add(b), s, t', EditDistance(s, t'));
    } else if EditDistance(s, t) == EditDistance(s', t) + 1 {
      EditDistanceIsReached(s', t);
      Appended(Cheapest(s', t), Drop(a), s', t, EditDistance(s', t));
    } else {
      EditDistanceIsReached(s', t');
      Appended(Cheapest(s', t'), if a == b then Same(a) else Change(a, b), s', t', EditDistance(s', t'));
    }
  }

  lemma CheapestStep(s: string, t: string)
    requires s != [] && t != []
    ensures var s', t', a, b := s[..|s| - 1], t[..|t| - 1], s[|s| - 1], t[|t| - 1];
            if EditDistance(s, t) == EditDistance(s, t') + 1 then Cheapest(s, t) == Cheapest(s, t') + [Add(b)]
            else if EditDistance(s, t) == EditDistance(s', t) + 1 then Cheapest(s, t) == Cheapest(s', t) + [Drop(a)]
            else
              && Cheapest(s, t) == Cheapest(s', t') + [if a == b then Same(a) else Change(a, b)]
              && EditDistance(s, t) == EditDistance(s', t') + if a == b then 0 else 1
  {
  }

  lemma {:induction false} EditDistanceSymmetric(s: string, t: string)
    ensures EditDistance(s, t) == EditDistance(t, s)
    decreases |s| + |t|
  {
    if s != [] && t != [] {
      EditDistanceSymmetric(s[..|s| - 1], t);
      EditDistanceSymmetric(s, t[..|t| - 1]);
      EditDistanceSymmetric(s[..|s| - 1], t[..|t| - 1]);
    }
  }

  /** Zero for equal texts only, and never more than the longer text. */
  lemma {:induction false} EditDistanceBounds(s: string, t: string)
    ensures EditDistance(s, t) <= Max(|s|, |t|)
    ensures EditDistance(s, t) == 0 <==> s == t
    decreases |s| + |t|
  {
    if s != [] && t != [] {
      var s', t' := s[..|s| - 1], t[..|t| - 1];
      assert s == s' + [s[|s| - 1]] && t == t' + [t[|t| - 1]];
      EditDistanceBounds(s', t');
      if s == t { assert s' == t'; }
    }
  }

  /** Row `i` of the table up to column `n`. */
  ghost predicate IsRow(row: seq<nat>, s: string, t: string, i: nat, n: nat)
    requires i <= |s| && n <= |t| && |row| == |t| + 1
  {
    forall j :: 0 <= j <= n ==> row[j] == EditDistance(s[..i], t[..j])
  }

  lemma NextCell(s: string, t: string, i: nat, j: nat)
    requires i < |s| && j < |t|
    ensures EditDistance(s[..i + 1], t[..j + 1])
         == Min(Min(EditDistance(s[..i + 1], t[..j]) + 1, EditDistance(s[..i], t[..j + 1]) + 1),
                EditDistance(s[..i], t[..j]) + if s[i] == t[j] then 0 else 1)
  {
    assert s[..i + 1][..i] == s[..i] && t[..j + 1][..j] == t[..j];
  }

  lemma FirstRow(s: string, t: string, row: seq<nat>)
    requires |row| == |t| + 1 && forall j :: 0 <= j < |row| ==> row[j] == j
    ensures IsRow(row, s, t, 0, |t|)
  {
  }

  lemma FirstCell(s: string, t: string, row: seq<nat>, i: nat)
    requires i < |s| && |row| == |t| + 1 && row[0] == i + 1
    ensures IsRow(row, s, t, i + 1, 0)
  {
  }

  lemma GrowRow(s: string, t: string, above: seq<nat>, row: seq<nat>, i: nat, j: nat, row': seq<nat>)
    requires i < |s| && j < |t| && |row| == |above| == |t| + 1
    requires IsRow(above, s, t, i, |t|) && IsRow(row, s, t, i + 1, j)
    requires row' == row[j + 1 := Min(Min(row[j] + 1, above[j + 1] + 1), above[j] + if s[i] == t[j] then 0 else 1)]
    ensures IsRow(row', s, t, i + 1, j + 1)
  {
    NextCell(s, t, i, j);
    hide EditDistance;
  }

  lemma LastCell(s: string, t: string, row: seq<nat>)
    requires |row| == |t| + 1 && IsRow(row, s, t, |s|, |t|)
    ensures row[|t|] == EditDistance(s, t)
  {
    assert s[..|s|] == s && t[..|t|] == t;
  }

  /** The inner loop: the row below `v0`, cell by cell. */
  method FillRow(s: string, t: string, i: nat, v0: array<nat>, v1: array<nat>)
    requires i < |s| && v0.Length == v1.Length == |t| + 1 && v0 != v1
    requires IsRow(v0[..], s, t, i, |t|)
    modifies v1
    ensures IsRow(v1[..], s, t, i + 1, |t|)
  {
    hide EditDistance, IsRow;
    v1[0] := i + 1;
    FirstCell(s, t, v1[..], i);
    ghost var above := v0[..];
    for j := 0 to |t|
      invariant v0[..] == above && IsRow(v1[..], s, t, i + 1, j)
    {
      var cost := if s[i] == t[j] then 0 else 1;
      ghost var before := v1[..];
      v1[j + 1] := Min(Min(v1[j] + 1, v0[j + 1] + 1), v0[j] + cost);
      GrowRow(s, t, above, before, i, j, v1[..]);
    }
  }

  /** Two rows that trade places compute the recursive distance. */
  method Levenshtein(s: string, t: string) returns (d: nat)
    ensures d == EditDistance(s, t)
  {
    EditDistanceBounds(s, t);
    if s == t { return 0; }
    if |s| == 0 { return |t|; }
    if |t| == 0 { return |s|; }
    hide EditDistance, IsRow;
    var v0 := new nat[|t| + 1](j => j);
    var v1 := new nat[|t| + 1](_ => 0);
    FirstRow(s, t, v0[..]);
    for i := 0 to |s|
      invariant v0.Length == v1.Length == |t| + 1 && v0 != v1 && fresh(v0) && fresh(v1)
      invariant IsRow(v0[..], s, t, i, |t|)
    {
      FillRow(s, t, i, v0, v1);
      v0, v1 := v1, v0;
    }
    LastCell(s, t, v0[..]);
    return v0[|t|];
  }

  // ---------------------------------------------------------------- a common block

  const BLOCK: nat := RollingHash.ROLL_WINDOW

  predicate Agree(s: string, t: string, i: nat, j: nat, n: nat) {
    i + n <= |s| && j + n <= |t| && s[i..i + n] == t[j..j + n]
  }

  predicate BlockAt(s: string, t: string, i: nat, j: nat) {
    Agree(s, t, i, j, BLOCK)
  }

  lemma AgreeGrows(s: string, t: string, i: nat, j: nat, n: nat)
    requires Agree(s, t, i, j, n) && i + n < |s| && j + n < |t|
    ensures Agree(s, t, i, j, n + 1) <==> s[i + n] == t[j + n]
  {
    assert s[i..i + n + 1] == s[i..i + n] + [s[i + n]];
    assert t[j..j + n + 1] == t[j..j + n] + [t[j + n]];
  }

  lemma AgreeShrinks(s: string, t: string, i: nat, j: nat, n: nat, m: nat)
    requires Agree(s, t, i, j, n) && m <= n
    ensures Agree(s, t, i, j, m)
  {
    assert s[i..i + m] == s[i..i + n][..m];
    assert t[j..j + m] == t[j..j + n][..m];
  }

  /** The two texts have seven consecutive characters in common. */
  ghost predicate ShareBlock(s: string, t: string) {
    exists i: nat, j: nat :: BlockAt(s, t, i, j)
  }

  lemma ShareBlockSymmetric(s: string, t: string)
    ensures ShareBlock(s, t) == ShareBlock(t, s)
  {
    if ShareBlock(s, t) {
      var i: nat, j: nat :| BlockAt(s, t, i, j);
      assert BlockAt(t, s, j, i);
    }
    if ShareBlock(t, s) {
      var i: nat, j: nat :| BlockAt(t, s, i, j);
      assert BlockAt(s, t, j, i);
    }
  }

  /** A run that stopped before seven does not reach seven. */
  lemma LongestRun(s: string, t: string, i: nat, j: nat, n: nat)
    requires Agree(s, t, i, j, n) && n < BLOCK
    requires i + n == |s| || j + n == |t| || s[i + n] != t[j + n]
    ensures !BlockAt(s, t, i, j)
  {
    if i + n < |s| && j + n < |t| {
      AgreeGrows(s, t, i, j, n);
      if Agree(s, t, i, j, BLOCK) { AgreeShrinks(s, t, i, j, BLOCK, n + 1); }
    }
  }

  method CommonSubstring(s1: string, s2: string) returns (found: bool)
    ensures found <==> ShareBlock(s1, s2)
  {
    for i := 0 to |s1|
      invariant forall i': nat, j: nat :: i' < i ==> !BlockAt(s1, s2, i', j)
    {
      for j := 0 to |s2|
        invariant forall i': nat, j': nat :: i' < i ==> !BlockAt(s1, s2, i', j')
        invariant forall j': nat :: j' < j ==> !BlockAt(s1, s2, i, j')
      {
        var cur := 0;
        while i + cur < |s1| && j + cur < |s2| && s1[i + cur] == s2[j + cur]
          invariant Agree(s1, s2, i, j, cur)
        {
          AgreeGrows(s1, s2, i, j, cur);
          cur := cur + 1;
        }
        if cur >= RollingHash.ROLL_WINDOW {
          AgreeShrinks(s1, s2, i, j, cur, BLOCK);
          assert BlockAt(s1, s2, i, j);
          return true;
        }
        LongestRun(s1, s2, i, j, cur);
      }
    }
    return false;
  }

  // ---------------------------------------------------------------- the score

  /** The signed reading of the low 32 bits. */
  function I32(x: int): (r: int)
    ensures -0x8000_0000 <= r < 0x8000_0000
    ensures -0x8000_0000 <= x < 0x8000_0000 ==> r == x
  {
    var w := x % RollingHash.WORD;
    if w >= 0x8000_0000 then w - RollingHash.WORD else w
  }

  lemma SameRemainder(x: int, y: int, k: int, d: int)
    requires d > 0 && x == y + k * d
    ensures x % d == y % d
  {
    var q, r := y / d, y % d;
    assert (q + k) * d == q * d + k * d;
    assert x == (q + k) * d + r;
    var q', r' := x / d, x % d;
    assert (q' - (q + k)) * d == q' * d - (q + k) * d;
    if q' > q + k { AtLeastOnce(q' - (q + k), d); }
    assert (q + k - q') * d == (q + k) * d - q' * d;
    if q' < q + k { AtLeastOnce(q + k - q', d); }
  }

  /** Casting a factor first changes nothing about a wrapping product. */
  lemma CastFactor(x: int, y: int)
    ensures I32(x * I32(y)) == I32(x * y)
  {
    var d := RollingHash.WORD;
    var k := if y % d >= 0x8000_0000 then y / d + 1 else y / d;
    assert I32(y) == y - k * d;
    assert x * (y - k * d) == x * y + (-(x * k)) * d;
    SameRemainder(x * I32(y), x * y, -(x * k), d);
  }

  /** The most a score may be at a block size: a 32-bit product, which may wrap. */
  function Cap(s: string, t: string, blockSize: nat): int {
    I32((blockSize / BLOCKSIZE_MIN) * Min(|s|, |t|))
  }

  /** How much of the two texts differs, in the code's two truncating divisions. */
  function Score(s: string, t: string, blockSize: nat): int
    requires |s| + |t| > 0
  {
    var scaled := (EditDistance(s, t) * SPAMSUM_LENGTH) / (|s| + |t|);
    var score := 100 - (100 * scaled) / SPAMSUM_LENGTH;
    if score > Cap(s, t, blockSize) then Cap(s, t, blockSize) else score
  }

  ghost function ScoreStringsSpec(s: string, t: string, blockSize: nat): int {
    if ShareBlock(s, t) then Score(s, t, blockSize) else 0
  }

  method ScoreStrings(s1: string, s2: string, blockSize: nat) returns (score: int)
    requires blockSize < RollingHash.WORD
    ensures score == ScoreStringsSpec(s1, s2, blockSize)
  {
    hide I32;
    var common := CommonSubstring(s1, s2);
    if !common { return 0; }
    var dist := Levenshtein(s1, s2);
    score := (dist * SPAMSUM_LENGTH) / (|s1| + |s2|);
    score := (100 * score) / SPAMSUM_LENGTH;
    score := 100 - score;
    CastFactor(blockSize / BLOCKSIZE_MIN, Min(|s1|, |s2|));
    var cap := I32(I32(blockSize / BLOCKSIZE_MIN) * I32(Min(|s1|, |s2|)));
    if score > cap { score := cap; }
  }

  lemma QuotientAtMost(x: nat, d: nat, k: nat)
    requires d > 0 && x <= k * d
    ensures x / d <= k
  {
    var q := x / d;
    assert x == q * d + x % d;
    assert (q - k) * d == q * d - k * d;
    if q > k { AtLeastOnce(q - k, d); }
  }

  /** The two truncating divisions stay between 0 and 100. */
  lemma TwoDivisions(d: nat, n: nat)
    requires 0 < n && d <= n
    ensures 0 <= (100 * ((d * SPAMSUM_LENGTH) / n)) / SPAMSUM_LENGTH <= 100
  {
    QuotientAtMost(d * SPAMSUM_LENGTH, n, SPAMSUM_LENGTH);
  }

  /** The score in numbers. Of texts that share seven consecutive characters: how many
      sixty-fourths of both lengths the distance is, and how many hundredths that is, both rounded
      down, taken from 100; and never more than the cap. */
  lemma ScoreInNumbers(s: string, t: string, blockSize: nat) returns (sixtyFourths: nat, hundredths: nat)
    requires (blockSize / 3) * Min(|s|, |t|) < 0x8000_0000
    ensures !(exists i: nat, j: nat :: Agree(s, t, i, j, 7)) ==>
              ScoreStringsSpec(s, t, blockSize) == 0
    ensures (exists i: nat, j: nat :: Agree(s, t, i, j, 7)) ==>
              && sixtyFourths * (|s| + |t|) <= 64 * EditDistance(s, t) < (sixtyFourths + 1) * (|s| + |t|)
              && 64 * hundredths <= 100 * sixtyFourths < 64 * (hundredths + 1)
              && ScoreStringsSpec(s, t, blockSize) == (if 100 - hundredths > (blockSize / 3) * Min(|s|, |t|)
                                                       then (blockSize / 3) * Min(|s|, |t|) else 100 - hundredths)
  {
    hide *;
    sixtyFourths, hundredths := 0, 0;
    SharedInDetail(s, t);
    if ShareBlock(s, t) {
      SharersAreLong(s, t);
      sixtyFourths, hundredths := BothDivisions(EditDistance(s, t), |s| + |t|);
      ScoreOfSharers(s, t, blockSize);
    } else {
      assert ScoreStringsSpec(s, t, blockSize) == 0 by { NothingShared(s, t, blockSize); }
    }
  }

  lemma NothingShared(s: string, t: string, blockSize: nat)
    requires !ShareBlock(s, t)
    ensures ScoreStringsSpec(s, t, blockSize) == 0
  {
  }

  lemma SharersAreLong(s: string, t: string)
    requires ShareBlock(s, t)
    ensures |s| >= 7 && |t| >= 7
  {
  }

  lemma ScoreOfSharers(s: string, t: string, blockSize: nat)
    requires ShareBlock(s, t) && |s| + |t| > 0 && (blockSize / 3) * Min(|s|, |t|) < 0x8000_0000
    ensures var score := 100 - (100 * ((EditDistance(s, t) * 64) / (|s| + |t|))) / 64;
            ScoreStringsSpec(s, t, blockSize) == if score > (blockSize / 3) * Min(|s|, |t|) then (blockSize / 3) * Min(|s|, |t|) else score
  {
    CapIs(s, t, blockSize);
    hide EditDistance, ShareBlock, Cap;
  }

  lemma BothDivisions(d: nat, n: nat) returns (q: nat, p: nat)
    requires n > 0
    ensures q * n <= 64 * d < (q + 1) * n && 64 * p <= 100 * q < 64 * (p + 1)
    ensures p == (100 * ((d * 64) / n)) / 64
  {
    q := (d * 64) / n;
    p := (100 * q) / 64;
    Quotient(d * 64, n);
  }

  lemma Quotient(x: nat, n: nat)
    requires n > 0
    ensures (x / n) * n <= x < (x / n + 1) * n
  {
    assert x == (x / n) * n + x % n;
    assert (x / n + 1) * n == (x / n) * n + n;
  }

  lemma CapIs(s: string, t: string, blockSize: nat)
    requires (blockSize / 3) * Min(|s|, |t|) < 0x8000_0000
    ensures Cap(s, t, blockSize) == (blockSize / 3) * Min(|s|, |t|)
  {
    ProductAtMost(0, 0, blockSize / 3, Min(|s|, |t|));
  }

  lemma SharedInDetail(s: string, t: string)
    ensures ShareBlock(s, t) <==> exists i: nat, j: nat :: Agree(s, t, i, j, 7)
  {
    forall i: nat, j: nat ensures BlockAt(s, t, i, j) <==> Agree(s, t, i, j, 7) {}
  }

  /** So the score follows the share of both texts that the edits leave: in hundredths it is never
      below it, and less than 164 sixty-fourths above. */
  lemma ScoreFollowsDistance(s: string, t: string, blockSize: nat)
    requires ShareBlock(s, t) && 100 <= (blockSize / 3) * Min(|s|, |t|) < 0x8000_0000
    ensures var n, score := |s| + |t|, ScoreStringsSpec(s, t, blockSize);
            && 100 * (n - EditDistance(s, t)) <= score * n
            && 64 * (score * n) < 6400 * (n - EditDistance(s, t)) + 164 * n
  {
    SharedInDetail(s, t);
    hide *;
    var q, p := ScoreInNumbers(s, t, blockSize);
    assert ScoreStringsSpec(s, t, blockSize) + p == 100;
    Rounded(|s| + |t|, EditDistance(s, t), q, p);
  }

  lemma Rounded(n: nat, d: nat, q: nat, p: nat)
    requires q * n <= 64 * d < (q + 1) * n && 64 * p <= 100 * q < 64 * (p + 1)
    ensures 100 * (n - d) <= (100 - p) * n && 64 * ((100 - p) * n) < 6400 * (n - d) + 164 * n
  {
    assert (q + 1) * n == q * n + n;
    assert (100 - p) * n == 100 * n - p * n;
    Scaled(100 * q - 64 * p, n);
    Scaled(64 * p + 63 - 100 * q, n);
    assert (100 * q - 64 * p) * n == 100 * (q * n) - 64 * (p * n);
    assert (64 * p + 63 - 100 * q) * n == 64 * (p * n) + 63 * n - 100 * (q * n);
  }

  lemma Scaled(x: int, n: nat)
    requires x >= 0
    ensures x * n >= 0
  {
  }

  ghost predicate CapFits(s: string, t: string, blockSize: nat) {
    ShareBlock(s, t) ==> Cap(s, t, blockSize) >= 0
  }

  /** Never above 100, and below 0 exactly when the cap of two sharing texts has wrapped. */
  lemma ScoreInRangeExactly(s: string, t: string, blockSize: nat)
    ensures ScoreStringsSpec(s, t, blockSize) <= 100
    ensures 0 <= ScoreStringsSpec(s, t, blockSize) <==> CapFits(s, t, blockSize)
  {
    hide I32;
    if ShareBlock(s, t) {
      EditDistanceBounds(s, t);
      hide EditDistance;
      TwoDivisions(EditDistance(s, t), |s| + |t|);
    }
  }

  lemma ProductAtMost(x: nat, y: nat, a: nat, b: nat)
    requires x <= a && y <= b
    ensures 0 <= x * y <= a * b
  {
    assert x * y <= a * y && a * y <= a * b by {
      assert (a - x) * y >= 0 && a * (b - y) >= 0;
      assert (a - x) * y == a * y - x * y && a * (b - y) == a * b - a * y;
    }
  }

  lemma SmallCapFits(s: string, t: string, blockSize: nat, pieces: nat, most: nat)
    requires blockSize / BLOCKSIZE_MIN <= pieces && Min(|s|, |t|) <= most && pieces * most < 0x8000_0000
    ensures CapFits(s, t, blockSize)
  {
    ProductAtMost(blockSize / BLOCKSIZE_MIN, Min(|s|, |t|), pieces, most);
  }

  lemma ScoreSymmetric(s: string, t: string, blockSize: nat)
    ensures ScoreStringsSpec(s, t, blockSize) == ScoreStringsSpec(t, s, blockSize)
  {
    ShareBlockSymmetric(s, t);
    EditDistanceSymmetric(s, t);
    assert |s| + |t| == |t| + |s| && Min(|s|, |t|) == Min(|t|, |s|);
  }

  // ---------------------------------------------------------------- parsing a digest

  datatype Parsed = Parsed(blockSize: nat, first: string, second: string)

  predicate IsDigit(c: char) {
    '0' <= c <= '9'
  }

  function DigitValue(c: char): nat
    requires IsDigit(c)
  {
    c as nat - '0' as nat
  }

  function Number(s: string): nat
    requires forall i :: 0 <= i < |s| ==> IsDigit(s[i])
  {
    if s == [] then 0 else 10 * Number(s[..|s| - 1]) + DigitValue(s[|s| - 1])
  }

  /** Decimal digits after at most one plus sign, below 2^32. */
  function ParseU32(s: string): (n: Option<nat>)
    ensures n.Some? ==> n.value < RollingHash.WORD
  {
    var digits := if |s| > 0 && s[0] == '+' then s[1..] else s;
    if digits != [] && (forall i :: 0 <= i < |digits| ==> IsDigit(digits[i])) && Number(digits) < RollingHash.WORD
    then Some(Number(digits)) else None
  }

  /** Position of the first colon, or the length. */
  function Colon(s: string): (i: nat)
    ensures i <= |s| && (i < |s| ==> s[i] == ':')
    ensures forall j :: 0 <= j < i ==> s[j] != ':'
  {
    if s == [] || s[0] == ':' then 0 else 1 + Colon(s[1..])
  }

  /** At most three parts: whatever follows the second colon is the third. */
  function ParseDigest(s: string): (p: Option<Parsed>)
    ensures p.Some? ==> p.value.blockSize < RollingHash.WORD
  {
    var i := Colon(s);
    if i == |s| then None
    else
      var rest := s[i + 1..];
      var j := Colon(rest);
      if j == |rest| || ParseU32(s[..i]).None? then None
      else Some(Parsed(ParseU32(s[..i]).value, rest[..j], rest[j + 1..]))
  }

  lemma {:induction false} NumberOfDecimal(n: nat)
    ensures Decimal(n) != []
    ensures forall i :: 0 <= i < |Decimal(n)| ==> IsDigit(Decimal(n)[i])
    ensures Number(Decimal(n)) == n
  {
    if n >= 10 {
      NumberOfDecimal(n / 10);
      var d := Decimal(n);
      assert d[..|d| - 1] == Decimal(n / 10);
    } else {
      assert Decimal(n)[..0] == [];
    }
  }

  lemma ColonOf(a: string, b: string)
    requires forall i :: 0 <= i < |a| ==> a[i] != ':'
    ensures Colon(a + ":" + b) == |a|
  {
    var s := a + ":" + b;
    assert s[|a|] == ':';
    assert forall j :: 0 <= j < |a| ==> s[j] == a[j];
  }

  /** Parsing inverts printing. */
  lemma ParseOfPrinted(n: nat, a: string, b: string)
    requires n < RollingHash.WORD && ':' !in a
    ensures ParseDigest(Decimal(n) + ":" + a + ":" + b) == Some(Parsed(n, a, b))
  {
    var d := Decimal(n);
    NumberOfDecimal(n);
    assert IsDigit(d[0]);
    hide Decimal, Number;
    var s, rest := d + ":" + a + ":" + b, a + ":" + b;
    assert s == d + ":" + rest;
    ColonOf(d, rest);
    ColonOf(a, b);
    hide Colon;
    assert s[..|d|] == d && s[|d| + 1..] == rest;
    assert rest[..|a|] == a && rest[|a| + 1..] == b;
  }

  // ---------------------------------------------------------------- compare

  /** The next block size, in 32 bits. */
  function Twice(blockSize: nat): (n: nat)
    ensures n < RollingHash.WORD
    ensures 2 * blockSize < RollingHash.WORD ==> n == 2 * blockSize
  {
    RollingHash.Wrap(blockSize * 2)
  }

  ghost function CompareSpec(h1: string, h2: string): int {
    match (ParseDigest(h1), ParseDigest(h2))
    case (Some(p), Some(q)) => CompareParsed(p, q)
    case _ => 0
  }

  ghost function CompareParsed(p: Parsed, q: Parsed): int {
    var a, b, c, d := CollapseRuns(p.first), CollapseRuns(p.second), CollapseRuns(q.first), CollapseRuns(q.second);
    if p.blockSize == q.blockSize then
      if a == c then 100
      else Max(ScoreStringsSpec(a, c, p.blockSize), ScoreStringsSpec(b, d, Twice(q.blockSize)))
    else if p.blockSize == Twice(q.blockSize) then ScoreStringsSpec(a, d, p.blockSize)
    else if q.blockSize == Twice(p.blockSize) then ScoreStringsSpec(b, c, q.blockSize)
    else 0
  }

  method Compare(hash1: string, hash2: string) returns (score: int)
    ensures score == CompareSpec(hash1, hash2)
  {
    hide Twice;
    var p1, p2 := ParseDigest(hash1), ParseDigest(hash2);
    if p1.None? || p2.None? { return 0; }
    var bs1, bs2 := p1.value.blockSize, p2.value.blockSize;
    if bs1 != bs2 && bs1 != Twice(bs2) && bs2 != Twice(bs1) { return 0; }
    var s1a := StripSequences(p1.value.first);
    var s1b := StripSequences(p1.value.second);
    var s2a := StripSequences(p2.value.first);
    var s2b := StripSequences(p2.value.second);
    if bs1 == bs2 && s1a == s2a { return 100; }
    if bs1 == bs2 {
      var x := ScoreStrings(s1a, s2a, bs1);
      var y := ScoreStrings(s1b, s2b, Twice(bs2));
      score := Max(x, y);
    } else if bs1 == Twice(bs2) {
      score := ScoreStrings(s1a, s2b, bs1);
    } else {
      score := ScoreStrings(s1b, s2a, bs2);
    }
  }

  /** What is compared with what, for digests without runs of four: the strings of one level at
      the same block size, and at neighbouring sizes the second string of the smaller with the
      first of the larger. */
  lemma CompareInDetail(h1: string, h2: string, n: nat, a: string, b: string, m: nat, c: string, d: string)
    requires ParseDigest(h1) == Some(Parsed(n, a, b)) && ParseDigest(h2) == Some(Parsed(m, c, d))
    requires 2 * n < 0x1_0000_0000 && 2 * m < 0x1_0000_0000
    requires CollapseRuns(a) == a && CollapseRuns(b) == b && CollapseRuns(c) == c && CollapseRuns(d) == d
    ensures n == m && a == c ==> CompareSpec(h1, h2) == 100
    ensures n == m && a != c ==> CompareSpec(h1, h2) == Max(ScoreStringsSpec(a, c, n), ScoreStringsSpec(b, d, 2 * n))
    ensures n != m && n == 2 * m ==> CompareSpec(h1, h2) == ScoreStringsSpec(a, d, n)
    ensures n != m && m == 2 * n ==> CompareSpec(h1, h2) == ScoreStringsSpec(b, c, m)
    ensures n != m && n != 2 * m && m != 2 * n ==> CompareSpec(h1, h2) == 0
  {
    hide ScoreStringsSpec, ParseDigest, CollapseRuns, RollingHash.Wrap;
    assert Twice(n) == 2 * n && Twice(m) == 2 * m;
  }

  /** Four equal characters end at `i`. */
  predicate FourAt(s: string, i: nat) {
    3 <= i < |s| && s[i] == s[i - 1] == s[i - 2] == s[i - 3]
  }

  /** Exactly the texts without a run of four stay as they are. */
  lemma {:induction false} CollapseInDetail(s: string)
    ensures CollapseRuns(s) == s <==> forall i: nat :: !FourAt(s, i)
  {
    if s == [] {
      CollapseOfNothing();
    } else {
      var t := s[..|s| - 1];
      CollapseOneMore(s);
      CollapseInDetail(t);
      hide CollapseRuns;
      forall i: nat ensures FourAt(s, i) <==> FourAt(t, i) || (i == |t| && FourAt(s, |t|)) {}
    }
  }

  lemma CollapseOneMore(s: string)
    requires s != []
    ensures CollapseRuns(s) == s <==> CollapseRuns(s[..|s| - 1]) == s[..|s| - 1] && !FourAt(s, |s| - 1)
  {
    hide *;
    var t, x := s[..|s| - 1], s[|s| - 1];
    CollapsesTo(s);
    FourthIsDropped(s);
    InitAndLast(s);
    SameGrown(CollapseRuns(t), t, x, TrailingRun(s) <= 3);
  }

  lemma CollapsesTo(s: string)
    requires s != []
    ensures CollapseRuns(s) == CollapseRuns(s[..|s| - 1]) + if TrailingRun(s) <= 3 then [s[|s| - 1]] else []
  {
  }

  lemma FourthIsDropped(s: string)
    requires s != []
    ensures TrailingRun(s) <= 3 <==> !FourAt(s, |s| - 1)
  {
    hide TrailingRun;
    if |s| >= 4 { RunOfFour(s); }
  }

  lemma InitAndLast(s: string)
    requires s != []
    ensures s == s[..|s| - 1] + [s[|s| - 1]]
  {
  }

  lemma SameGrown(r: string, t: string, x: char, kept: bool)
    requires |r| <= |t|
    ensures r + (if kept then [x] else []) == t + [x] <==> kept && r == t
  {
    if kept {
      if r + [x] == t + [x] { SameInit(r, t, x); }
    } else {
      assert |r + []| < |t + [x]|;
    }
  }

  lemma SameInit(r: string, t: string, x: char)
    requires r + [x] == t + [x]
    ensures r == t
  {
    assert |r + [x]| == |r| + 1 && |t + [x]| == |t| + 1;
    assert (r + [x])[..|r|] == r && (t + [x])[..|t|] == t;
  }

  lemma CollapseOfNothing()
    ensures CollapseRuns([]) == []
  {
  }

  /** The caps of the texts that are compared have not wrapped. At equal block sizes one of the
      two is enough, because the greater score counts. */
  ghost predicate CapsFit(p: Parsed, q: Parsed) {
    var a, b, c, d := CollapseRuns(p.first), CollapseRuns(p.second), CollapseRuns(q.first), CollapseRuns(q.second);
    if p.blockSize == q.blockSize then a == c || CapFits(a, c, p.blockSize) || CapFits(b, d, Twice(q.blockSize))
    else if p.blockSize == Twice(q.blockSize) then CapFits(a, d, p.blockSize)
    else q.blockSize == Twice(p.blockSize) ==> CapFits(b, c, q.blockSize)
  }

  /** For any two texts, well-formed or not. */
  lemma CompareInRangeExactly(h1: string, h2: string)
    ensures CompareSpec(h1, h2) <= 100
    ensures var x, y := ParseDigest(h1), ParseDigest(h2);
            0 <= CompareSpec(h1, h2) <==> (x.Some? && y.Some? ==> CapsFit(x.value, y.value))
  {
    hide ScoreStringsSpec, ParseDigest, CapFits, Twice, CollapseRuns;
    if ParseDigest(h1).Some? && ParseDigest(h2).Some? {
      var p, q := ParseDigest(h1).value, ParseDigest(h2).value;
      var a, b, c, d := CollapseRuns(p.first), CollapseRuns(p.second), CollapseRuns(q.first), CollapseRuns(q.second);
      ScoreInRangeExactly(a, c, p.blockSize);
      ScoreInRangeExactly(b, d, Twice(q.blockSize));
      ScoreInRangeExactly(a, d, p.blockSize);
      ScoreInRangeExactly(b, c, q.blockSize);
    }
  }

  /** Two sizes that are each the double of the other are zero. */
  lemma DoublesOfEachOther(x: nat, y: nat)
    requires x < RollingHash.WORD && y < RollingHash.WORD && x == Twice(y) && y == Twice(x)
    ensures x == y
  {
    var e, f := (2 * y) / RollingHash.WORD, (2 * x) / RollingHash.WORD;
    assert x == 2 * y - e * RollingHash.WORD && y == 2 * x - f * RollingHash.WORD;
    assert 0 <= e <= 1 && 0 <= f <= 1;
  }

  lemma CompareSymmetric(h1: string, h2: string)
    ensures CompareSpec(h1, h2) == CompareSpec(h2, h1)
  {
    hide ScoreStringsSpec, ParseDigest, Twice, CollapseRuns;
    if ParseDigest(h1).Some? && ParseDigest(h2).Some? {
      var p, q := ParseDigest(h1).value, ParseDigest(h2).value;
      var a, b, c, d := CollapseRuns(p.first), CollapseRuns(p.second), CollapseRuns(q.first), CollapseRuns(q.second);
      if p.blockSize == Twice(q.blockSize) && q.blockSize == Twice(p.blockSize) { DoublesOfEachOther(p.blockSize, q.blockSize); }
      ScoreSymmetric(a, c, p.blockSize);
      ScoreSymmetric(b, d, Twice(q.blockSize));
      ScoreSymmetric(a, d, p.blockSize);
      ScoreSymmetric(b, c, q.blockSize);
    }
  }

  // ---------------------------------------------------------------- printed digests

  lemma StartFits(data: seq<Byte>, start: nat)
    requires IsStart(data, start) && |data| <= LARGEST
    ensures start <= 30
  {
    SizeAtThirty();
    hide SizeAt;
    if start > 31 { SizesGrow(30, start - 1); }
  }

  lemma ChosenSizeFits(data: seq<Byte>, k: nat)
    requires IsChosen(data, k) && |data| <= LARGEST
    ensures SizeAt(k) < RollingHash.WORD
  {
    hide CharsAt, SizeAt, IsStart;
    var start :| IsStart(data, start) && k <= start && forall j :: k < j <= start ==> CharsAt(data, j) < 32;
    StartFits(data, start);
    SizeAtThirty();
    if k < 30 { SizesGrow(k, 30); }
  }

  /** Whatever the file, the digest that `FuzzyHash` prints scores 100 against itself. */
  lemma CompareWithSelf(data: seq<Byte>, digest: string)
    requires |data| <= LARGEST
    requires exists k :: IsChosen(data, k) && digest == Printed(data, SizeAt(k))
    ensures CompareSpec(digest, digest) == 100
  {
    var k :| IsChosen(data, k) && digest == Printed(data, SizeAt(k));
    ChosenSizeFits(data, k);
    PrintedShape(data, SizeAt(k));
    ColonIsNotBase64();
    var a, b := First(data, SizeAt(k)), Second(data, SizeAt(k));
    assert forall c :: c in a ==> c in a + b;
    hide *;
    ParseOfPrinted(SizeAt(k), a, b);
  }

  lemma ColonIsNotBase64()
    ensures ':' !in B64
  {
    assert ':' !in UPPER && ':' !in LOWER && ':' !in OTHERS;
  }

  /** Up to here the chosen block size keeps every cap inside 32 bits: three GiB. */
  const SAFE: nat := 3 * 0x4000_0000

  lemma SafeSize(data: seq<Byte>, k: nat)
    requires IsChosen(data, k) && |data| <= SAFE
    ensures SizeAt(k) / BLOCKSIZE_MIN <= 0x100_0000 && SizeAt(k) < RollingHash.WORD
    ensures Twice(SizeAt(k)) / BLOCKSIZE_MIN <= 0x200_0000
  {
    hide CharsAt, IsStart;
    var start :| IsStart(data, start) && k <= start && forall j :: k < j <= start ==> CharsAt(data, j) < 32;
    SizeAtTwentyFour();
    SafeStart(data, start);
    if k < 24 { SizesGrow(k, 24); }
  }

  lemma SafeStart(data: seq<Byte>, start: nat)
    requires IsStart(data, start) && |data| <= SAFE
    ensures start <= 24
  {
    SizeAtTwentyFour();
    hide SizeAt;
    if start > 25 { SizesGrow(24, start - 1); }
  }

  lemma SizeAtTwentyFour()
    ensures SizeAt(24) == 0x300_0000
  {
    TenDoublings(0);
    TenDoublings(10);
    assert Pow2(22) == 4 * Pow2(20) && Pow2(24) == 4 * Pow2(22);
  }

  /** What is printed is read back, and its parts are short. */
  lemma PrintedIsParsed(data: seq<Byte>, k: nat)
    requires SizeAt(k) < RollingHash.WORD
    ensures ParseDigest(Printed(data, SizeAt(k))) == Some(Parsed(SizeAt(k), First(data, SizeAt(k)), Second(data, SizeAt(k))))
    ensures |First(data, SizeAt(k))| <= 64 && |Second(data, SizeAt(k))| <= 32
  {
    PrintedShape(data, SizeAt(k));
    ColonIsNotBase64();
    var a, b := First(data, SizeAt(k)), Second(data, SizeAt(k));
    assert forall c :: c in a ==> c in a + b;
    hide *;
    ParseOfPrinted(SizeAt(k), a, b);
    PrintedIs(data, SizeAt(k));
  }

  lemma PrintedIs(data: seq<Byte>, blockSize: nat)
    requires blockSize > 0
    ensures Printed(data, blockSize) == Decimal(blockSize) + ":" + First(data, blockSize) + ":" + Second(data, blockSize)
  {
  }

  /** The digests of any two files of up to three GiB compare to 0 to 100. */
  lemma PrintedCompareInRange(data: seq<Byte>, k: nat, data': seq<Byte>, k': nat)
    requires |data| <= SAFE && |data'| <= SAFE && IsChosen(data, k) && IsChosen(data', k')
    ensures 0 <= CompareSpec(Printed(data, SizeAt(k)), Printed(data', SizeAt(k'))) <= 100
  {
    SafeSize(data, k);
    SafeSize(data', k');
    PrintedIsParsed(data, k);
    PrintedIsParsed(data', k');
    CompareInRangeExactly(Printed(data, SizeAt(k)), Printed(data', SizeAt(k')));
    ShortTextsFit(Parsed(SizeAt(k), First(data, SizeAt(k)), Second(data, SizeAt(k))),
                  Parsed(SizeAt(k'), First(data', SizeAt(k')), Second(data', SizeAt(k'))));
    hide *;
  }

  lemma ShortTextsFit(p: Parsed, q: Parsed)
    requires p.blockSize / BLOCKSIZE_MIN <= 0x100_0000 && q.blockSize / BLOCKSIZE_MIN <= 0x100_0000
    requires |p.first| <= 64 && |q.first| <= 64
    ensures CapsFit(p, q)
  {
    hide CapFits, Twice, Cap;
    var a, b, c, d := CollapseRuns(p.first), CollapseRuns(p.second), CollapseRuns(q.first), CollapseRuns(q.second);
    hide CollapseRuns;
    SmallCapFits(a, c, p.blockSize, 0x100_0000, 64);
    SmallCapFits(a, d, p.blockSize, 0x100_0000, 64);
    SmallCapFits(b, c, q.blockSize, 0x100_0000, 64);
  }

  /** Without four equal characters in a row, nothing is collapsed. */
  lemma {:induction false} NothingToCollapse(s: string, n: nat)
    requires n <= |s| && forall i :: 0 < i < |s| ==> s[i] != s[i - 1]
    ensures CollapseRuns(s[..n]) == s[..n]
  {
    if n > 0 {
      NothingToCollapse(s, n - 1);
      CollapseNext(s, n - 1);
      assert s[..n] == s[..n - 1] + [s[n - 1]];
    }
  }

  function Alternating(n: nat): (s: string)
    ensures |s| == n && forall i :: 0 < i < n ==> s[i] != s[i - 1]
  {
    seq(n, i => if i % 2 == 0 then 'A' else 'B')
  }

  lemma AlternatingStays(n: nat)
    ensures CollapseRuns(Alternating(n)) == Alternating(n) && ':' !in Alternating(n)
    ensures n >= 7 ==> Alternating(n)[..7] == Alternating(7)
  {
    NothingToCollapse(Alternating(n), n);
    assert Alternating(n)[..n] == Alternating(n);
  }

  /** The same, but for the last character. */
  lemma AlmostAlternating(n: nat)
    requires n > 7
    ensures var s := Alternating(n - 1) + "C";
            && CollapseRuns(s) == s && ':' !in s && |s| == n && s != Alternating(n) && ShareBlock(Alternating(n), s)
  {
    var s := Alternating(n - 1) + "C";
    AlternatingStays(n);
    AlternatingStays(n - 1);
    assert 'C' !in Alternating(n - 1) && 'C' !in Alternating(n);
    NothingToCollapse(s, n);
    assert s[..n] == s && s[n - 1] == 'C';
    assert s[0..7] == Alternating(n - 1)[..7] && Alternating(n)[0..7] == Alternating(n)[..7];
    assert BlockAt(Alternating(n), s, 0, 0);
  }

  lemma WrappedScore(s: string, t: string, blockSize: nat)
    requires ShareBlock(s, t) && Cap(s, t, blockSize) < 0
    ensures ScoreStringsSpec(s, t, blockSize) == Cap(s, t, blockSize)
  {
    EditDistanceBounds(s, t);
    hide EditDistance, Cap;
    TwoDivisions(EditDistance(s, t), |s| + |t|);
  }

  lemma SharesWithItself(s: string)
    requires |s| >= 7
    ensures ShareBlock(s, s)
  {
    assert BlockAt(s, s, 0, 0);
  }

  lemma CapAtTheEdge(s: string, t: string, pieces: nat)
    requires pieces * Min(|s|, |t|) == 0x8000_0000
    ensures Cap(s, t, 3 * pieces) == -0x8000_0000
  {
  }

  /** At the next block size full texts wrap both caps, and digests that differ in one character
      compare to the least number there is. */
  lemma FullTextsWrap()
    ensures var n := 0x600_0000;
            var h := Decimal(n) + ":" + Alternating(64) + ":" + Alternating(32);
            var h' := Decimal(n) + ":" + (Alternating(63) + "C") + ":" + Alternating(32);
            CompareSpec(h, h') == -0x8000_0000
  {
    var n := 0x600_0000;
    hide Decimal, ParseDigest, CollapseRuns, EditDistance, Alternating, Cap, ShareBlock, Twice, I32, ScoreStringsSpec, Colon;
    var a, b, c := Alternating(64), Alternating(32), Alternating(63) + "C";
    AlternatingStays(64);
    AlternatingStays(32);
    AlmostAlternating(64);
    ParseOfPrinted(n, a, b);
    ParseOfPrinted(n, c, b);
    SharesWithItself(b);
    CapAtTheEdge(a, c, 0x200_0000);
    CapAtTheEdge(b, b, 0x400_0000);
    assert Twice(n) == 0xC00_0000;
    WrappedScore(a, c, n);
    WrappedScore(b, b, Twice(n));
  }
}
