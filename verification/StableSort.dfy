/** The standard library's stable `sort_by`: elements that compare equal keep their order. */
module StableSort {
  ghost predicate TotalPreorder<T(!new)>(le: (T, T) -> bool) {
    && (forall x, y :: le(x, y) || le(y, x))
    && (forall x, y, z :: le(x, y) && le(y, z) ==> le(x, z))
  }

  ghost predicate Antisymmetric<T(!new)>(le: (T, T) -> bool) {
    forall x, y :: le(x, y) && le(y, x) ==> x == y
  }

  ghost predicate Sorted<T>(le: (T, T) -> bool, s: seq<T>) {
    forall i, j :: 0 <= i < j < |s| ==> le(s[i], s[j])
  }

  function Insert<T>(le: (T, T) -> bool, x: T, s: seq<T>): seq<T> {
    if s == [] || le(x, s[0]) then [x] + s else [s[0]] + Insert(le, x, s[1..])
  }

  function Sort<T>(le: (T, T) -> bool, s: seq<T>): seq<T> {
    if s == [] then [] else Insert(le, s[0], Sort(le, s[1..]))
  }

  lemma {:induction false} InsertKeepsElements<T>(le: (T, T) -> bool, x: T, s: seq<T>)
    ensures multiset(Insert(le, x, s)) == multiset(s) + multiset{x}
  {
    if s != [] && !le(x, s[0]) {
      InsertKeepsElements(le, x, s[1..]);
      assert s == [s[0]] + s[1..];
    }
  }

  lemma {:induction false} InsertKeepsSorted<T(!new)>(le: (T, T) -> bool, x: T, s: seq<T>)
    requires TotalPreorder(le) && Sorted(le, s)
    ensures Sorted(le, Insert(le, x, s))
  {
    if s != [] && !le(x, s[0]) {
      InsertKeepsSorted(le, x, s[1..]);
      InsertKeepsElements(le, x, s[1..]);
      var r := Insert(le, x, s[1..]);
      forall i | 0 <= i < |r| ensures le(s[0], r[i]) {
        assert r[i] in multiset(r);
        assert r[i] in s[1..] || r[i] == x;
      }
    }
  }

  lemma {:induction false} SortIsSortedPermutation<T(!new)>(le: (T, T) -> bool, s: seq<T>)
    requires TotalPreorder(le)
    ensures Sorted(le, Sort(le, s))
    ensures multiset(Sort(le, s)) == multiset(s)
    ensures |Sort(le, s)| == |s|
  {
    if s != [] {
      SortIsSortedPermutation(le, s[1..]);
      hide TotalPreorder;
      InsertKeepsSorted(le, s[0], Sort(le, s[1..]));
      InsertKeepsElements(le, s[0], Sort(le, s[1..]));
      assert s == [s[0]] + s[1..];
    }
    assert |multiset(Sort(le, s))| == |multiset(s)|;
  }

  lemma SortKeepsMembers<T(!new)>(le: (T, T) -> bool, s: seq<T>, x: T)
    requires TotalPreorder(le)
    ensures x in Sort(le, s) <==> x in s
  {
    SortIsSortedPermutation(le, s);
    assert x in multiset(Sort(le, s)) <==> x in multiset(s);
  }

  ghost function Tie<T>(le: (T, T) -> bool, x: T, y: T): seq<T> {
    if le(x, y) && le(y, x) then [y] else []
  }

  /** The elements of `s` that compare equal to `x`, in their order. */
  ghost function Ties<T>(le: (T, T) -> bool, x: T, s: seq<T>): seq<T> {
    if s == [] then []
    else Tie(le, x, s[0]) + Ties(le, x, s[1..])
  }

  lemma {:induction false} SortIsStable<T(!new)>(le: (T, T) -> bool, x: T, s: seq<T>)
    requires TotalPreorder(le)
    ensures Ties(le, x, Sort(le, s)) == Ties(le, x, s)
  {
    if s != [] {
      SortIsStable(le, x, s[1..]);
      SortIsSortedPermutation(le, s[1..]);
      InsertIsStable(le, x, s[0], Sort(le, s[1..]));
    }
  }

  lemma TiesCons<T>(le: (T, T) -> bool, x: T, y: T, s: seq<T>)
    ensures Ties(le, x, [y] + s) == Tie(le, x, y) + Ties(le, x, s)
  {
    assert ([y] + s)[1..] == s;
  }

  lemma {:induction false} InsertIsStable<T(!new)>(le: (T, T) -> bool, x: T, y: T, s: seq<T>)
    requires TotalPreorder(le)
    ensures Ties(le, x, Insert(le, y, s)) == Tie(le, x, y) + Ties(le, x, s)
  {
    hide TotalPreorder, Ties, Tie;
    if s == [] || le(y, s[0]) {
      TiesCons(le, x, y, s);
    } else {
      InsertIsStable(le, x, y, s[1..]);
      TiesCons(le, x, s[0], Insert(le, y, s[1..]));
      TiesCons(le, x, s[0], s[1..]);
      assert s == [s[0]] + s[1..];
      OneTie(le, x, y, s[0]);
      var u, v, w := Tie(le, x, s[0]), Tie(le, x, y), Ties(le, x, s[1..]);
      assert u + (v + w) == v + (u + w);
    }
  }

  lemma OneTie<T(!new)>(le: (T, T) -> bool, x: T, y: T, z: T)
    requires TotalPreorder(le) && !le(y, z)
    ensures Tie(le, x, y) == [] || Tie(le, x, z) == []
  {
  }

  lemma {:induction false} SortOfSorted<T>(le: (T, T) -> bool, s: seq<T>)
    requires Sorted(le, s)
    ensures Sort(le, s) == s
  {
    if s != [] {
      SortOfSorted(le, s[1..]);
      assert |s| > 1 ==> le(s[0], s[1]);
    }
  }

  /** Under a total order a multiset has one sorted arrangement. */
  lemma {:induction false} SortedArrangementIsUnique<T(!new)>(le: (T, T) -> bool, s: seq<T>, t: seq<T>)
    requires TotalPreorder(le) && Antisymmetric(le) && Sorted(le, s) && Sorted(le, t)
    requires multiset(s) == multiset(t)
    ensures s == t
  {
    hide TotalPreorder, Antisymmetric;
    SameLength(s, t);
    if s != [] {
      FirstsAgree(le, s, t);
      TailsAgree(s, t);
      SortedArrangementIsUnique(le, s[1..], t[1..]);
      assert s == [s[0]] + s[1..] && t == [t[0]] + t[1..];
    }
  }

  lemma SameLength<T>(s: seq<T>, t: seq<T>)
    requires multiset(s) == multiset(t)
    ensures |s| == |t|
  {
    assert |multiset(s)| == |multiset(t)|;
  }

  lemma TailsAgree<T>(s: seq<T>, t: seq<T>)
    requires s != [] && t != [] && s[0] == t[0] && multiset(s) == multiset(t)
    ensures multiset(s[1..]) == multiset(t[1..])
  {
    assert s == [s[0]] + s[1..] && t == [t[0]] + t[1..];
    assert multiset(s[1..]) == multiset(s) - multiset{s[0]};
    assert multiset(t[1..]) == multiset(t) - multiset{t[0]};
  }

  lemma FirstsAgree<T(!new)>(le: (T, T) -> bool, s: seq<T>, t: seq<T>)
    requires Antisymmetric(le) && Sorted(le, s) && Sorted(le, t)
    requires multiset(s) == multiset(t) && s != [] && t != []
    ensures s[0] == t[0]
  {
    assert s[0] in multiset(t) && t[0] in multiset(s);
    var i :| 0 <= i < |t| && t[i] == s[0];
    var j :| 0 <= j < |s| && s[j] == t[0];
    if i > 0 && j > 0 {
      assert le(t[0], t[i]) && le(s[0], s[j]);
    }
  }

  /** A sorted arrangement is given by the order of the elements that compare equal. */
  lemma {:induction false} SortedWithSameTiesIsUnique<T(!new)>(le: (T, T) -> bool, s: seq<T>, t: seq<T>)
    requires TotalPreorder(le) && Sorted(le, s) && Sorted(le, t)
    requires forall x :: Ties(le, x, s) == Ties(le, x, t)
    ensures s == t
  {
    if s == [] || t == [] {
      if s != [] { TiesOfFirst(le, s, s[0]); }
      if t != [] { TiesOfFirst(le, t, t[0]); }
    } else {
      TiedFirsts(le, s, t);
      hide TotalPreorder;
      forall x ensures Ties(le, x, s[1..]) == Ties(le, x, t[1..]) {
        assert Ties(le, x, s) == Ties(le, x, t);
        TiesOfTail(le, s, x);
        TiesOfTail(le, t, x);
      }
      SortedWithSameTiesIsUnique(le, s[1..], t[1..]);
      assert s == [s[0]] + s[1..] && t == [t[0]] + t[1..];
    }
  }

  lemma TiesOfTail<T>(le: (T, T) -> bool, s: seq<T>, x: T)
    requires s != []
    ensures le(x, s[0]) && le(s[0], x) ==> Ties(le, x, s) != [] && Ties(le, x, s[1..]) == Ties(le, x, s)[1..]
    ensures !(le(x, s[0]) && le(s[0], x)) ==> Ties(le, x, s[1..]) == Ties(le, x, s)
  {
  }

  lemma TiesOfFirst<T(!new)>(le: (T, T) -> bool, s: seq<T>, x: T)
    requires TotalPreorder(le) && s != [] && le(x, s[0]) && le(s[0], x)
    ensures Ties(le, x, s) != [] && Ties(le, x, s)[0] == s[0]
  {
  }

  lemma {:induction false} TiesAreMembers<T>(le: (T, T) -> bool, s: seq<T>, x: T)
    requires Ties(le, x, s) != []
    ensures exists k :: 0 <= k < |s| && le(x, s[k]) && le(s[k], x)
  {
    if le(x, s[0]) && le(s[0], x) {
    } else {
      TiesAreMembers(le, s[1..], x);
      var k :| 0 <= k < |s[1..]| && le(x, s[1..][k]) && le(s[1..][k], x);
      assert s[k + 1] == s[1..][k];
    }
  }

  lemma TiedFirsts<T(!new)>(le: (T, T) -> bool, s: seq<T>, t: seq<T>)
    requires TotalPreorder(le) && Sorted(le, s) && Sorted(le, t) && s != [] && t != []
    requires forall x :: Ties(le, x, s) == Ties(le, x, t)
    ensures s[0] == t[0]
  {
    assert le(s[0], s[0]) && le(t[0], t[0]);
    TiesOfFirst(le, s, s[0]);
    TiesOfFirst(le, t, t[0]);
    assert Ties(le, s[0], t) != [] && Ties(le, t[0], s) != [];
    TiesAreMembers(le, t, s[0]);
    TiesAreMembers(le, s, t[0]);
    var i :| 0 <= i < |t| && le(s[0], t[i]) && le(t[i], s[0]);
    var j :| 0 <= j < |s| && le(t[0], s[j]) && le(s[j], t[0]);
    assert le(t[0], t[i]) && le(s[0], s[j]);
    TiesOfFirst(le, t, s[0]);
  }

  // ---------------------------------------------------------------- no element twice

  ghost predicate Distinct<T>(s: seq<T>) {
    forall i, j :: 0 <= i < j < |s| ==> s[i] != s[j]
  }

  lemma TwiceInMultiset<T>(s: seq<T>, i: nat, j: nat)
    requires i < j < |s| && s[i] == s[j]
    ensures multiset(s)[s[i]] >= 2
  {
    assert s == (s[..j] + [s[j]]) + s[j + 1..];
    assert s[i] in s[..j];
  }

  lemma {:induction false} OnceInMultiset<T>(s: seq<T>, x: T)
    requires Distinct(s)
    ensures multiset(s)[x] <= 1
  {
    if s != [] {
      var init, last := s[..|s| - 1], s[|s| - 1];
      OnceInMultiset(init, x);
      assert s == init + [last];
      assert last !in init;
    }
  }

  lemma DistinctIgnoresOrder<T>(s: seq<T>, t: seq<T>)
    requires multiset(s) == multiset(t) && Distinct(s)
    ensures Distinct(t)
  {
    forall i, j | 0 <= i < j < |t| ensures t[i] != t[j] {
      if t[i] == t[j] {
        TwiceInMultiset(t, i, j);
        OnceInMultiset(s, t[i]);
      }
    }
  }

  lemma SortKeepsDistinct<T(!new)>(le: (T, T) -> bool, s: seq<T>)
    requires TotalPreorder(le) && Distinct(s)
    ensures Distinct(Sort(le, s))
  {
    SortIsSortedPermutation(le, s);
    DistinctIgnoresOrder(s, Sort(le, s));
  }
}
