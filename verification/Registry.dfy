/** The rule registry (registry.rs, with the name parser of rules.rs), for one tenant: which rules
    and bundles it stores, and what a published bundle's digest says about its rules. */
module Registry {
  import opened Bytes
  import opened Options
  import opened Rules
  import opened StableSort

  // ---------------------------------------------------------------- the name of a rule

  predicate IsLetter(b: Byte) {
    0x41 <= b <= 0x5a || 0x61 <= b <= 0x7a || b == 0x5f
  }

  predicate IsWordByte(b: Byte) {
    IsLetter(b) || 0x30 <= b <= 0x39
  }

  /** A YARA identifier. */
  predicate IsIdentifier(t: Text) {
    t != [] && IsLetter(t[0]) && forall i :: 0 <= i < |t| ==> IsWordByte(t[i])
  }

  predicate IsWord(t: Text) {
    t != [] && forall i :: 0 <= i < |t| ==> IsWordByte(t[i])
  }

  /** How many word bytes stand at the front. */
  function WordLength(s: Text): (n: nat)
    ensures n <= |s| && forall i :: 0 <= i < n ==> IsWordByte(s[i])
    ensures n < |s| ==> !IsWordByte(s[n])
  {
    if s == [] || !IsWordByte(s[0]) then 0 else 1 + WordLength(s[1..])
  }

  function Tokens(s: Text): (ts: seq<Text>)
    ensures forall k :: 0 <= k < |ts| ==> IsWord(ts[k])
    decreases |s|
  {
    if s == [] then []
    else if IsWordByte(s[0]) then [s[..WordLength(s)]] + Tokens(s[WordLength(s)..])
    else Tokens(s[1..])
  }

  /** "rule" */
  const RULE: Text := [0x72, 0x75, 0x6c, 0x65]

  function Positions(ts: seq<Text>): (ps: seq<nat>)
    ensures forall p: nat :: p in ps <==> p < |ts| && ts[p] == RULE
  {
    if ts == [] then [] else Positions(ts[..|ts| - 1]) + if ts[|ts| - 1] == RULE then [|ts| - 1] else []
  }

  /** `PastTheEnd` is the index that leaves the token list: the call panics. */
  datatype NameError = NoRule | ManyRules | BadIdentifier | PastTheEnd

  function ParseRuleName(source: Text): Result<Text, NameError> {
    var ts := Tokens(Strip(source));
    var ps := Positions(ts);
    if |ps| == 0 then Err(NoRule)
    else if |ps| > 1 then Err(ManyRules)
    else if ps[0] + 1 >= |ts| then Err(PastTheEnd)
    else if IsLetter(ts[ps[0] + 1][0]) then Ok(ts[ps[0] + 1])
    else Err(BadIdentifier)
  }

  /** The word `rule` alone is enough for the panic. */
  lemma BareRulePanics()
    ensures ParseRuleName(RULE) == Err(PastTheEnd)
  {
    KeptOfCommentFree(RULE);
    AsCharsOfAscii(RULE);
    assert Strip(RULE) == RULE;
    hide Strip;
    WholeWord(RULE);
    assert [RULE][..0] == [];
  }

  lemma {:induction false} WordLengthOfWord(s: Text)
    requires forall i :: 0 <= i < |s| ==> IsWordByte(s[i])
    ensures WordLength(s) == |s|
  {
    if s != [] { WordLengthOfWord(s[1..]); }
  }

  lemma WholeWord(s: Text)
    requires IsWord(s)
    ensures Tokens(s) == [s]
  {
    WordLengthOfWord(s);
    assert s[..|s|] == s && s[|s|..] == [];
  }

  /** Exactly the texts whose only word `rule` outside comments is the last word there. */
  lemma PanicsExactly(source: Text)
    ensures ParseRuleName(source) == Err(PastTheEnd) <==>
              var ts := Tokens(Strip(source));
              ts != [] && ts[|ts| - 1] == RULE && RULE !in ts[..|ts| - 1]
  {
    hide Strip, Tokens;
    var ts := Tokens(Strip(source));
    var ps := Positions(ts);
    if ts != [] {
      NoPositions(ts[..|ts| - 1]);
      if |ps| == 1 { assert forall p :: p in ps <==> p == ps[0]; }
    }
  }

  lemma NoPositions(ts: seq<Text>)
    ensures Positions(ts) == [] <==> RULE !in ts
  {
    if RULE in ts {
      var p: nat :| p < |ts| && ts[p] == RULE;
      assert p in Positions(ts);
    }
  }

  /** A name that is parsed is an identifier, and holds no zero byte. */
  lemma ParsedNameIsIdentifier(source: Text)
    requires ParseRuleName(source).Ok?
    ensures IsIdentifier(ParseRuleName(source).value) && NulFree(ParseRuleName(source).value)
  {
    var ts := Tokens(Strip(source));
    var t := ParseRuleName(source).value;
    assert IsWord(t);
    hide ParseRuleName, Tokens;
    assert !IsWordByte(0);
  }

  /** Letters, digits and the underscore. */
  lemma WordBytesAre(b: Byte)
    ensures IsWordByte(b) <==> (var c := b as char; 'A' <= c <= 'Z' || 'a' <= c <= 'z' || '0' <= c <= '9' || c == '_')
  {
  }

  /** The tokens are the longest stretches of word bytes: another byte ends one and is in none. */
  lemma TokensByPieces(w: Text, b: Byte, y: Text)
    requires w != [] && forall i :: 0 <= i < |w| ==> IsWordByte(w[i])
    requires !IsWordByte(b)
    ensures Tokens([]) == [] && Tokens(w) == [w]
    ensures Tokens([b] + y) == Tokens(y) && Tokens(w + [b] + y) == [w] + Tokens(y)
  {
    WholeWord(w);
    NoWordHere(b, y);
    WordThenOther(w, [b] + y);
    assert w + [b] + y == w + ([b] + y);
  }

  lemma WordThenOther(w: Text, s: Text)
    requires w != [] && (forall i :: 0 <= i < |w| ==> IsWordByte(w[i])) && s != [] && !IsWordByte(s[0])
    ensures Tokens(w + s) == [w] + Tokens(s)
  {
    WordEnds(w, s);
    assert (w + s)[..|w|] == w && (w + s)[|w|..] == s;
    hide WordLength, IsWordByte;
  }

  lemma {:induction false} WordEnds(w: Text, s: Text)
    requires (forall i :: 0 <= i < |w| ==> IsWordByte(w[i])) && s != [] && !IsWordByte(s[0])
    ensures WordLength(w + s) == |w|
  {
    if w == [] {
      assert w + s == s;
    } else {
      WordEnds(w[1..], s);
      assert (w + s)[1..] == w[1..] + s;
    }
  }

  /** A name is parsed exactly if one token is `rule` and the next one, the name, begins with a
      letter or an underscore. */
  lemma NameInDetail(source: Text, name: Text)
    ensures var ts := Tokens(Strip(source));
            ParseRuleName(source) == Ok(name) <==>
              exists k :: 0 <= k < |ts| - 1 && ts[k] == RULE && RULE !in ts[..k] && RULE !in ts[k + 1..] && ts[k + 1] == name
                && name != [] && var c := name[0] as char; 'A' <= c <= 'Z' || 'a' <= c <= 'z' || c == '_'
  {
    hide *;
    var ts := Tokens(Strip(source));
    OnlyOne(ts);
    ParsedBehind(source, name);
  }

  /** One position is the only occurrence. */
  lemma OnlyOne(ts: seq<Text>)
    ensures forall k: nat :: k < |ts| ==>
              (Positions(ts) == [k] <==> ts[k] == RULE && RULE !in ts[..k] && RULE !in ts[k + 1..])
  {
    hide Positions;
    forall k: nat | k < |ts|
      ensures Positions(ts) == [k] <==> ts[k] == RULE && RULE !in ts[..k] && RULE !in ts[k + 1..]
    {
      if Positions(ts) == [k] {
        assert forall p: nat :: p in Positions(ts) ==> p == k;
        forall j: nat | j < |ts| && ts[j] == RULE ensures j == k { assert j in Positions(ts); }
        assert k in Positions(ts);
      } else if ts[k] == RULE && RULE !in ts[..k] && RULE !in ts[k + 1..] {
        OnePosition(ts, k);
      }
    }
  }

  lemma ParsedBehind(source: Text, name: Text)
    ensures var ts := Tokens(Strip(source));
            ParseRuleName(source) == Ok(name) <==>
              exists k :: 0 <= k < |ts| - 1 && Positions(ts) == [k] && ts[k + 1] == name
                && name != [] && var c := name[0] as char; 'A' <= c <= 'Z' || 'a' <= c <= 'z' || c == '_'
  {
    hide Strip, Tokens, Positions;
    var ts := Tokens(Strip(source));
    var ps := Positions(ts);
    if |ps| == 1 { assert ps == [ps[0]]; }
  }

  lemma {:induction false} OnePosition(ts: seq<Text>, k: nat)
    requires k < |ts| && ts[k] == RULE && RULE !in ts[..k] && RULE !in ts[k + 1..]
    ensures Positions(ts) == [k]
  {
    var n := |ts| - 1;
    if k == n {
      NoPositions(ts[..n]);
    } else {
      assert ts[n] == ts[k + 1..][n - (k + 1)];
      assert ts[..n][k + 1..] == ts[k + 1..][..n - (k + 1)] && ts[..n][..k] == ts[..k];
      OnePosition(ts[..n], k);
    }
  }

  lemma WordGoesOn(b: Byte, rest: seq<Byte>)
    requires IsWordByte(b)
    ensures WordLength([b] + rest) == 1 + WordLength(rest) && CharBytes(b) == [b]
  {
    assert ([b] + rest)[1..] == rest;
  }

  lemma NoWordBegins(s: seq<Byte>)
    requires s == [] || !IsWordByte(s[0])
    ensures WordLength(s) == WordLength(AsChars(s)) == 0
  {
  }

  /** The bytes of a changed byte are no word bytes, so words are found where they were. */
  lemma {:induction false} WordsAreAscii(s: seq<Byte>)
    ensures WordLength(AsChars(s)) == WordLength(s)
    ensures AsChars(s)[..WordLength(s)] == s[..WordLength(s)]
    ensures AsChars(s)[WordLength(s)..] == AsChars(s[WordLength(s)..])
    decreases |s|
  {
    hide *;
    if s == [] || !IsWordByte(s[0]) {
      NoWordBegins(s);
      assert s[0..] == s;
    } else {
      var b, rest := s[0], s[1..];
      WordsAreAscii(rest);
      WordGoesOn(b, rest);
      WordGoesOn(b, AsChars(rest));
      OneKept(b, rest);
      assert s == [b] + rest;
      var n, t := WordLength(rest), AsChars(rest);
      assert s[..n + 1] == [b] + rest[..n] && ([b] + t)[..n + 1] == [b] + t[..n];
      assert s[n + 1..] == rest[n..] && ([b] + t)[n + 1..] == t[n..];
    }
  }

  lemma NoWordHere(b: Byte, rest: seq<Byte>)
    requires !IsWordByte(b)
    ensures Tokens([b] + rest) == Tokens(rest)
  {
    assert ([b] + rest)[1..] == rest;
  }

  lemma {:induction false} TokensIgnoreChange(s: seq<Byte>)
    ensures Tokens(AsChars(s)) == Tokens(s)
    decreases |s|
  {
    if s != [] {
      var n := WordLength(s);
      if IsWordByte(s[0]) {
        WordsAreAscii(s);
        TokensIgnoreChange(s[n..]);
      } else {
        TokensIgnoreChange(s[1..]);
        ChangedByteIsNoWord(s[0], AsChars(s[1..]));
      }
    }
  }

  lemma ChangedByteIsNoWord(b: Byte, rest: seq<Byte>)
    requires !IsWordByte(b)
    ensures Tokens(CharBytes(b) + rest) == Tokens(rest)
  {
    hide Tokens;
    var bytes := CharBytes(b);
    if b < 0x80 {
      NoWordHere(b, rest);
    } else {
      NoWordHere(bytes[1], rest);
      NoWordHere(bytes[0], [bytes[1]] + rest);
      assert bytes + rest == [bytes[0]] + ([bytes[1]] + rest);
    }
  }

  /** Taking the comments out first changes nothing: a name is never found inside one, and the
      bytes that stripping changes belong to no name. */
  lemma NameIgnoresComments(source: Text)
    ensures ParseRuleName(Strip(source)) == ParseRuleName(source)
  {
    hide Strip, Tokens, Positions;
    StripAgain(source);
    TokensIgnoreChange(Strip(source));
  }

  // ---------------------------------------------------------------- the table

  datatype RegistryError =
    NameRefused(error: NameError) | Panicked | DoesNotCompile | Conflict | NotFound | Revoked | NotStorable | NoRules | TwiceInBundle

  /** A bundle row: its rules by position, and whether forward scans use it. */
  datatype Bundle = Bundle(members: seq<Text>, active: bool)

  ghost predicate Storable(rules: map<Text, Text>) {
    forall id :: id in rules ==> NulFree(id) && NulFree(rules[id]) && ParseRuleName(rules[id]) == Ok(id)
  }

  /** The rules behind some ids. */
  function Members(rules: map<Text, Text>, ids: seq<Text>): (rs: seq<Rule>)
    requires forall i :: 0 <= i < |ids| ==> ids[i] in rules
    ensures |rs| == |ids| && forall i :: 0 <= i < |ids| ==> rs[i] == Rule(ids[i], rules[ids[i]])
  {
    if ids == [] then [] else Members(rules, ids[..|ids| - 1]) + [Rule(ids[|ids| - 1], rules[ids[|ids| - 1]])]
  }

  lemma MembersAreRegular(rules: map<Text, Text>, ids: seq<Text>)
    requires Storable(rules) && forall i :: 0 <= i < |ids| ==> ids[i] in rules
    ensures OneSourcePerId(Members(rules, ids)) && NulFreeRules(Members(rules, ids))
  {
    hide ParseRuleName, NulFree;
  }

  lemma {:induction false} MembersCount(rules: map<Text, Text>, ids: seq<Text>, r: Rule)
    requires forall i :: 0 <= i < |ids| ==> ids[i] in rules
    ensures multiset(Members(rules, ids))[r] == if r.id in rules && r.source == rules[r.id] then multiset(ids)[r.id] else 0
  {
    if ids != [] {
      var init, last := ids[..|ids| - 1], ids[|ids| - 1];
      assert ids == init + [last];
      assert Members(rules, ids) == Members(rules, init) + [Rule(last, rules[last])];
      hide Members;
      MembersCount(rules, init, r);
      CountSnoc(init, last, r.id);
      CountSnoc(Members(rules, init), Rule(last, rules[last]), r);
    }
  }

  lemma CountSnoc<T>(s: seq<T>, x: T, y: T)
    ensures multiset(s + [x])[y] == multiset(s)[y] + if x == y then 1 else 0
  {
  }

  lemma SameMembersSameIds(rules: map<Text, Text>, ids: seq<Text>, ids': seq<Text>)
    requires forall i :: 0 <= i < |ids| ==> ids[i] in rules
    requires forall i :: 0 <= i < |ids'| ==> ids'[i] in rules
    ensures multiset(Members(rules, ids)) == multiset(Members(rules, ids')) <==> multiset(ids) == multiset(ids')
  {
    hide Members;
    var m, m' := multiset(Members(rules, ids)), multiset(Members(rules, ids'));
    forall r ensures multiset(ids) == multiset(ids') ==> m[r] == m'[r] {
      MembersCount(rules, ids, r);
      MembersCount(rules, ids', r);
    }
    forall id ensures m == m' ==> multiset(ids)[id] == multiset(ids')[id] {
      if id in rules {
        MembersCount(rules, ids, Rule(id, rules[id]));
        MembersCount(rules, ids', Rule(id, rules[id]));
      } else {
        assert id !in multiset(ids) && id !in multiset(ids');
      }
    }
    if multiset(ids) == multiset(ids') { assert m == m'; }
  }

  function Ids(rs: seq<Rule>): (ids: seq<Text>)
    ensures |ids| == |rs| && forall i :: 0 <= i < |rs| ==> ids[i] == rs[i].id
  {
    if rs == [] then [] else Ids(rs[..|rs| - 1]) + [rs[|rs| - 1].id]
  }

  ghost predicate AllKnown(rules: map<Text, Text>, ids: seq<Text>) {
    forall i :: 0 <= i < |ids| ==> ids[i] in rules
  }

  /** A stored bundle names known rules, each once, and its digest is theirs. */
  ghost predicate BundleOk(rules: map<Text, Text>, config: Text, sha256: seq<Byte> -> nat, digest: nat, bundle: Bundle) {
    && AllKnown(rules, bundle.members) && Distinct(bundle.members)
    && digest == sha256(BundleInput(Members(rules, bundle.members), config))
  }

  /** The rules in the order in which they are stored. */
  ghost function InOrder(rules: map<Text, Text>, ids: seq<Text>): seq<Text>
    requires AllKnown(rules, ids)
  {
    Ids(Sort(ById(), Members(rules, ids)))
  }

  /** Sorting rearranges the ids, and the sorted rules are those behind them. */
  lemma InOrderIsRearranged(rules: map<Text, Text>, ids: seq<Text>)
    requires AllKnown(rules, ids)
    ensures var sorted := Sort(ById(), Members(rules, ids));
            && AllKnown(rules, InOrder(rules, ids)) && Members(rules, InOrder(rules, ids)) == sorted
            && multiset(InOrder(rules, ids)) == multiset(ids)
  {
    hide Sort, Members, Ids;
    var rs := Members(rules, ids);
    var sorted := Sort(ById(), rs);
    SortedAreMembers(rules, rs);
    assert Members(rules, Ids(sorted)) == sorted;
    SameMembersSameIds(rules, ids, Ids(sorted));
  }

  lemma SortedAreMembers(rules: map<Text, Text>, rs: seq<Rule>)
    requires forall i :: 0 <= i < |rs| ==> rs[i].id in rules && rs[i].source == rules[rs[i].id]
    ensures var sorted := Sort(ById(), rs);
            && (forall i :: 0 <= i < |sorted| ==> sorted[i].id in rules && sorted[i].source == rules[sorted[i].id])
            && multiset(sorted) == multiset(rs)
  {
    ByIdIsPreorder();
    SortIsSortedPermutation(ById(), rs);
    hide Sort, ById;
    var sorted := Sort(ById(), rs);
    forall i | 0 <= i < |sorted| ensures sorted[i].id in rules && sorted[i].source == rules[sorted[i].id] {
      assert sorted[i] in multiset(sorted);
    }
  }

  class RuleRegistry {
    const compiles: Text -> bool
    const compileTogether: seq<Rule> -> bool
    const sha256: seq<Byte> -> nat
    const config: Text
    var rules: map<Text, Text>
    var revoked: set<Text>
    var bundles: map<nat, Bundle>

    ghost predicate Valid()
      reads this
    {
      Storable(rules) && NulFree(config) && forall d :: d in bundles ==> BundleOk(rules, config, sha256, d, bundles[d])
    }

    constructor (compiler: Text -> bool, together: seq<Rule> -> bool, hash: seq<Byte> -> nat, c: Text)
      requires NulFree(c)
      ensures Valid() && compiles == compiler && compileTogether == together && sha256 == hash && config == c
      ensures rules == map[] && revoked == {} && bundles == map[]
    {
      compiles, compileTogether, sha256, config, rules, revoked, bundles := compiler, together, hash, c, map[], {}, map[];
    }

    /** The only way a rule gets in. A text column takes no zero byte; a second source for an id
        is refused, and nothing ever replaces a source. */
    method CreateRule(source: Text) returns (r: Result<Text, RegistryError>)
      requires Valid()
      modifies this`rules
      ensures Valid()
      ensures r.Ok? <==>
                && ParseRuleName(source).Ok? && compiles(source)
                && (if ParseRuleName(source).value in old(rules) then old(rules)[ParseRuleName(source).value] == source else NulFree(source))
      ensures r.Ok? ==> ParseRuleName(source) == Ok(r.value) && rules == old(rules)[r.value := source]
      ensures r.Err? ==> rules == old(rules)
      ensures r == Err(Panicked) <==> ParseRuleName(source) == Err(PastTheEnd)
    {
      hide Strip, Tokens, Positions, IsIdentifier, BundleOk;
      var name := ParseRuleName(source);
      if name == Err(PastTheEnd) { return Err(Panicked); }
      if name.Err? { return Err(NameRefused(name.error)); }
      ParsedNameIsIdentifier(source);
      hide ParseRuleName;
      if !compiles(source) { return Err(DoesNotCompile); }
      if name.value in rules {
        if rules[name.value] == source { return Ok(name.value); }
        return Err(Conflict);
      }
      if 0 in source { return Err(NotStorable); }
      forall d | d in bundles ensures BundleOk(rules[name.value := source], config, sha256, d, bundles[d]) {
        BundleStays(rules, rules[name.value := source], config, sha256, d, bundles[d]);
      }
      rules := rules[name.value := source];
      return Ok(name.value);
    }

    method Fetch(ids: seq<Text>) returns (r: Result<seq<Rule>, RegistryError>)
      ensures r.Ok? <==> AllKnown(rules, ids) && forall i :: 0 <= i < |ids| ==> ids[i] !in revoked
      ensures r.Ok? ==> r.value == Members(rules, ids)
      ensures r.Err? ==> r.error == NotFound || r.error == Revoked
    {
      var members := [];
      for k := 0 to |ids|
        invariant AllKnown(rules, ids[..k]) && members == Members(rules, ids[..k])
        invariant forall i :: 0 <= i < k ==> ids[i] !in revoked
      {
        assert ids[..k + 1][..k] == ids[..k] && ids[..k + 1][k] == ids[k];
        if ids[k] !in rules { return Err(NotFound); }
        if ids[k] in revoked { return Err(Revoked); }
        assert AllKnown(rules, ids[..k + 1]);
        members := members + [Rule(ids[k], rules[ids[k]])];
      }
      assert ids[..|ids|] == ids;
      return Ok(members);
    }

    /** The rows of a new bundle; the primary key takes each rule once. */
    method Place(members: seq<Rule>) returns (r: Option<seq<Text>>)
      ensures r == if Distinct(Ids(members)) then Some(Ids(members)) else None
    {
      var placed := [];
      for k := 0 to |members|
        invariant placed == Ids(members)[..k] && Distinct(placed)
      {
        if members[k].id in placed {
          ghost var j :| 0 <= j < k && placed[j] == members[k].id;
          assert Ids(members)[j] == Ids(members)[k];
          return None;
        }
        placed := placed + [members[k].id];
      }
      assert placed == Ids(members);
      return Some(placed);
    }

    /** Publishing, in one transaction: the rules are sorted for compiling, and the digest sorts
        again. A known digest gives the stored bundle; otherwise a new one is stored. */
    method Publish(ids: seq<Text>, activate: bool) returns (r: Result<nat, RegistryError>)
      requires Valid()
      modifies this`bundles
      ensures Valid()
      ensures r.Ok? <==>
                && ids != [] && AllKnown(rules, ids) && (forall i :: 0 <= i < |ids| ==> ids[i] !in revoked)
                && compileTogether(Sort(ById(), Members(rules, ids)))
                && (sha256(BundleInput(Members(rules, ids), config)) in old(bundles) || Distinct(ids))
      ensures r.Ok? ==>
                && r.value == sha256(BundleInput(Members(rules, ids), config))
                && bundles == old(bundles)[r.value :=
                     if r.value in old(bundles) then Bundle(old(bundles)[r.value].members, old(bundles)[r.value].active || activate)
                     else Bundle(InOrder(rules, ids), activate)]
      ensures r.Err? ==> bundles == old(bundles)
    {
      hide BundleInput, Storable, NulFree, AllKnown, Members, Distinct, Sort;
      if ids == [] { return Err(NoRules); }
      var members := Fetch(ids);
      if members.Err? { return Err(members.error); }
      var sorted := Sort(ById(), members.value);
      if !compileTogether(sorted) { return Err(DoesNotCompile); }
      SortedInput(members.value, config);
      InOrderIsRearranged(rules, ids);
      var digest := BundleDigest(sorted, config, sha256);
      if digest in bundles {
        bundles := bundles[digest := Bundle(bundles[digest].members, bundles[digest].active || activate)];
        return Ok(digest);
      }
      SameDistinct(ids, Ids(sorted));
      var placed := Place(sorted);
      if placed.None? { return Err(TwiceInBundle); }
      bundles := bundles[digest := Bundle(placed.value, activate)];
      return Ok(digest);
    }
  }

  lemma SameDistinct(s: seq<Text>, t: seq<Text>)
    requires multiset(s) == multiset(t)
    ensures Distinct(s) == Distinct(t)
  {
    hide Distinct;
    if Distinct(s) { DistinctIgnoresOrder(s, t); }
    if Distinct(t) { DistinctIgnoresOrder(t, s); }
  }

  lemma BundleStays(rules: map<Text, Text>, rules': map<Text, Text>, config: Text, sha256: seq<Byte> -> nat, digest: nat, bundle: Bundle)
    requires BundleOk(rules, config, sha256, digest, bundle)
    requires forall id :: id in rules ==> id in rules' && rules'[id] == rules[id]
    ensures BundleOk(rules', config, sha256, digest, bundle)
  {
    hide Distinct, BundleInput;
    SourcesStay(rules, rules', bundle.members);
  }

  /** Sorting first feeds the same bytes. */
  lemma SortedInput(members: seq<Rule>, config: Text)
    ensures BundleInput(Sort(ById(), members), config) == BundleInput(members, config)
  {
    ByIdIsPreorder();
    SortIsSortedPermutation(ById(), members);
    SortOfSorted(ById(), Sort(ById(), members));
  }

  lemma SourcesStay(rules: map<Text, Text>, rules': map<Text, Text>, ids: seq<Text>)
    requires forall id :: id in rules ==> id in rules' && rules'[id] == rules[id]
    requires forall i :: 0 <= i < |ids| ==> ids[i] in rules
    ensures Members(rules, ids) == Members(rules', ids)
  {
  }

  /** What publishing promises: two bundles get their digest from the same bytes if and only if
      they name the same rules, in whatever order, now or at any later time. */
  lemma PublishedDigestIdentifies(rules: map<Text, Text>, ids: seq<Text>, rules': map<Text, Text>, ids': seq<Text>, config: Text)
    requires Storable(rules') && NulFree(config)
    requires forall id :: id in rules ==> id in rules' && rules'[id] == rules[id]
    requires forall i :: 0 <= i < |ids| ==> ids[i] in rules
    requires forall i :: 0 <= i < |ids'| ==> ids'[i] in rules'
    ensures BundleInput(Members(rules, ids), config) == BundleInput(Members(rules', ids'), config) <==> multiset(ids) == multiset(ids')
  {
    hide *;
    SourcesStay(rules, rules', ids);
    MembersAreRegular(rules', ids);
    MembersAreRegular(rules', ids');
    SameMembersSameIds(rules', ids, ids');
    BundleIgnoresOrder(Members(rules', ids), config, Members(rules', ids'), config);
  }

  /** A call that finds its digest gets the bundle of exactly the rules it named, whenever that
      was stored, unless SHA-256 maps two different inputs to one digest; and then it named each
      rule once. */
  lemma FoundBundleIsTheOneNamed(rules: map<Text, Text>, config: Text, sha256: seq<Byte> -> nat, ids: seq<Text>, bundle: Bundle)
    requires Storable(rules) && NulFree(config) && AllKnown(rules, ids)
    requires BundleOk(rules, config, sha256, sha256(BundleInput(Members(rules, ids), config)), bundle)
    requires var x, y := BundleInput(Members(rules, ids), config), BundleInput(Members(rules, bundle.members), config);
             sha256(x) == sha256(y) ==> x == y
    ensures multiset(ids) == multiset(bundle.members) && Distinct(ids)
  {
    hide Storable, BundleInput, Members, Distinct;
    PublishedDigestIdentifies(rules, ids, rules, bundle.members, config);
    SameDistinct(ids, bundle.members);
  }
}
