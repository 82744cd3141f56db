/** Rule sources and bundle digests (rules.rs). Texts are their bytes, and SHA-256 is a
    function of the bytes fed to it. */
module Rules {
  import opened Bytes
  import opened StableSort

  // ---------------------------------------------------------------- comments

  const SLASH: Byte := 0x2f
  const STAR: Byte := 0x2a
  const NEWLINE: Byte := 0x0a

  predicate Opens(s: seq<Byte>, second: Byte) {
    |s| >= 2 && s[0] == SLASH && s[1] == second
  }

  /** From the newline that ends a line comment. */
  function AfterLine(s: seq<Byte>): (r: seq<Byte>)
    ensures |r| <= |s|
  {
    if s == [] || s[0] == NEWLINE then s else AfterLine(s[1..])
  }

  /** Behind the end of a block comment; an open one takes the rest of the text. */
  function AfterBlock(s: seq<Byte>): (r: seq<Byte>)
    ensures |r| <= |s|
  {
    if |s| < 2 then [] else if s[0] == STAR && s[1] == SLASH then s[2..] else AfterBlock(s[1..])
  }

  /** The bytes outside comments. */
  function Kept(s: seq<Byte>): seq<Byte>
    decreases |s|
  {
    if s == [] then []
    else if Opens(s, SLASH) then
      AfterLineIsShorter(s);
      Kept(AfterLine(s))
    else if Opens(s, STAR) then Kept(AfterBlock(s[2..]))
    else [s[0]] + Kept(s[1..])
  }

  lemma AfterLineIsShorter(s: seq<Byte>)
    requires Opens(s, SLASH)
    ensures |AfterLine(s)| < |s|
  {
  }

  /** The code pushes each kept byte as a char, so a byte above 0x7f becomes the two bytes of the
      char with that number. */
  function CharBytes(b: Byte): (bytes: seq<Byte>)
    ensures 1 <= |bytes| <= 2
  {
    if b < 0x80 then [b] else [0xc0 + b / 64, 0x80 + b % 64]
  }

  function AsChars(s: seq<Byte>): (t: seq<Byte>)
    ensures |s| <= |t|
  {
    if s == [] then [] else CharBytes(s[0]) + AsChars(s[1..])
  }

  function Strip(s: seq<Byte>): seq<Byte> {
    AsChars(Kept(s))
  }

  method StripComments(src: seq<Byte>) returns (out: seq<Byte>)
    ensures out == Strip(src)
  {
    OutOfNothing();
    hide AsChars, CharBytes;
    out := [];
    var i := 0;
    assert src[0..] == src;
    while i < |src|
      invariant 0 <= i <= |src|
      invariant Strip(src) == out + Strip(src[i..])
    {
      ghost var rest := src[i..];
      if i + 1 < |src| && src[i] == SLASH && src[i + 1] == SLASH {
        AfterLineIsShorter(rest);
        ghost var i0 := i;
        while i < |src| && src[i] != NEWLINE
          invariant i0 <= i <= |src|
          invariant AfterLine(rest) == AfterLine(src[i..])
        {
          assert src[i..][1..] == src[i + 1..];
          i := i + 1;
        }
        assert AfterLine(rest) == src[i..];
      } else if i + 1 < |src| && src[i] == SLASH && src[i + 1] == STAR {
        i := i + 2;
        assert rest[2..] == src[i..];
        ghost var i0 := i;
        while i + 1 < |src| && !(src[i] == STAR && src[i + 1] == SLASH)
          invariant i0 <= i <= |src|
          invariant AfterBlock(rest[2..]) == AfterBlock(src[i..])
        {
          assert src[i..][1..] == src[i + 1..];
          i := i + 1;
        }
        if i + 2 <= |src| {
          assert src[i..][2..] == src[i + 2..];
          i := i + 2;
        } else {
          i := |src|;
        }
        assert AfterBlock(rest[2..]) == src[i..];
      } else {
        assert rest[1..] == src[i + 1..];
        OneKept(src[i], Kept(rest[1..]));
        out := out + CharBytes(src[i]);
        i := i + 1;
      }
    }
  }

  lemma OutOfNothing()
    ensures AsChars([]) == []
  {
  }

  lemma OneKept(b: Byte, rest: seq<Byte>)
    ensures AsChars([b] + rest) == CharBytes(b) + AsChars(rest)
  {
    assert ([b] + rest)[1..] == rest;
  }

  /** No comment starts anywhere. */
  ghost predicate CommentFree(s: seq<Byte>) {
    forall i :: 0 <= i < |s| - 1 && s[i] == SLASH ==> s[i + 1] != SLASH && s[i + 1] != STAR
  }

  /** Removing a comment never joins what stands around it into a new one. */
  lemma {:induction false} KeptLeavesNoComment(s: seq<Byte>)
    ensures CommentFree(Kept(s))
    decreases |s|
  {
    if s == [] {
    } else if Opens(s, SLASH) {
      AfterLineIsShorter(s);
      KeptLeavesNoComment(AfterLine(s));
    } else if Opens(s, STAR) {
      KeptLeavesNoComment(AfterBlock(s[2..]));
    } else {
      var rest := Kept(s[1..]);
      KeptLeavesNoComment(s[1..]);
      if s[0] == SLASH && |s| > 1 {
        assert !Opens(s[1..], SLASH) && !Opens(s[1..], STAR);
        assert rest[0] == s[1];
      }
    }
  }

  lemma TailIsCommentFree(s: seq<Byte>)
    requires s != [] && CommentFree(s)
    ensures CommentFree(s[1..])
  {
    forall i | 0 <= i < |s[1..]| - 1 && s[1..][i] == SLASH
      ensures s[1..][i + 1] != SLASH && s[1..][i + 1] != STAR
    {
      assert s[i + 1] == SLASH && s[1..][i + 1] == s[i + 1 + 1];
    }
  }

  lemma {:induction false} KeptOfCommentFree(s: seq<Byte>)
    requires CommentFree(s)
    ensures Kept(s) == s
    decreases |s|
  {
    if s != [] {
      if |s| >= 2 && s[0] == SLASH { assert s[0 + 1] != SLASH; }
      TailIsCommentFree(s);
      KeptOfCommentFree(s[1..]);
    }
  }

  /** No byte of `x` opens a comment, whatever follows: a slash has a successor, which is neither
      a slash nor a star. */
  ghost predicate Plain(x: seq<Byte>) {
    forall i :: 0 <= i < |x| && x[i] == 0x2f ==> i + 1 < |x| && x[i + 1] != 0x2f && x[i + 1] != 0x2a
  }

  lemma {:induction false} KeptAfterPlain(x: seq<Byte>, s: seq<Byte>)
    requires Plain(x)
    ensures Kept(x + s) == x + Kept(s)
  {
    if x == [] {
      assert x + s == s;
    } else {
      PlainTail(x);
      KeptAfterPlain(x[1..], s);
      assert (x + s)[1..] == x[1..] + s && (x + s)[0] == x[0];
      KeptStep(x + s) by { OpensNot(x, s); }
      hide Kept, Plain;
      assert x == [x[0]] + x[1..];
    }
  }

  lemma PlainTail(x: seq<Byte>)
    requires Plain(x) && x != []
    ensures Plain(x[1..])
  {
    forall i | 0 <= i < |x[1..]| && x[1..][i] == 0x2f
      ensures i + 1 < |x[1..]| && x[1..][i + 1] != 0x2f && x[1..][i + 1] != 0x2a
    {
      assert x[i + 1] == 0x2f;
    }
  }

  lemma OpensNot(x: seq<Byte>, s: seq<Byte>)
    requires Plain(x) && x != []
    ensures !Opens(x + s, SLASH) && !Opens(x + s, STAR)
  {
    assert x[0] == 0x2f ==> x[0 + 1] != 0x2f && x[0 + 1] != 0x2a;
  }

  lemma KeptStep(s: seq<Byte>)
    requires s != [] && !Opens(s, SLASH) && !Opens(s, STAR)
    ensures Kept(s) == [s[0]] + Kept(s[1..])
  {
  }

  lemma {:induction false} AfterLineOf(c: seq<Byte>, y: seq<Byte>)
    requires 0x0a !in c && (y == [] || y[0] == 0x0a)
    ensures AfterLine(c + y) == y
  {
    if c == [] {
      assert c + y == y;
    } else {
      assert c[0] in c;
      AfterLineOf(c[1..], y);
      assert (c + y)[1..] == c[1..] + y;
    }
  }

  /** No star of `c` has a slash behind it. */
  ghost predicate StaysOpen(c: seq<Byte>) {
    forall i :: 0 <= i < |c| - 1 && c[i] == 0x2a ==> c[i + 1] != 0x2f
  }

  lemma {:induction false} AfterBlockOf(c: seq<Byte>, y: seq<Byte>)
    requires StaysOpen(c)
    ensures AfterBlock(c + [0x2a, 0x2f] + y) == y && AfterBlock(c) == []
  {
    var s := c + [0x2a, 0x2f] + y;
    if c != [] {
      if |c| > 1 { assert c[0] == 0x2a ==> c[0 + 1] != 0x2f; }
      forall i | 0 <= i < |c[1..]| - 1 && c[1..][i] == 0x2a ensures c[1..][i + 1] != 0x2f {
        assert c[i + 1] == 0x2a && c[1..][i + 1] == c[i + 1 + 1];
      }
      AfterBlockOf(c[1..], y);
      assert s[1..] == c[1..] + [0x2a, 0x2f] + y;
    }
  }

  /** What stands before, between and behind comments is kept, and nothing else: a line comment
      goes up to its newline, which stays, a block comment with its end, and one without an end
      takes the rest. */
  lemma KeptByPieces(x: seq<Byte>, c: seq<Byte>, y: seq<Byte>)
    requires Plain(x)
    ensures Kept(x) == x && Kept(x + [0x2f]) == x + [0x2f]
    ensures 0x0a !in c ==>
              && Kept(x + [0x2f, 0x2f] + c + [0x0a] + y) == x + [0x0a] + Kept(y)
              && Kept(x + [0x2f, 0x2f] + c) == x
    ensures (forall i :: 0 <= i < |c| - 1 && c[i] == 0x2a ==> c[i + 1] != 0x2f) ==>
              && Kept(x + [0x2f, 0x2a] + c + [0x2a, 0x2f] + y) == x + Kept(y)
              && Kept(x + [0x2f, 0x2a] + c) == x
  {
    PlainStays(x);
    if 0x0a !in c { LinePieces(x, c, y); }
    if StaysOpen(c) { BlockPieces(x, c, y); }
    hide Kept, Plain;
  }

  lemma LinePieces(x: seq<Byte>, c: seq<Byte>, y: seq<Byte>)
    requires Plain(x) && 0x0a !in c
    ensures Kept(x + [0x2f, 0x2f] + c + [0x0a] + y) == x + [0x0a] + Kept(y)
    ensures Kept(x + [0x2f, 0x2f] + c) == x
  {
    PlainStays(x);
    LineComment(x, c, [0x0a] + y);
    LineComment(x, c, []);
    NewlineStays(y);
    hide Kept, Plain;
    Regroup(x + [0x2f, 0x2f] + c, [0x0a], y);
    Regroup(x, [0x0a], Kept(y));
    assert x + [0x2f, 0x2f] + c + [] == x + [0x2f, 0x2f] + c && x + [] == x;
  }

  lemma Regroup(a: seq<Byte>, b: seq<Byte>, c: seq<Byte>)
    ensures a + (b + c) == a + b + c
  {
  }

  lemma BlockPieces(x: seq<Byte>, c: seq<Byte>, y: seq<Byte>)
    requires Plain(x) && StaysOpen(c)
    ensures Kept(x + [0x2f, 0x2a] + c + [0x2a, 0x2f] + y) == x + Kept(y)
    ensures Kept(x + [0x2f, 0x2a] + c) == x
  {
    PlainStays(x);
    AfterBlockOf(c, y);
    BlockComment(x, c + [0x2a, 0x2f] + y);
    BlockComment(x, c);
    hide Kept, Plain, StaysOpen, AfterBlock;
    Regroup(x + [0x2f, 0x2a], c + [0x2a, 0x2f], y);
    Regroup(x + [0x2f, 0x2a], c, [0x2a, 0x2f]);
    assert x + [] == x;
  }

  lemma PlainStays(x: seq<Byte>)
    requires Plain(x)
    ensures Kept(x) == x && Kept(x + [0x2f]) == x + [0x2f] && Kept([]) == []
  {
    assert x + [] == x;
    KeptAfterPlain(x, []);
    KeptAfterPlain(x, [0x2f]);
    KeptOfCommentFree([0x2f]);
  }

  lemma NewlineStays(y: seq<Byte>)
    ensures Kept([0x0a] + y) == [0x0a] + Kept(y)
  {
    assert ([0x0a] + y)[1..] == y;
  }

  lemma LineComment(x: seq<Byte>, c: seq<Byte>, y: seq<Byte>)
    requires Plain(x) && 0x0a !in c && (y == [] || y[0] == 0x0a)
    ensures Kept(x + [0x2f, 0x2f] + c + y) == x + Kept(y)
  {
    var s := [0x2f, 0x2f] + c + y;
    KeptAfterPlain(x, s);
    assert x + s == x + [0x2f, 0x2f] + c + y;
    AfterLineOf([0x2f, 0x2f] + c, y);
    assert s == ([0x2f, 0x2f] + c) + y;
  }

  lemma BlockComment(x: seq<Byte>, s: seq<Byte>)
    requires Plain(x)
    ensures Kept(x + [0x2f, 0x2a] + s) == x + Kept(AfterBlock(s))
  {
    var t := [0x2f, 0x2a] + s;
    KeptAfterPlain(x, t);
    assert x + t == x + [0x2f, 0x2a] + s;
    assert t[2..] == s;
  }

  lemma {:induction false} AsCharsKeepsCommentFree(s: seq<Byte>)
    requires CommentFree(s)
    ensures CommentFree(AsChars(s))
    ensures s != [] ==> AsChars(s)[0] == s[0] || (AsChars(s)[0] >= 0xc0 && s[0] >= 0x80)
  {
    if s != [] {
      TailIsCommentFree(s);
      AsCharsKeepsCommentFree(s[1..]);
      var head, rest := CharBytes(s[0]), AsChars(s[1..]);
      if |s| > 1 && s[0] == SLASH { assert s[0 + 1] != SLASH && s[0 + 1] != STAR; }
      CommentFreeJoin(head, rest);
    }
  }

  lemma CommentFreeJoin(head: seq<Byte>, rest: seq<Byte>)
    requires CommentFree(rest) && (head == [SLASH] || SLASH !in head)
    requires head == [SLASH] && rest != [] ==> rest[0] != SLASH && rest[0] != STAR
    ensures CommentFree(head + rest)
  {
    var s := head + rest;
    forall i | 0 <= i < |s| - 1 && s[i] == SLASH ensures s[i + 1] != SLASH && s[i + 1] != STAR {
      if i < |head| {
        assert s[i] == head[i];
      } else {
        assert rest[i - |head|] == SLASH && s[i + 1] == rest[i - |head| + 1];
      }
    }
  }

  /** Neither removing a comment nor the change of bytes above 0x7f makes a new one. */
  lemma StripLeavesNoComment(s: seq<Byte>)
    ensures CommentFree(Strip(s))
  {
    KeptLeavesNoComment(s);
    AsCharsKeepsCommentFree(Kept(s));
  }

  /** So a second strip removes nothing, and does nothing but change bytes again. */
  lemma StripAgain(s: seq<Byte>)
    ensures Strip(Strip(s)) == AsChars(Strip(s))
  {
    StripLeavesNoComment(s);
    KeptOfCommentFree(Strip(s));
  }

  ghost predicate IsAscii(s: seq<Byte>) {
    forall i :: 0 <= i < |s| ==> s[i] < 0x80
  }

  lemma {:induction false} AsCharsOfAscii(s: seq<Byte>)
    ensures IsAscii(AsChars(s)) <==> IsAscii(s)
    ensures AsChars(s) == s <==> IsAscii(s)
    ensures |AsChars(s)| == |s| <==> IsAscii(s)
  {
    if s != [] {
      AsCharsOfAscii(s[1..]);
      var t := AsChars(s);
      assert s == [s[0]] + s[1..];
      if s[0] < 0x80 {
        assert t == [s[0]] + AsChars(s[1..]);
        assert t[1..] == AsChars(s[1..]);
        assert IsAscii(s) <==> IsAscii(s[1..]);
        assert IsAscii(t) <==> IsAscii(t[1..]);
      } else {
        assert t[0] >= 0x80;
      }
    }
  }

  /** Stripping twice is stripping once exactly when what stands outside comments is ASCII. */
  lemma StripIsIdempotentExactly(s: seq<Byte>)
    ensures Strip(Strip(s)) == Strip(s) <==> IsAscii(Kept(s))
  {
    StripAgain(s);
    AsCharsOfAscii(Kept(s));
    AsCharsOfAscii(Strip(s));
  }

  /** One accented letter: its two bytes become four, and then eight. */
  lemma StripChangesAccents()
    ensures Strip([0xc3, 0xa9]) == [0xc3, 0x83, 0xc2, 0xa9]
    ensures Strip(Strip([0xc3, 0xa9])) != Strip([0xc3, 0xa9])
  {
    hide AsChars, Kept;
    var s: seq<Byte> := [0xc3, 0xa9];
    KeptOfCommentFree(s);
    OneKept(0xc3, [0xa9]);
    OneKept(0xa9, []);
    OutOfNothing();
    StripIsIdempotentExactly(s);
    assert !(s[0] < 0x80) && s == [0xc3] + [0xa9] && [0xa9] + [] == [0xa9];
  }

  // ---------------------------------------------------------------- bundle digest

  type Text = seq<Byte>

  datatype Rule = Rule(id: Text, source: Text)

  /** "corpus-rule-bundle-v1", then a zero byte. */
  const DOMAIN: seq<Byte> :=
    [0x63, 0x6f, 0x72, 0x70, 0x75, 0x73, 0x2d, 0x72, 0x75, 0x6c, 0x65, 0x2d, 0x62, 0x75, 0x6e, 0x64, 0x6c, 0x65, 0x2d, 0x76, 0x31, 0]

  /** Texts compare byte by byte. */
  predicate TextLe(x: Text, y: Text) {
    x == [] || (y != [] && (x[0] < y[0] || (x[0] == y[0] && TextLe(x[1..], y[1..]))))
  }

  function ById(): (Rule, Rule) -> bool {
    (x: Rule, y: Rule) => TextLe(x.id, y.id)
  }

  function FeedRules(rules: seq<Rule>): seq<Byte> {
    if rules == [] then [] else rules[0].id + [0] + rules[0].source + [0] + FeedRules(rules[1..])
  }

  /** What the digest is taken of. */
  function BundleInput(rules: seq<Rule>, config: Text): seq<Byte> {
    DOMAIN + FeedRules(Sort(ById(), rules)) + config
  }

  method BundleDigest(rules: seq<Rule>, config: Text, sha256: seq<Byte> -> nat) returns (digest: nat)
    ensures digest == sha256(BundleInput(rules, config))
  {
    var sorted := Sort(ById(), rules);
    var fed := DOMAIN;
    for k := 0 to |sorted|
      invariant fed + FeedRules(sorted[k..]) == DOMAIN + FeedRules(sorted)
    {
      var rule := sorted[k];
      FeedOne(fed, sorted, k);
      fed := fed + rule.id;
      fed := fed + [0];
      fed := fed + rule.source;
      fed := fed + [0];
    }
    assert fed == DOMAIN + FeedRules(sorted);
    fed := fed + config;
    digest := sha256(fed);
  }

  lemma FeedOne(fed: seq<Byte>, sorted: seq<Rule>, k: nat)
    requires k < |sorted|
    ensures (((fed + sorted[k].id) + [0]) + sorted[k].source) + [0] + FeedRules(sorted[k + 1..]) == fed + FeedRules(sorted[k..])
  {
    assert sorted[k..][1..] == sorted[k + 1..];
    var x, y, z := sorted[k].id, sorted[k].source, FeedRules(sorted[k + 1..]);
    assert FeedRules(sorted[k..]) == x + [0] + y + [0] + z;
    assert fed + (x + [0] + y + [0] + z) == (((fed + x) + [0]) + y) + [0] + z;
  }

  lemma {:induction false} TextLeTotal(x: Text, y: Text)
    ensures TextLe(x, y) || TextLe(y, x)
    ensures TextLe(x, y) && TextLe(y, x) ==> x == y
  {
    if x != [] && y != [] {
      TextLeTotal(x[1..], y[1..]);
      assert x == [x[0]] + x[1..] && y == [y[0]] + y[1..];
    }
  }

  lemma {:induction false} TextLeTransitive(x: Text, y: Text, z: Text)
    requires TextLe(x, y) && TextLe(y, z)
    ensures TextLe(x, z)
  {
    if x != [] && x[0] == y[0] == z[0] { TextLeTransitive(x[1..], y[1..], z[1..]); }
  }

  lemma ByIdIsPreorder()
    ensures TotalPreorder(ById())
  {
    forall x: Rule, y: Rule ensures ById()(x, y) || ById()(y, x) { TextLeTotal(x.id, y.id); }
    forall x: Rule, y: Rule, z: Rule | ById()(x, y) && ById()(y, z) ensures ById()(x, z) { TextLeTransitive(x.id, y.id, z.id); }
  }

  /** What the registry guarantees: an id stands for one source. The same rule may be listed
      twice. */
  ghost predicate OneSourcePerId(rules: seq<Rule>) {
    forall x, y :: x in rules && y in rules && x.id == y.id ==> x == y
  }

  /** Then the sorted arrangement depends on the multiset of rules only. */
  lemma {:induction false} SortedByIdIsUnique(s: seq<Rule>, t: seq<Rule>)
    requires Sorted(ById(), s) && Sorted(ById(), t) && multiset(s) == multiset(t) && OneSourcePerId(s)
    ensures s == t
  {
    SameLength(s, t);
    if s != [] {
      FirstsAreOne(s, t);
      TailsAgree(s, t);
      assert s == [s[0]] + s[1..] && t == [t[0]] + t[1..];
      assert OneSourcePerId(s[1..]);
      SortedByIdIsUnique(s[1..], t[1..]);
    }
  }

  lemma FirstsAreOne(s: seq<Rule>, t: seq<Rule>)
    requires Sorted(ById(), s) && Sorted(ById(), t) && multiset(s) == multiset(t) && OneSourcePerId(s)
    requires s != [] && t != []
    ensures s[0] == t[0]
  {
    assert s[0] in multiset(t) && t[0] in multiset(s);
    var i :| 0 <= i < |t| && t[i] == s[0];
    var j :| 0 <= j < |s| && s[j] == t[0];
    if i > 0 && j > 0 {
      assert ById()(t[0], t[i]) && ById()(s[0], s[j]);
      TextLeTotal(s[0].id, t[0].id);
      assert s[0] in s && t[0] in s;
    }
  }

  predicate NulFree(x: Text) {
    0 !in x
  }

  predicate NulFreeRules(rules: seq<Rule>) {
    forall r :: r in rules ==> NulFree(r.id) && NulFree(r.source)
  }

  /** A text up to its first zero byte is unique. */
  lemma SplitAtNul(x: Text, a: seq<Byte>, y: Text, b: seq<Byte>)
    requires NulFree(x) && NulFree(y) && x + [0] + a == y + [0] + b
    ensures x == y && a == b
  {
    var s, t := x + [0] + a, y + [0] + b;
    assert s[|x|] == 0 && t[|y|] == 0;
    assert forall i :: 0 <= i < |x| ==> s[i] == x[i] && x[i] in x;
    assert forall i :: 0 <= i < |y| ==> t[i] == y[i] && y[i] in y;
    assert |x| == |y|;
    assert s[..|x|] == x && t[..|y|] == y && s[|x| + 1..] == a && t[|y| + 1..] == b;
  }

  /** Without zero bytes inside, the fed bytes give back every rule and the configuration. */
  lemma {:induction false} FeedIsInjective(rs: seq<Rule>, c: Text, rs': seq<Rule>, c': Text)
    requires NulFreeRules(rs) && NulFreeRules(rs') && NulFree(c) && NulFree(c')
    requires FeedRules(rs) + c == FeedRules(rs') + c'
    ensures rs == rs' && c == c'
  {
    if rs == [] || rs' == [] {
      NulInFeed(rs, c);
      NulInFeed(rs', c');
    } else {
      var more, more' := FeedRules(rs[1..]) + c, FeedRules(rs'[1..]) + c';
      Unroll(rs, c);
      Unroll(rs', c');
      hide FeedRules;
      assert NulFreeRules(rs[1..]) && NulFreeRules(rs'[1..]);
      assert rs[0] in rs && rs'[0] in rs';
      SplitAtNul(rs[0].id, rs[0].source + [0] + more, rs'[0].id, rs'[0].source + [0] + more');
      SplitAtNul(rs[0].source, more, rs'[0].source, more');
      FeedIsInjective(rs[1..], c, rs'[1..], c');
      assert rs == [rs[0]] + rs[1..] && rs' == [rs'[0]] + rs'[1..];
    }
  }

  lemma Unroll(rs: seq<Rule>, c: Text)
    requires rs != []
    ensures FeedRules(rs) + c == rs[0].id + [0] + (rs[0].source + [0] + (FeedRules(rs[1..]) + c))
  {
    var x, y, z := rs[0].id, rs[0].source, FeedRules(rs[1..]);
    assert (x + [0] + y + [0] + z) + c == x + [0] + (y + [0] + (z + c));
  }

  lemma NulInFeed(rs: seq<Rule>, c: Text)
    requires NulFree(c)
    ensures 0 in FeedRules(rs) + c <==> rs != []
    ensures rs == [] ==> FeedRules(rs) + c == c
  {
    if rs != [] {
      Unroll(rs, c);
      var all := rs[0].id + [0] + (rs[0].source + [0] + (FeedRules(rs[1..]) + c));
      assert all[|rs[0].id|] == 0;
    }
  }

  /** The rules with one id, in the order they are given. */
  function OfId(rules: seq<Rule>, id: Text): seq<Rule> {
    if rules == [] then [] else (if rules[0].id == id then [rules[0]] else []) + OfId(rules[1..], id)
  }

  ghost predicate SameById(rules: seq<Rule>, rules': seq<Rule>) {
    forall id :: OfId(rules, id) == OfId(rules', id)
  }

  lemma {:induction false} TiesAreOfId(rules: seq<Rule>, x: Rule)
    ensures Ties(ById(), x, rules) == OfId(rules, x.id)
  {
    if rules != [] {
      TextLeTotal(x.id, rules[0].id);
      TiesAreOfId(rules[1..], x);
    }
  }

  lemma SortKeepsOfId(rules: seq<Rule>, id: Text)
    ensures OfId(Sort(ById(), rules), id) == OfId(rules, id)
  {
    var x := Rule(id, []);
    ByIdIsPreorder();
    SortIsStable(ById(), x, rules);
    TiesAreOfId(rules, x);
    TiesAreOfId(Sort(ById(), rules), x);
  }

  lemma SortedSameOfId(rs: seq<Rule>, rs': seq<Rule>)
    requires SameById(rs, rs')
    ensures Sort(ById(), rs) == Sort(ById(), rs')
  {
    ByIdIsPreorder();
    var s, s' := Sort(ById(), rs), Sort(ById(), rs');
    SortIsSortedPermutation(ById(), rs);
    SortIsSortedPermutation(ById(), rs');
    forall x: Rule ensures Ties(ById(), x, s) == Ties(ById(), x, s') {
      TiesAreOfId(s, x);
      TiesAreOfId(s', x);
      SortKeepsOfId(rs, x.id);
      SortKeepsOfId(rs', x.id);
    }
    SortedWithSameTiesIsUnique(ById(), s, s');
  }

  lemma SortedDecides(rs: seq<Rule>, rs': seq<Rule>, c: Text)
    requires Sort(ById(), rs) == Sort(ById(), rs')
    ensures BundleInput(rs, c) == BundleInput(rs', c)
  {
  }

  lemma SameBytesSameSorted(rs: seq<Rule>, c: Text, rs': seq<Rule>, c': Text)
    requires NulFreeRules(rs) && NulFreeRules(rs') && NulFree(c) && NulFree(c')
    requires BundleInput(rs, c) == BundleInput(rs', c')
    ensures Sort(ById(), rs) == Sort(ById(), rs') && c == c'
  {
    SortedIsNulFree(rs);
    SortedIsNulFree(rs');
    hide NulFreeRules;
    AfterDomain(FeedRules(Sort(ById(), rs)), c, FeedRules(Sort(ById(), rs')), c');
    FeedIsInjective(Sort(ById(), rs), c, Sort(ById(), rs'), c');
  }

  /** What the digest identifies: the same bytes are fed exactly when each id has the same
      rules in the same order, and the compiler configuration is the same. */
  lemma BundleInputIdentifies(rs: seq<Rule>, c: Text, rs': seq<Rule>, c': Text)
    requires NulFreeRules(rs) && NulFreeRules(rs') && NulFree(c) && NulFree(c')
    ensures BundleInput(rs, c) == BundleInput(rs', c') <==> SameById(rs, rs') && c == c'
  {
    hide BundleInput;
    if SameById(rs, rs') && c == c' {
      SortedSameOfId(rs, rs');
      SortedDecides(rs, rs', c);
    }
    if BundleInput(rs, c) == BundleInput(rs', c') {
      SameBytesSameSorted(rs, c, rs', c');
      forall id ensures OfId(rs, id) == OfId(rs', id) {
        SortKeepsOfId(rs, id);
        SortKeepsOfId(rs', id);
      }
    }
  }

  /** For rule lists as the registry holds them, in whatever order they are given. */
  lemma BundleIgnoresOrder(rs: seq<Rule>, c: Text, rs': seq<Rule>, c': Text)
    requires OneSourcePerId(rs)
    requires NulFreeRules(rs) && NulFreeRules(rs') && NulFree(c) && NulFree(c')
    ensures BundleInput(rs, c) == BundleInput(rs', c') <==> multiset(rs) == multiset(rs') && c == c'
  {
    ByIdIsPreorder();
    SortIsSortedPermutation(ById(), rs);
    SortIsSortedPermutation(ById(), rs');
    if multiset(rs) == multiset(rs') && c == c' {
      SortKeepsOneSource(rs);
      SortedByIdIsUnique(Sort(ById(), rs), Sort(ById(), rs'));
    }
    if BundleInput(rs, c) == BundleInput(rs', c') {
      hide TotalPreorder, Sorted, OneSourcePerId;
      SameBytesSameSorted(rs, c, rs', c');
    }
  }

  lemma SortKeepsOneSource(rs: seq<Rule>)
    requires OneSourcePerId(rs)
    ensures OneSourcePerId(Sort(ById(), rs))
  {
    ByIdIsPreorder();
    forall x ensures x in Sort(ById(), rs) <==> x in rs { SortKeepsMembers(ById(), rs, x); }
  }

  lemma SortedIsNulFree(rs: seq<Rule>)
    requires NulFreeRules(rs)
    ensures NulFreeRules(Sort(ById(), rs))
  {
    ByIdIsPreorder();
    forall r | r in Sort(ById(), rs) ensures NulFree(r.id) && NulFree(r.source) { SortKeepsMembers(ById(), rs, r); }
  }

  lemma AfterDomain(x: seq<Byte>, c: Text, x': seq<Byte>, c': Text)
    requires DOMAIN + x + c == DOMAIN + x' + c'
    ensures x + c == x' + c'
  {
    var d := DOMAIN;
    assert d + x + c == d + (x + c) && d + x' + c' == d + (x' + c');
    assert (d + (x + c))[|d|..] == x + c && (d + (x' + c'))[|d|..] == x' + c';
  }
}
