/**
 * What the elements of a path are, said once for both directions: the list of tokens of a string, and how
 * neighbouring tokens lie in it. Positions are indices into the string; -1 is the position before the front.
 */
module PathTokens {

  datatype ParserState = BeforeBegin | InRootName | InRootDir | InFilenames | InTrailingSep | AtEnd

  /** A string_view into the path: the characters [start, end). */
  datatype View = NoView | View(start: int, end: int)

  datatype Token = Token(state: ParserState, entry: View)

  // ---- maximal runs of separators and of other characters ----

  predicate IsRun(path: string, sep: bool, a: int, b: int) {
    0 <= a <= b <= |path| && forall i :: a <= i < b ==> (path[i] == '/') == sep
  }

  function RunEnd(path: string, sep: bool, p: nat): (e: nat)
    requires p <= |path|
    ensures p <= e <= |path| && IsRun(path, sep, p, e)
    ensures e == |path| || (path[e] == '/') != sep
    decreases |path| - p
  {
    if p == |path| || (path[p] == '/') != sep then p else RunEnd(path, sep, p + 1)
  }

  lemma {:induction false} RunEndIs(path: string, sep: bool, p: nat, e: nat)
    requires IsRun(path, sep, p, e) && (e == |path| || (path[e] == '/') != sep)
    ensures RunEnd(path, sep, p) == e
    decreases e - p
  {
  }

  /** The position before the run that ends with character p. */
  function RunBefore(path: string, sep: bool, p: int): (b: int)
    requires -1 <= p < |path|
    ensures -1 <= b <= p && IsRun(path, sep, b + 1, p + 1)
    ensures b == -1 || (path[b] == '/') != sep
    decreases p + 1
  {
    if p == -1 || (path[p] == '/') != sep then p else RunBefore(path, sep, p - 1)
  }

  lemma {:induction false} RunBeforeIs(path: string, sep: bool, p: int, b: int)
    requires -1 <= b <= p < |path| && IsRun(path, sep, b + 1, p + 1) && (b == -1 || (path[b] == '/') != sep)
    ensures RunBefore(path, sep, p) == b
    decreases p - b
  {
  }

  // ---- the token list ----

  /** Exactly two leading separators, with the name that follows them, are a root name. */
  function RootNameEnd(path: string): (r: nat)
    ensures r <= |path|
  {
    if |path| >= 2 && RunEnd(path, true, 0) == 2 then RunEnd(path, false, 2) else 0
  }

  function NameTokens(path: string, p: nat): seq<Token>
    requires p <= |path| && (p == |path| || path[p] != '/')
    decreases |path| - p
  {
    if p == |path| then []
    else
      var e := RunEnd(path, false, p);
      var s := RunEnd(path, true, e);
      [Token(InFilenames, View(p, e))] +
      (if e < s == |path| then [Token(InTrailingSep, View(e, s))] else NameTokens(path, s))
  }

  function AfterRootName(path: string): seq<Token> {
    var r := RootNameEnd(path);
    var d := RunEnd(path, true, r);
    (if d > r then [Token(InRootDir, View(r, d))] else []) + NameTokens(path, d)
  }

  function Tokens(path: string): seq<Token> {
    var r := RootNameEnd(path);
    (if r > 0 then [Token(InRootName, View(0, r))] else []) + AfterRootName(path)
  }

  /** The preferred spelling of an element. */
  function Element(path: string, t: Token): string {
    match t.state
    case InRootDir => "/"
    case InTrailingSep => "."
    case InRootName | InFilenames =>
      if t.entry.View? && 0 <= t.entry.start <= t.entry.end <= |path| then path[t.entry.start..t.entry.end] else ""
    case BeforeBegin | AtEnd => ""
  }

  function ElementsOf(path: string, ts: seq<Token>): (es: seq<string>)
    ensures |es| == |ts|
    ensures forall i :: 0 <= i < |ts| ==> es[i] == Element(path, ts[i])
  {
    seq(|ts|, i requires 0 <= i < |ts| => Element(path, ts[i]))
  }

  function Elements(path: string): seq<string> {
    ElementsOf(path, Tokens(path))
  }

  // ---- where a token lies, and which token may follow which ----

  predicate Placed(path: string, t: Token) {
    && t.entry.View?
    && var s, e := t.entry.start, t.entry.end;
    && 0 <= s < e <= |path|
    && match t.state
       case InRootName => s == 0 && e == RootNameEnd(path)
       case InRootDir => s == RootNameEnd(path) && e == RunEnd(path, true, s)
       case InFilenames => s >= RootNameEnd(path) && e == RunEnd(path, false, s) && path[s] != '/' && (s == 0 || path[s - 1] == '/')
       case InTrailingSep => s > RootNameEnd(path) && e == RunEnd(path, true, s) == |path| && path[s - 1] != '/'
       case _ => false
  }

  predicate Follows(path: string, t: Token, u: Token)
    requires Placed(path, t) && Placed(path, u)
  {
    match u.state
    case InRootDir => t.state == InRootName && t.entry.end == u.entry.start
    case InFilenames =>
      || (t.state == InRootDir && t.entry.end == u.entry.start)
      || (t.state == InFilenames && t.entry.end < u.entry.start && IsRun(path, true, t.entry.end, u.entry.start))
    case InTrailingSep => t.state == InFilenames && t.entry.end == u.entry.start
    case _ => false
  }

  predicate Chained(path: string, ts: seq<Token>) {
    && (forall k :: 0 <= k < |ts| ==> Placed(path, ts[k]))
    && (forall k :: 0 < k < |ts| ==> Follows(path, ts[k - 1], ts[k]))
    && (ts != [] ==> ts[|ts| - 1].entry.end == |path|)
  }

  lemma ChainedCons(path: string, t: Token, ts: seq<Token>)
    requires Placed(path, t) && Chained(path, ts)
    requires if ts == [] then t.entry.end == |path| else Follows(path, t, ts[0])
    ensures Chained(path, [t] + ts)
  {
  }

  lemma {:induction false} NameTokensChained(path: string, p: nat)
    requires RootNameEnd(path) <= p <= |path|
    requires p == |path| || (path[p] != '/' && (p == 0 || path[p - 1] == '/'))
    ensures Chained(path, NameTokens(path, p))
    ensures p < |path| ==> NameTokens(path, p) != [] && NameTokens(path, p)[0].state == InFilenames
                           && NameTokens(path, p)[0].entry.start == p
    decreases |path| - p
  {
    if p < |path| {
      var e := RunEnd(path, false, p);
      var s := RunEnd(path, true, e);
      var t := Token(InFilenames, View(p, e));
      if e < s == |path| {
        var u := Token(InTrailingSep, View(e, s));
        ChainedCons(path, u, []);
        ChainedCons(path, t, [u]);
      } else {
        NameTokensChained(path, s);
        ChainedCons(path, t, NameTokens(path, s));
      }
    }
  }

  lemma AfterRootNameChained(path: string)
    ensures var ts, r := AfterRootName(path), RootNameEnd(path);
      Chained(path, ts) && (r < |path| <==> ts != []) &&
      (r < |path| ==> ts[0].entry.start == r && (r > 0 ==> ts[0].state == InRootDir))
  {
    var r := RootNameEnd(path);
    var d := RunEnd(path, true, r);
    RootNameIsFollowedByRoot(path);
    NameTokensChained(path, d);
    if d > r {
      ChainedCons(path, Token(InRootDir, View(r, d)), NameTokens(path, d));
    } else {
      assert AfterRootName(path) == NameTokens(path, d);
    }
  }

  /** Every token is placed, neighbours follow each other, and together they span the whole string. */
  lemma TokensChained(path: string)
    ensures Chained(path, Tokens(path))
    ensures path == "" <==> Tokens(path) == []
    ensures path != "" ==> Tokens(path)[0].entry.start == 0
  {
    var r := RootNameEnd(path);
    AfterRootNameChained(path);
    if r > 0 {
      ChainedCons(path, Token(InRootName, View(0, r)), AfterRootName(path));
      assert Tokens(path) == [Token(InRootName, View(0, r))] + AfterRootName(path);
    } else {
      assert Tokens(path) == AfterRootName(path);
    }
  }

  lemma RootNameIsFollowedByRoot(path: string)
    ensures var r := RootNameEnd(path); r == 0 || r == |path| || path[r] == '/'
  {
  }

  // ---- one step along the list ----

  const BEFORE := Token(BeforeBegin, NoView)
  const END := Token(AtEnd, NoView)

  /** The position a parser takes at index k, with a sentinel on either side of the list. */
  function At(path: string, k: int): Token
    requires -1 <= k <= |Tokens(path)|
  {
    if k == -1 then BEFORE else if k == |Tokens(path)| then END else Tokens(path)[k]
  }

  /** u is the position after t. */
  predicate Link(path: string, t: Token, u: Token) {
    if t == BEFORE then
      if path == "" then u == END else Placed(path, u) && u.entry.start == 0
    else if t == END then u == END
    else Placed(path, t) && if t.entry.end == |path| then u == END else Placed(path, u) && Follows(path, t, u)
  }

  lemma LinkAt(path: string, k: int)
    requires -1 <= k < |Tokens(path)|
    ensures Link(path, At(path, k), At(path, k + 1))
  {
    TokensChained(path);
    var ts := Tokens(path);
    if 0 <= k && k + 1 < |ts| {
      assert Follows(path, ts[k + 1 - 1], ts[k + 1]);
    }
  }

  // ---- what a backward walk meets ----

  lemma RootNameShape(path: string)
    ensures var r := RootNameEnd(path);
      if r == 0 then |path| < 2 || RunEnd(path, true, 0) != 2
      else r >= 2 && path[0] == '/' && path[1] == '/' && IsRun(path, false, 2, r) && (r == 2 ==> |path| == 2)
  {
  }

  /** The two leading separators of a root name end a backward walk. */
  lemma LeadingSeparators(path: string)
    requires RootNameEnd(path) > 0
    ensures RunBefore(path, true, 1) == -1
    ensures RootNameEnd(path) > 2 ==> RunBefore(path, false, RootNameEnd(path) - 1) == 1
  {
  }

  /** Walking back over a token other than a root name leads to the character before it. */
  lemma BackOver(path: string, t: Token)
    requires Placed(path, t) && t.state != InRootName
    ensures RunBefore(path, t.state != InFilenames, t.entry.end - 1) == t.entry.start - 1
    ensures t.entry.start > 0 ==> (path[t.entry.start - 1] == '/') == (t.state == InFilenames)
  {
  }

  /** A name that starts at index 2 does not follow exactly two separators: it would belong to the root name. */
  lemma NameAfterTwo(path: string, t: Token)
    requires Placed(path, t) && t.state == InFilenames && t.entry.start == 2
    ensures RunBefore(path, true, 1) != -1
  {
  }
}
