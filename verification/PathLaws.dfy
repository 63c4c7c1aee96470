/** Laws of the token list: order, coverage, uniqueness, and the list of a prefix that ends after a token. */
module PathLaws {
  import opened PathTokens

  /** Tokens are ordered and disjoint. */
  lemma {:induction false} TokensOrdered(path: string, j: int, k: int)
    requires 0 <= j < k < |Tokens(path)|
    ensures Tokens(path)[j].entry.View? && Tokens(path)[k].entry.View?
    ensures Tokens(path)[j].entry.end <= Tokens(path)[k].entry.start
  {
    TokensChained(path);
    LinkAt(path, k - 1);
    if j < k - 1 { TokensOrdered(path, j, k - 1); }
  }

  /** What lies outside every token is a separator. */
  lemma NameIsCovered(path: string, i: int) returns (k: int)
    requires 0 <= i < |path| && path[i] != '/'
    ensures 0 <= k < |Tokens(path)| && Tokens(path)[k].entry.View?
    ensures Tokens(path)[k].entry.start <= i < Tokens(path)[k].entry.end
  {
    TokensChained(path);
    k := CoveredFrom(path, i, 0);
  }

  lemma {:induction false} CoveredFrom(path: string, i: int, j: int) returns (k: int)
    requires 0 <= i < |path| && path[i] != '/'
    requires 0 <= j < |Tokens(path)| && Placed(path, Tokens(path)[j]) && Tokens(path)[j].entry.start <= i
    ensures 0 <= k < |Tokens(path)| && Placed(path, Tokens(path)[k])
    ensures Tokens(path)[k].entry.start <= i < Tokens(path)[k].entry.end
    decreases |Tokens(path)| - j
  {
    LinkAt(path, j);
    TokensChained(path);
    if i < Tokens(path)[j].entry.end {
      k := j;
    } else {
      k := CoveredFrom(path, i, j + 1);
    }
  }

  /** The position after a token is determined by the string alone. */
  lemma LinkUnique(path: string, t: Token, u: Token, u': Token)
    requires Link(path, t, u) && Link(path, t, u')
    ensures u == u'
  {
    if u != END && t.state == InFilenames {
      if u.state == InFilenames { RunEndIs(path, true, t.entry.end, u.entry.start); }
      if u'.state == InFilenames { RunEndIs(path, true, t.entry.end, u'.entry.start); }
    }
  }

  /** Any chain from the front to the end of a string is its token list. */
  lemma ChainIsTokens(path: string, ts: seq<Token>)
    requires Chained(path, ts) && path != "" && ts != [] && ts[0].entry.start == 0
    ensures ts == Tokens(path)
  {
    forall k | 0 <= k < |ts| ensures k < |Tokens(path)| && ts[k] == Tokens(path)[k] {
      ChainAgrees(path, ts, k);
    }
    TokensChained(path);
    LinkAt(path, |ts| - 1);
    assert At(path, |ts|) == END;
  }

  lemma {:induction false} ChainAgrees(path: string, ts: seq<Token>, k: nat)
    requires Chained(path, ts) && path != "" && k < |ts| && ts[0].entry.start == 0
    ensures k < |Tokens(path)| && ts[k] == Tokens(path)[k]
  {
    if k == 0 {
      LinkAt(path, -1);
      LinkUnique(path, BEFORE, ts[0], At(path, 0));
    } else {
      ChainAgrees(path, ts, k - 1);
      ChainBefore(path, ts, k);
      LinkAt(path, k - 1);
      LinkUnique(path, ts[k - 1], ts[k], At(path, k));
    }
  }

  lemma ChainBefore(path: string, ts: seq<Token>, k: nat)
    requires Chained(path, ts) && 0 < k < |ts|
    ensures Link(path, ts[k - 1], ts[k]) && ts[k - 1].entry.end < |path|
  {
  }

  // ---- the path without its last element ----

  lemma {:induction false} RunEndInPrefix(path: string, sep: bool, p: nat, n: nat)
    requires p <= n <= |path|
    ensures RunEnd(path[..n], sep, p) == if RunEnd(path, sep, p) < n then RunEnd(path, sep, p) else n
  {
  }

  lemma RootNameInPrefix(path: string, n: nat)
    requires Tokens(path) != [] && Placed(path, Tokens(path)[0]) && Tokens(path)[0].entry.end <= n <= |path|
    ensures RootNameEnd(path[..n]) == RootNameEnd(path)
  {
  }

  lemma PlacedInPrefix(path: string, t: Token, n: nat)
    requires Placed(path, t) && t.entry.end <= n <= |path| && t.state != InTrailingSep
    requires RootNameEnd(path[..n]) == RootNameEnd(path)
    ensures Placed(path[..n], t) && Element(path[..n], t) == Element(path, t)
  {
    RunEndInPrefix(path, t.state != InFilenames, t.entry.start, n);
    assert path[..n][t.entry.start..t.entry.end] == path[t.entry.start..t.entry.end];
  }

  /** Where the parent of a path ends: after the last but one token. */
  function ParentEnd(path: string): (n: nat)
    requires |Tokens(path)| >= 2
    ensures n <= |path|
  {
    TokensChained(path);
    Tokens(path)[|Tokens(path)| - 2].entry.end
  }

  lemma {:induction false} OnlyLastTrails(path: string, k: int)
    requires 0 <= k < |Tokens(path)| - 1
    ensures Placed(path, Tokens(path)[k]) && Tokens(path)[k].state != InTrailingSep
    ensures Tokens(path)[k].entry.end <= ParentEnd(path)
  {
    TokensChained(path);
    LinkAt(path, k);
    if k < |Tokens(path)| - 2 { TokensOrdered(path, k, |Tokens(path)| - 2); }
  }

  lemma ParentPlaced(path: string, k: int)
    requires 0 <= k < |Tokens(path)| - 1
    ensures var parent, t := path[..ParentEnd(path)], Tokens(path)[k];
      Placed(parent, t) && Element(parent, t) == Element(path, t)
  {
    TokensChained(path);
    OnlyLastTrails(path, 0);
    RootNameInPrefix(path, ParentEnd(path));
    OnlyLastTrails(path, k);
    PlacedInPrefix(path, Tokens(path)[k], ParentEnd(path));
  }

  lemma ParentChained(path: string, parent: string, ts: seq<Token>)
    requires |Tokens(path)| >= 2 && parent == path[..ParentEnd(path)]
    requires ts == Tokens(path)[..|Tokens(path)| - 1]
    ensures Chained(parent, ts) && ts[0].entry.start == 0 && parent != ""
    ensures forall k :: 0 <= k < |ts| ==> Element(parent, ts[k]) == Element(path, ts[k])
  {
    forall k | 0 <= k < |ts|
      ensures Placed(parent, ts[k]) && Element(parent, ts[k]) == Element(path, ts[k])
    {
      ParentPlaced(path, k);
    }
    forall k | 0 < k < |ts| ensures Follows(parent, ts[k - 1], ts[k]) {
      assert ts[k - 1] == Tokens(path)[k - 1] && ts[k] == Tokens(path)[k];
      FollowsInPrefix(path, k, ParentEnd(path));
    }
    assert ts[|ts| - 1] == Tokens(path)[|Tokens(path)| - 2] && ts[0] == Tokens(path)[0];
    TokensChained(path);
  }

  lemma FollowsInPrefix(path: string, k: int, n: nat)
    requires 0 < k < |Tokens(path)| && n <= |path|
    requires Placed(path[..n], Tokens(path)[k - 1]) && Placed(path[..n], Tokens(path)[k])
    ensures Follows(path[..n], Tokens(path)[k - 1], Tokens(path)[k])
  {
    TokensChained(path);
    assert Follows(path, Tokens(path)[k - 1], Tokens(path)[k]);
  }

  /** Parsing the parent from scratch gives the tokens of the path but the last. */
  lemma ParentTokens(path: string)
    requires |Tokens(path)| >= 2
    ensures var parent := path[..ParentEnd(path)];
      Tokens(parent) == Tokens(path)[..|Tokens(path)| - 1] &&
      Elements(parent) == Elements(path)[..|Tokens(path)| - 1]
  {
    var parent := path[..ParentEnd(path)];
    var ts := Tokens(path)[..|Tokens(path)| - 1];
    ParentChained(path, parent, ts);
    ChainIsTokens(parent, ts);
  }
}
