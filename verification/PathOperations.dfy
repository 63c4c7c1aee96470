/** Decomposition, comparison, hashing and iteration of paths, all running on the parser. */
module PathOperations {
  import opened PathTokens
  import opened PathLaws
  import opened PathParser

  // ---- decomposition ----

  lemma OnlyFirstAtFront(path: string, k: int)
    requires 0 <= k < |Tokens(path)|
    ensures Tokens(path)[k].entry.View? && (Tokens(path)[k].entry.start == 0 <==> k == 0)
  {
    TokensChained(path);
    if k > 0 { TokensOrdered(path, 0, k); }
  }

  /** Position n is inside the path and not within a run of separators. */
  predicate EndsCleanly(path: string, n: int) {
    0 < n < |path| && (path[n - 1] != '/' || path[n] != '/')
  }

  lemma ParentEndsCleanly(path: string)
    requires |Tokens(path)| >= 2
    ensures EndsCleanly(path, ParentEnd(path))
  {
    TokensChained(path);
    var n := |Tokens(path)|;
    var t, u := Tokens(path)[n - 2], Tokens(path)[n - 1];
    assert Placed(path, t) && Placed(path, u);
    assert Follows(path, Tokens(path)[n - 1 - 1], u);
    RootNameShape(path);
  }

  /** The path without its last element; empty when there is no element before the last. */
  method ParentPath(path: string) returns (parent: string)
    ensures parent <= path
    ensures if |Elements(path)| >= 2 then Elements(parent) == Elements(path)[..|Elements(path)| - 1] else parent == ""
    ensures |Elements(path)| >= 2 ==> EndsCleanly(path, |parent|)
  {
    TokensChained(path);
    if path == "" {
      return "";
    }
    var pp := new Parser.CreateEnd(path);
    pp.Decrement();
    OnlyFirstAtFront(path, pp.index);
    if pp.rawEntry.start == 0 {
      return "";
    }
    pp.Decrement();
    assert pp.rawEntry.end == ParentEnd(path);
    ParentTokens(path);
    ParentEndsCleanly(path);
    return path[..pp.rawEntry.end];
  }

  /** Two separators and a name up to position r, where the path ends or goes on with another separator. */
  predicate IsNetName(path: string, r: int) {
    2 < r <= |path| && path[0] == path[1] == '/' && IsRun(path, false, 2, r) && (r < |path| ==> path[r] == '/')
  }

  /** Separators only, or behind a root name. */
  ghost predicate IsRootOnly(path: string) {
    IsRun(path, true, 0, |path|) || exists r: int :: IsNetName(path, r) && r < |path| && IsRun(path, true, r, |path|)
  }

  /** The filename in terms of the characters. */
  ghost predicate IsFilename(path: string, name: string) {
    if path == "" || path == "//" then name == path
    else if path[|path| - 1] == '/' then name == if IsRootOnly(path) then "/" else "."
    else if IsNetName(path, |path|) then name == path
    else exists b :: 0 <= b < |path| && name == path[b..] && IsRun(path, false, b, |path|) && (b > 0 ==> path[b - 1] == '/')
  }

  lemma NetNameIsRoot(path: string, r: int)
    requires IsNetName(path, r)
    ensures RootNameEnd(path) == r
  {
    RunEndIs(path, true, 0, 2);
    RunEndIs(path, false, 2, r);
  }

  lemma EmptyFilename()
    ensures IsFilename("", "")
  {
  }

  lemma RootNameLast(path: string)
    requires RootNameEnd(path) == |path| > 0
    ensures IsFilename(path, path[0..|path|])
  {
    RootNameShape(path);
    assert path[0..|path|] == path;
  }

  lemma RootDirLast(path: string, s: nat)
    requires s == RootNameEnd(path) < |path| && IsRun(path, true, s, |path|)
    ensures IsFilename(path, "/")
  {
    RootNameShape(path);
    if s > 0 {
      assert IsNetName(path, s);
    }
  }

  lemma NameLast(path: string, s: nat)
    requires RootNameEnd(path) <= s < |path| && IsRun(path, false, s, |path|) && (s > 0 ==> path[s - 1] == '/')
    ensures IsFilename(path, path[s..|path|])
  {
    hide RootNameEnd;
    if IsNetName(path, |path|) {
      NetNameIsRoot(path, |path|);
    }
    assert path[s..|path|] == path[s..];
  }

  lemma TrailingLast(path: string, s: nat)
    requires RootNameEnd(path) < s < |path| && path[s - 1] != '/' && IsRun(path, true, s, |path|)
    ensures IsFilename(path, ".")
  {
    hide RootNameEnd;
    if r: int :| IsNetName(path, r) && r < |path| && IsRun(path, true, r, |path|) {
      NetNameIsRoot(path, r);
    }
  }

  lemma LastElement(path: string, t: Token)
    requires Placed(path, t) && t.entry.end == |path|
    ensures IsFilename(path, Element(path, t))
  {
    hide IsFilename, RootNameEnd;
    match t.state
    case InRootName => RootNameLast(path);
    case InRootDir => RootDirLast(path, t.entry.start);
    case InFilenames => NameLast(path, t.entry.start);
    case InTrailingSep => TrailingLast(path, t.entry.start);
  }

  method Filename(path: string) returns (name: string)
    ensures name == if path == "" then "" else Elements(path)[|Elements(path)| - 1]
    ensures IsFilename(path, name)
  {
    hide IsFilename;
    TokensChained(path);
    if path == "" {
      EmptyFilename();
      return "";
    }
    LastElement(path, Tokens(path)[|Tokens(path)| - 1]);
    var pp := new Parser.CreateEnd(path);
    pp.Decrement();
    return pp.Deref();
  }

  lemma SplitLast(es: seq<string>)
    requires es != []
    ensures es == es[..|es| - 1] + [es[|es| - 1]]
  {
  }

  /** A path of two or more elements is its parent, parsed again, followed by its filename. */
  method ParentThenFilename(path: string) returns (parent: string, name: string)
    requires |Elements(path)| >= 2
    ensures Elements(path) == Elements(parent) + [name]
  {
    parent := ParentPath(path);
    name := Filename(path);
    SplitLast(Elements(path));
  }

  // ---- iteration in both directions ----

  lemma TakeOneMore(es: seq<string>, k: nat)
    requires k < |es|
    ensures es[..k] + [es[k]] == es[..k + 1]
  {
  }

  method ForwardElements(path: string) returns (es: seq<string>)
    ensures es == Elements(path)
  {
    es := [];
    ghost var all := Elements(path);
    var pp := new Parser.CreateBegin(path);
    while pp.state != AtEnd
      invariant fresh(pp) && pp.path == path && pp.Valid() && pp.index >= 0
      invariant es == all[..pp.index]
      decreases |Tokens(path)| - pp.index
    {
      pp.NotAtEnd();
      TakeOneMore(all, pp.index);
      es := es + [pp.Deref()];
      pp.Increment();
    }
    pp.NotAtEnd();
  }

  function Reversed<T>(s: seq<T>): (r: seq<T>)
    ensures |r| == |s| && forall i :: 0 <= i < |s| ==> r[i] == s[|s| - 1 - i]
  {
    if s == [] then [] else Reversed(s[1..]) + [s[0]]
  }

  lemma ReversedStep(all: seq<string>, k: nat)
    requires k < |all|
    ensures Reversed(all[k..]) == Reversed(all[k + 1..]) + [all[k]]
  {
  }

  /** Walking back from the end meets the elements of the forward walk in reverse. */
  method BackwardElements(path: string) returns (es: seq<string>)
    ensures es == Reversed(Elements(path))
  {
    es := [];
    ghost var all := Elements(path);
    var begin := new Parser.CreateBegin(path);
    var it := new Parser.CreateEnd(path);
    while it.Current() != begin.Current()
      invariant fresh(it) && it.path == path && it.Valid() && it.index >= 0
      invariant fresh(begin) && begin != it && begin.Current() == At(path, 0)
      invariant es == Reversed(all[it.index..])
      decreases it.index
    {
      DistinctPositions(path, it.index);
      ReversedStep(all, it.index - 1);
      it.Decrement();
      es := es + [it.Deref()];
    }
    DistinctPositions(path, it.index);
    assert all[0..] == all;
  }

  /** The parser's position is told by its state and entry alone. */
  lemma DistinctPositions(path: string, k: int)
    requires 0 <= k <= |Tokens(path)|
    ensures At(path, k) == At(path, 0) <==> k == 0
  {
    TokensChained(path);
    if 0 < k < |Tokens(path)| { TokensOrdered(path, 0, k); }
  }

  /** decrement undoes increment, in state and raw entry. */
  method StepForwardAndBack(pp: Parser)
    requires pp.Valid() && 0 <= pp.index < |Tokens(pp.path)|
    modifies pp
    ensures pp.Valid() && pp.Current() == old(pp.Current()) && pp.index == old(pp.index)
  {
    pp.Increment();
    pp.Decrement();
  }

  // ---- comparison ----

  function Sign(a: int): int {
    if a < 0 then -1 else if a == 0 then 0 else 1
  }

  /** string_view::compare, by its sign. */
  function CompareText(a: string, b: string): int {
    if a == [] || b == [] then Sign(|a| - |b|)
    else if a[0] != b[0] then (if a[0] < b[0] then -1 else 1)
    else CompareText(a[1..], b[1..])
  }

  /** The lexicographic order of element lists. */
  function CompareLists(xs: seq<string>, ys: seq<string>): int {
    if xs == [] || ys == [] then Sign(|xs| - |ys|)
    else if CompareText(xs[0], ys[0]) != 0 then CompareText(xs[0], ys[0])
    else CompareLists(xs[1..], ys[1..])
  }

  /** a comes before b in a dictionary: as a proper prefix, or by the first character in which they differ. */
  ghost predicate TextBefore(a: string, b: string) {
    a < b || exists k :: 0 <= k < |a| && k < |b| && a[..k] == b[..k] && a[k] < b[k]
  }

  /** The same of lists, by the first element in which they differ. */
  ghost predicate ListBefore(xs: seq<string>, ys: seq<string>) {
    xs < ys || exists k :: 0 <= k < |xs| && k < |ys| && xs[..k] == ys[..k] && TextBefore(xs[k], ys[k])
  }

  lemma {:induction false} CompareTextIsBefore(a: string, b: string)
    ensures CompareText(a, b) < 0 <==> TextBefore(a, b)
  {
    if a != [] && b != [] && a[0] == b[0] {
      CompareTextIsBefore(a[1..], b[1..]);
      TextBeforeRest(a, b);
    } else if a != [] && b != [] {
      assert TextBefore(a, b) <==> a[0] < b[0] by {
        assert a[..0] == b[..0];
      }
    }
  }

  lemma TextBeforeRest(a: string, b: string)
    requires a != [] && b != [] && a[0] == b[0]
    ensures TextBefore(a, b) <==> TextBefore(a[1..], b[1..])
  {
    assert a == [a[0]] + a[1..] && b == [b[0]] + b[1..];
    if k :| 0 <= k < |a| && k < |b| && a[..k] == b[..k] && a[k] < b[k] {
      assert k > 0 && a[1..][..k - 1] == a[..k][1..] == b[..k][1..] == b[1..][..k - 1];
      assert a[1..][k - 1] < b[1..][k - 1];
    }
    if k :| 0 <= k < |a[1..]| && k < |b[1..]| && a[1..][..k] == b[1..][..k] && a[1..][k] < b[1..][k] {
      assert a[..k + 1] == [a[0]] + a[1..][..k] && b[..k + 1] == [b[0]] + b[1..][..k];
      assert a[k + 1] < b[k + 1];
    }
  }

  lemma {:induction false} CompareListsIsBefore(xs: seq<string>, ys: seq<string>)
    ensures CompareLists(xs, ys) < 0 <==> ListBefore(xs, ys)
  {
    hide TextBefore;
    if xs != [] && ys != [] {
      CompareTextIsBefore(xs[0], ys[0]);
      CompareTextLaws(xs[0], ys[0]);
      if xs[0] == ys[0] {
        CompareListsIsBefore(xs[1..], ys[1..]);
        ListBeforeRest(xs, ys);
      } else {
        assert ListBefore(xs, ys) <==> TextBefore(xs[0], ys[0]) by {
          assert xs[..0] == ys[..0];
        }
      }
    }
  }

  lemma ListBeforeRest(xs: seq<string>, ys: seq<string>)
    requires xs != [] && ys != [] && xs[0] == ys[0]
    ensures ListBefore(xs, ys) <==> ListBefore(xs[1..], ys[1..])
  {
    hide TextBefore;
    assert !TextBefore(xs[0], ys[0]) by {
      CompareTextIsBefore(xs[0], ys[0]);
      CompareTextLaws(xs[0], ys[0]);
    }
    assert xs == [xs[0]] + xs[1..] && ys == [ys[0]] + ys[1..];
    if k :| 0 <= k < |xs| && k < |ys| && xs[..k] == ys[..k] && TextBefore(xs[k], ys[k]) {
      assert k > 0 && xs[1..][..k - 1] == xs[..k][1..] == ys[..k][1..] == ys[1..][..k - 1];
      assert TextBefore(xs[1..][k - 1], ys[1..][k - 1]);
    }
    if k :| 0 <= k < |xs[1..]| && k < |ys[1..]| && xs[1..][..k] == ys[1..][..k] && TextBefore(xs[1..][k], ys[1..][k]) {
      assert xs[..k + 1] == [xs[0]] + xs[1..][..k] && ys[..k + 1] == [ys[0]] + ys[1..][..k];
      assert TextBefore(xs[k + 1], ys[k + 1]);
    }
  }

  /** Negative, zero or positive as the elements of the one path come before, are, or come after those of the other. */
  method Compare(path: string, other: string) returns (res: int)
    ensures res == CompareLists(Elements(path), Elements(other))
    ensures res < 0 <==> ListBefore(Elements(path), Elements(other))
    ensures res == 0 <==> Elements(path) == Elements(other)
    ensures res > 0 <==> ListBefore(Elements(other), Elements(path))
  {
    CompareListsIsBefore(Elements(path), Elements(other));
    CompareListsIsBefore(Elements(other), Elements(path));
    CompareListsLaws(Elements(path), Elements(other));
    res := CompareElements(path, other);
  }

  method CompareElements(path: string, other: string) returns (res: int)
    ensures res == CompareLists(Elements(path), Elements(other))
  {
    var pp := new Parser.CreateBegin(path);
    var pp2 := new Parser.CreateBegin(other);
    ghost var xs, ys := Elements(path), Elements(other);
    while pp.More() && pp2.More()
      invariant fresh(pp) && pp.path == path && pp.Valid() && pp.index >= 0
      invariant fresh(pp2) && pp2 != pp && pp2.path == other && pp2.Valid() && pp2.index == pp.index
      invariant CompareLists(xs[pp.index..], ys[pp.index..]) == CompareLists(xs, ys)
      decreases |Tokens(path)| - pp.index
    {
      pp.NotAtEnd();
      pp2.NotAtEnd();
      res := CompareText(pp.Deref(), pp2.Deref());
      if res != 0 {
        return res;
      }
      pp.Increment();
      pp2.Increment();
    }
    pp.NotAtEnd();
    pp2.NotAtEnd();
    if pp.state == pp2.state && pp.state == AtEnd {
      return 0;
    }
    if pp.state == AtEnd {
      return -1;
    }
    return 1;
  }

  lemma {:induction false} CompareTextLaws(a: string, b: string)
    ensures CompareText(a, b) == 0 <==> a == b
    ensures CompareText(a, b) == -CompareText(b, a)
  {
    if a != [] && b != [] && a[0] == b[0] {
      CompareTextLaws(a[1..], b[1..]);
      assert a == [a[0]] + a[1..] && b == [b[0]] + b[1..];
    }
  }

  lemma {:induction false} CompareTextTransitive(a: string, b: string, c: string)
    requires CompareText(a, b) <= 0 && CompareText(b, c) <= 0
    ensures CompareText(a, c) <= 0
    ensures CompareText(a, b) < 0 || CompareText(b, c) < 0 ==> CompareText(a, c) < 0
  {
    if a != [] && b != [] && c != [] && a[0] == b[0] == c[0] {
      CompareTextTransitive(a[1..], b[1..], c[1..]);
    }
  }

  /** Zero exactly for equal element lists, and swapping the operands swaps the sign. */
  lemma {:induction false} CompareListsLaws(xs: seq<string>, ys: seq<string>)
    ensures CompareLists(xs, ys) == 0 <==> xs == ys
    ensures CompareLists(xs, ys) == -CompareLists(ys, xs)
  {
    if xs != [] && ys != [] {
      CompareTextLaws(xs[0], ys[0]);
      CompareListsLaws(xs[1..], ys[1..]);
      assert xs == [xs[0]] + xs[1..] && ys == [ys[0]] + ys[1..];
    }
  }

  lemma {:induction false} CompareListsTransitive(xs: seq<string>, ys: seq<string>, zs: seq<string>)
    requires CompareLists(xs, ys) <= 0 && CompareLists(ys, zs) <= 0
    ensures CompareLists(xs, zs) <= 0
    ensures CompareLists(xs, ys) < 0 || CompareLists(ys, zs) < 0 ==> CompareLists(xs, zs) < 0
  {
    if xs != [] && ys != [] && zs != [] {
      CompareTextTransitive(xs[0], ys[0], zs[0]);
      CompareTextLaws(xs[0], ys[0]);
      CompareTextLaws(ys[0], zs[0]);
      if xs[0] == ys[0] == zs[0] {
        CompareListsTransitive(xs[1..], ys[1..], zs[1..]);
      }
    }
  }

  // ---- hashing ----

  function HashElements(es: seq<string>, hasher: string -> nat, combine: (nat, nat) -> nat): nat {
    if es == [] then 0
    else combine(HashElements(es[..|es| - 1], hasher, combine), hasher(es[|es| - 1]))
  }

  lemma HashOneMore(es: seq<string>, k: nat, hasher: string -> nat, combine: (nat, nat) -> nat)
    requires k < |es|
    ensures HashElements(es[..k + 1], hasher, combine)
            == combine(HashElements(es[..k], hasher, combine), hasher(es[k]))
  {
    assert es[..k + 1][..k] == es[..k];
  }

  /** From 0 on the hash of each element is combined with what there is so far: hs lists what there is, up to hash. */
  ghost predicate HashesTo(hash: nat, es: seq<string>, hasher: string -> nat, combine: (nat, nat) -> nat, hs: seq<nat>) {
    && |hs| == |es| + 1 && hs[0] == 0 && hs[|es|] == hash
    && forall k :: 0 <= k < |es| ==> hs[k + 1] == combine(hs[k], hasher(es[k]))
  }

  lemma {:induction false} HashesAre(es: seq<string>, hasher: string -> nat, combine: (nat, nat) -> nat)
    returns (hs: seq<nat>)
    ensures HashesTo(HashElements(es, hasher, combine), es, hasher, combine, hs)
  {
    hs := [0];
    if es != [] {
      hs := HashesAre(es[..|es| - 1], hasher, combine);
      hs := hs + [combine(hs[|es| - 1], hasher(es[|es| - 1]))];
    }
  }

  method HashValue(path: string, hasher: string -> nat, combine: (nat, nat) -> nat) returns (hash: nat)
    ensures hash == HashElements(Elements(path), hasher, combine)
    ensures exists hs :: HashesTo(hash, Elements(path), hasher, combine, hs)
    ensures path == "" ==> hash == 0
  {
    hide HashesTo;
    var pp := new Parser.CreateBegin(path);
    hash := 0;
    ghost var es := Elements(path);
    while pp.More()
      invariant fresh(pp) && pp.path == path && pp.Valid() && pp.index >= 0
      invariant hash == HashElements(es[..pp.index], hasher, combine)
      decreases |Tokens(path)| - pp.index
    {
      pp.NotAtEnd();
      hash := combine(hash, hasher(pp.Deref()));
      HashOneMore(es, pp.index, hasher, combine);
      pp.Increment();
    }
    pp.NotAtEnd();
    assert es[..|es|] == es;
    ghost var hs := HashesAre(es, hasher, combine);
  }

  /** Paths that compare equal have equal hashes. */
  method EqualPathsHashAlike(p: string, q: string, hasher: string -> nat, combine: (nat, nat) -> nat)
    returns (res: int, hp: nat, hq: nat)
    ensures res == CompareLists(Elements(p), Elements(q)) && (res == 0 <==> Elements(p) == Elements(q))
    ensures res == 0 ==> hp == hq
  {
    res := Compare(p, q);
    hp := HashValue(p, hasher, combine);
    hq := HashValue(q, hasher, combine);
  }
}
