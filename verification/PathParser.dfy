/**
 * The two lexers of a path, one walking forward and one walking back over the same string. Both are proved
 * against the token list of PathTokens; decomposition, comparison and hashing are built on them.
 */
module PathParser {
  import opened PathTokens

  datatype Option<T> = None | Some(value: T)

  class Parser {
    const path: string
    var state: ParserState
    var rawEntry: View

    /** Where the parser stands in the token list: -1 before the first token, |Tokens| at the end. */
    ghost var index: int

    function Current(): Token
      reads this
    {
      Token(state, rawEntry)
    }

    ghost predicate Valid()
      reads this
    {
      -1 <= index <= |Tokens(path)| && Current() == At(path, index)
    }

    constructor CreateBegin(p: string)
      ensures Valid() && path == p && index == 0
    {
      path := p;
      state := BeforeBegin;
      rawEntry := NoView;
      index := -1;
      new;
      Increment();
    }

    constructor CreateEnd(p: string)
      ensures Valid() && path == p && index == |Tokens(p)|
    {
      path := p;
      state := AtEnd;
      rawEntry := NoView;
      index := |Tokens(p)|;
    }

    function Deref(): (s: string)
      reads this
      requires Valid()
      ensures 0 <= index < |Tokens(path)| ==> s == Elements(path)[index]
    {
      Element(path, Token(state, rawEntry))
    }

    predicate More()
      reads this
    {
      state != BeforeBegin && state != AtEnd
    }

    /** The parser is past the last token exactly in the state AtEnd. */
    lemma NotAtEnd()
      requires Valid() && index >= 0
      ensures state == AtEnd <==> index == |Tokens(path)|
      ensures More() <==> index < |Tokens(path)|
    {
      TokensChained(path);
    }

    method MakeState(newState: ParserState, start: int, end: int)
      modifies this`state, this`rawEntry
      ensures Current() == Token(newState, View(start, end))
    {
      state := newState;
      rawEntry := View(start, end);
    }

    function GetNextTokenStartPos(): int
      reads this
      requires Current() in {BEFORE, END} || Placed(path, Current())
    {
      match state
      case BeforeBegin => 0
      case InRootName | InRootDir | InFilenames => rawEntry.end
      case InTrailingSep | AtEnd => |path|
    }

    function GetCurrentTokenStartPos(): int
      reads this
      requires Current() in {BEFORE, END} || Placed(path, Current())
    {
      match state
      case BeforeBegin | InRootName => 0
      case InRootDir | InFilenames | InTrailingSep => rawEntry.start
      case AtEnd => |path|
    }

    /** Forward to `end == |path|`, or backward to `end == -1`; nothing when p does not stand on a separator. */
    method ConsumeSeparator(p: int, end: int) returns (r: Option<int>)
      requires (end == |path| && 0 <= p <= end) || (end == -1 && -1 <= p < |path|)
      ensures r == if p == end || path[p] != '/' then None
                   else Some(if end == -1 then RunBefore(path, true, p) else RunEnd(path, true, p))
    {
      r := Consume(true, p, end);
    }

    method ConsumeName(p: int, end: int) returns (r: Option<int>)
      requires (end == |path| && 0 <= p <= end) || (end == -1 && -1 <= p < |path|)
      ensures r == if p == end || path[p] == '/' then None
                   else Some(if end == -1 then RunBefore(path, false, p) else RunEnd(path, false, p))
    {
      r := Consume(false, p, end);
    }

    /** The loop the two consumers share. */
    method Consume(sep: bool, p: int, end: int) returns (r: Option<int>)
      requires (end == |path| && 0 <= p <= end) || (end == -1 && -1 <= p < |path|)
      ensures r == if p == end || (path[p] == '/') != sep then None
                   else Some(if end == -1 then RunBefore(path, sep, p) else RunEnd(path, sep, p))
    {
      if p == end || (path[p] == '/') != sep {
        return None;
      }
      var inc := if p < end then 1 else -1;
      var q := p + inc;
      while q != end && (path[q] == '/') == sep
        invariant -1 <= q <= |path| && (inc == 1 || q <= p) && (inc == -1 || p <= q)
        invariant inc == 1 ==> IsRun(path, sep, p, q)
        invariant inc == -1 ==> IsRun(path, sep, q + 1, p + 1)
        decreases (end - q) * inc
      {
        q := q + inc;
      }
      if inc == 1 {
        RunEndIs(path, sep, p, q);
      } else {
        RunBeforeIs(path, sep, p, q);
      }
      return Some(q);
    }

    method Increment()
      requires Valid()
      modifies this
      ensures Valid() && index == if old(index) < |Tokens(path)| then old(index) + 1 else old(index)
    {
      ghost var k := if index < |Tokens(path)| then index + 1 else index;
      if index < |Tokens(path)| {
        LinkAt(path, index);
      }
      Advance(At(path, k));
      index := k;
    }

    method Decrement()
      requires Valid() && index >= 1
      modifies this
      ensures Valid() && index == old(index) - 1
    {
      LinkAt(path, index - 1);
      TokensPlaced(path, index - 1);
      Retreat(At(path, index - 1));
      index := index - 1;
    }

    /** The forward step: it finds the token u linked to the current one. */
    method Advance(ghost u: Token)
      requires Link(path, Current(), u)
      modifies this`state, this`rawEntry
      ensures Current() == u
    {
      var end := |path|;
      var start := GetNextTokenStartPos();
      if start == end {
        state, rawEntry := AtEnd, NoView;
        return;
      }
      match state
      case BeforeBegin =>
        var tkEnd := ConsumeSeparator(start, end);
        if tkEnd.Some? && tkEnd.value == start + 2 {
          var nameEnd := ConsumeName(tkEnd.value, end);
          if nameEnd.Some? {
            tkEnd := nameEnd;
          }
          MakeState(InRootName, start, tkEnd.value);
        } else if tkEnd.Some? {
          MakeState(InRootDir, start, tkEnd.value);
        } else {
          var nameEnd := ConsumeName(start, end);
          MakeState(InFilenames, start, nameEnd.value);
        }
      case InRootName =>
        var sepEnd := ConsumeSeparator(start, end);
        MakeState(InRootDir, start, sepEnd.value);
      case InRootDir =>
        var nameEnd := ConsumeName(start, end);
        MakeState(InFilenames, start, nameEnd.value);
      case InFilenames =>
        if u.state == InFilenames {
          RunEndIs(path, true, start, u.entry.start);
        }
        var sepEnd := ConsumeSeparator(start, end);
        var tkEnd := None;
        if sepEnd.value != end {
          tkEnd := ConsumeName(sepEnd.value, end);
        }
        if tkEnd.Some? {
          MakeState(InFilenames, sepEnd.value, tkEnd.value);
        } else {
          MakeState(InTrailingSep, start, sepEnd.value);
        }
    }

    /** The backward step from the end of the string. */
    method RetreatFromEnd(ghost t: Token)
      requires Current() == END && Link(path, t, END) && Placed(path, t)
      modifies this`state, this`rawEntry
      ensures Current() == t
    {
      BackwardWalk(path, t);
      var rEnd := -1;
      var rStart := GetCurrentTokenStartPos() - 1;
      var sepEnd := ConsumeSeparator(rStart, rEnd);
      if sepEnd.Some? {
        if sepEnd.value == rEnd {
          MakeState(if rStart == rEnd + 2 then InRootName else InRootDir, 0, rStart + 1);
        } else {
          var pp := new Parser.CreateBegin(path);
          FirstToken(path);
          var inRootDir := pp.state == InRootName && pp.rawEntry.end - 1 == sepEnd.value;
          MakeState(if inRootDir then InRootDir else InTrailingSep, sepEnd.value + 1, rStart + 1);
        }
      } else {
        var tkStart := ConsumeName(rStart, rEnd);
        var sep2 := None;
        if tkStart.value == rEnd + 2 {
          sep2 := ConsumeSeparator(tkStart.value, rEnd);
        }
        if sep2 == Some(rEnd) {
          MakeState(InRootName, 0, rStart + 1);
        } else {
          MakeState(InFilenames, tkStart.value + 1, rStart + 1);
        }
      }
    }

    /** The backward step from a name. */
    method RetreatFromName(ghost t: Token)
      requires state == InFilenames && Link(path, t, Current()) && Placed(path, t)
      modifies this`state, this`rawEntry
      ensures Current() == t
    {
      BackwardWalk(path, t);
      var rEnd := -1;
      var rStart := GetCurrentTokenStartPos() - 1;
      if t.state == InFilenames {
        RunBeforeIs(path, true, rStart, t.entry.end - 1);
      }
      var sepEnd := ConsumeSeparator(rStart, rEnd);
      if sepEnd.value == rEnd {
        MakeState(if rStart == rEnd + 2 then InRootName else InRootDir, 0, rStart + 1);
        return;
      }
      var tkEnd := ConsumeName(sepEnd.value, rEnd);
      var sep2 := None;
      if tkEnd.value == rEnd + 2 {
        sep2 := ConsumeSeparator(tkEnd.value, rEnd);
      }
      if sep2 == Some(rEnd) {
        MakeState(InRootDir, sepEnd.value + 1, rStart + 1);
      } else {
        MakeState(InFilenames, tkEnd.value + 1, sepEnd.value + 1);
      }
    }

    /** The backward step: it finds the token t that is linked to the current one. */
    method Retreat(ghost t: Token)
      requires Link(path, t, Current()) && Placed(path, t)
      modifies this`state, this`rawEntry
      ensures Current() == t
    {
      var rEnd := -1;
      var rStart := GetCurrentTokenStartPos() - 1;
      match state
      case AtEnd =>
        RetreatFromEnd(t);
      case InTrailingSep =>
        BackOver(path, t);
        var tkStart := ConsumeName(rStart, rEnd);
        MakeState(InFilenames, tkStart.value + 1, rStart + 1);
      case InFilenames =>
        RetreatFromName(t);
      case InRootDir =>
        MakeState(InRootName, 0, rStart + 1);
    }
  }

  lemma BackwardWalk(path: string, t: Token)
    requires Placed(path, t)
    ensures t.state != InRootName ==>
      && RunBefore(path, t.state != InFilenames, t.entry.end - 1) == t.entry.start - 1
      && (t.entry.start > 0 ==> (path[t.entry.start - 1] == '/') == (t.state == InFilenames))
    ensures t.state == InFilenames && t.entry.start == 2 ==> RunBefore(path, true, 1) != -1
    ensures var r := RootNameEnd(path); r > 0 ==>
      && RunBefore(path, true, 1) == -1 && path[0] == path[1] == '/' && r >= 2
      && (if r == 2 then |path| == 2 else path[r - 1] != '/' && RunBefore(path, false, r - 1) == 1)
  {
    RootNameShape(path);
    if RootNameEnd(path) > 0 { LeadingSeparators(path); }
    if t.state != InRootName { BackOver(path, t); }
    if t.state == InFilenames && t.entry.start == 2 { NameAfterTwo(path, t); }
  }

  /** The first token, told from the leading characters. */
  lemma FirstToken(path: string)
    requires path != ""
    ensures var ts, r := Tokens(path), RootNameEnd(path);
      ts != [] && (ts[0].state == InRootName <==> r > 0) && (r > 0 ==> ts[0].entry == View(0, r))
  {
  }

  lemma TokensPlaced(path: string, k: int)
    ensures 0 <= k < |Tokens(path)| ==> Placed(path, Tokens(path)[k])
  {
    TokensChained(path);
  }
}
