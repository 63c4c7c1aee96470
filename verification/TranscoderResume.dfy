/**
 * Conversions in pieces: where one call stops, for lack of input or of room or at an error, the next may go on, and
 * the calls together convert what one call with everything at hand converts.
 */
module TranscoderResume {

  import opened Unicode
  import opened Transcoders
  import opened TranscoderLaws

  // ---- one turn ----

  /** A turn depends on the units it reads and needs only the room it fills; an error stays one with more of both. */
  predicate Local(c: Codec, s: seq<nat>, t: seq<nat>, room: nat, more: nat, max: nat)
    requires s != [] && t != []
  {
    var st := StepOf(c, s, room, max);
    && (st.Take? && st.n <= |s| && st.n <= |t| && s[..st.n] == t[..st.n] && |st.out| <= more ==>
          StepOf(c, t, more, max) == st)
    && (st.Bad? && s <= t && room <= more ==> StepOf(c, t, more, max) == Bad)
  }

  lemma TurnIsLocal(c: Codec, s: seq<nat>, t: seq<nat>, room: nat, more: nat, max: nat)
    requires s != [] && t != []
    ensures Local(c, s, t, room, more, max)
  {
    hide Local;
    match c
    case Utf8ToUtf16 => LocalFromUtf8(c, s, t, room, more, max);
    case Utf8ToUcs4 => LocalFromUtf8(c, s, t, room, more, max);
    case Utf8ToUcs2 => LocalFromUtf8(c, s, t, room, more, max);
    case _ => LocalOther(c, s, t, room, more, max);
  }

  lemma LocalFromUtf8(c: Codec, s: seq<nat>, t: seq<nat>, room: nat, more: nat, max: nat)
    requires s != [] && t != [] && (c.Utf8ToUtf16? || c.Utf8ToUcs4? || c.Utf8ToUcs2?)
    ensures Local(c, s, t, room, more, max)
  {
    hide PairOfFour, Code2, Code3, Code4;
    var st := StepOf(c, s, room, max);
    if st.Take? && st.n <= |s| && st.n <= |t| && s[..st.n] == t[..st.n] {
      assert forall i :: 0 <= i < st.n ==> s[i] == s[..st.n][i] == t[i];
    }
  }

  lemma LocalOther(c: Codec, s: seq<nat>, t: seq<nat>, room: nat, more: nat, max: nat)
    requires s != [] && t != [] && !c.Utf8ToUtf16? && !c.Utf8ToUcs4? && !c.Utf8ToUcs2?
    ensures Local(c, s, t, room, more, max)
  {
    hide Two, Three, Four, FourOfPair, PairCode, PlaneHigh, UnitOut;
    var st := StepOf(c, s, room, max);
    if st.Take? && st.n <= |s| && st.n <= |t| && s[..st.n] == t[..st.n] {
      assert forall i :: 0 <= i < st.n ==> s[i] == s[..st.n][i] == t[i];
    }
  }

  // ---- one call ----

  /** What a call has read converts, on its own and without room to spare, to what it has written. */
  lemma {:induction false} PrefixConverts(c: Codec, s: seq<nat>, room: nat, max: nat)
    ensures var o := Drive(c, s, room, max);
      Drive(c, s[..o.read], |o.out|, max) == Outcome(Ok, o.read, o.out)
    decreases |s|
  {
    hide StepOf, Drive, Local;
    var o := Drive(c, s, room, max);
    if s == [] || !StepOf(c, s, room, max).Take? {
      DriveStops(c, s, room, max);
      DriveStops(c, s[..0], 0, max);
    } else {
      var st := StepOf(c, s, room, max);
      OneMore(c, s, room, max);
      PrefixConverts(c, s[st.n..], room - |st.out|, max);
      var p := s[..o.read];
      assert p[..st.n] == s[..st.n];
      TurnIsLocal(c, s, p, room, |o.out|, max);
      TurnStays(c, s, p, room, |o.out|, max);
      OneMore(c, p, |o.out|, max);
      assert p[st.n..] == s[st.n..][..o.read - st.n];
    }
  }

  /** The outcome of going on where o stopped; an error ends the conversion. */
  function Continue(o: Outcome, rest: Outcome): Outcome {
    if o.result == Error then o else Resume(o.read, o.out, rest)
  }

  /** A call on the first k units in some room, and then one on all that is left, make one call. */
  lemma {:induction false} CallAndRest(c: Codec, s: seq<nat>, k: nat, room: nat, total: nat, max: nat)
    requires k <= |s|
    requires var o := Drive(c, s[..k], room, max); |o.out| <= total && (o.result == Error ==> room <= total)
    ensures var o := Drive(c, s[..k], room, max);
      Drive(c, s, total, max) == Continue(o, Drive(c, s[o.read..], total - |o.out|, max))
    decreases |s|
  {
    hide StepOf, Drive, Continue, Resume, Local;
    var f := s[..k];
    var o := Drive(c, f, room, max);
    if f == [] || !StepOf(c, f, room, max).Take? {
      StopsAtOnce(c, f, s, room, total, max);
    } else {
      var st := StepOf(c, f, room, max);
      OneMore(c, f, room, max);
      ResumeParts(st.n, st.out, Drive(c, f[st.n..], room - |st.out|, max));
      assert f[st.n..] == s[st.n..][..k - st.n];
      CallAndRest(c, s[st.n..], k - st.n, room - |st.out|, total - |st.out|, max);
      assert f[..st.n] == s[..st.n];
      TurnIsLocal(c, f, s, room, total, max);
      TurnStays(c, f, s, room, total, max);
      OneMore(c, s, total, max);
      var o' := Drive(c, f[st.n..], room - |st.out|, max);
      assert s[o.read..] == s[st.n..][o'.read..];
      ContinueTwice(st.n, st.out, o', Drive(c, s[o.read..], total - |o.out|, max));
    }
  }

  lemma TurnStays(c: Codec, f: seq<nat>, s: seq<nat>, room: nat, total: nat, max: nat)
    requires f != [] && s != [] && Local(c, f, s, room, total, max)
    ensures var st := StepOf(c, f, room, max);
      && (st.Take? && st.n <= |f| && st.n <= |s| && f[..st.n] == s[..st.n] && |st.out| <= total ==>
            StepOf(c, s, total, max) == st)
      && (st.Bad? && f <= s && room <= total ==> StepOf(c, s, total, max) == Bad)
  {
    hide StepOf;
  }

  lemma ResumeParts(n: nat, w: seq<nat>, rest: Outcome)
    ensures var o := Resume(n, w, rest); o.result == rest.result && o.read == n + rest.read && o.out == w + rest.out
  {
  }

  lemma StopsAtOnce(c: Codec, f: seq<nat>, s: seq<nat>, room: nat, total: nat, max: nat)
    requires f <= s && (f == [] || !StepOf(c, f, room, max).Take?)
    requires Drive(c, f, room, max).result == Error ==> room <= total
    ensures var o := Drive(c, f, room, max);
      o.read == 0 && o.out == [] && Drive(c, s, total, max) == Continue(o, Drive(c, s[o.read..], total, max))
  {
    hide StepOf, Drive, Local;
    DriveStops(c, f, room, max);
    assert s[0..] == s;
    if Drive(c, f, room, max).result == Error {
      TurnIsLocal(c, f, s, room, total, max);
      TurnStays(c, f, s, room, total, max);
      DriveStops(c, s, total, max);
    } else {
      ResumeNothing(Drive(c, s, total, max));
    }
  }

  lemma ResumeNothing(o: Outcome)
    ensures Resume(0, [], o) == o
  {
  }

  lemma NothingDone(o: Outcome, rest: Outcome)
    requires o.result != Error && o.read == 0 && o.out == []
    ensures Continue(o, rest) == rest
  {
  }

  lemma ErrorEnds(o: Outcome, rest: Outcome)
    requires o.result == Error
    ensures Continue(o, rest) == o
  {
  }

  lemma ContinueTwice(n: nat, w: seq<nat>, o: Outcome, rest: Outcome)
    ensures Resume(n, w, Continue(o, rest)) == Continue(Resume(n, w, o), rest)
  {
  }

  // ---- any number of calls ----

  /** A call shows the converter the next units units of the source and a buffer with room for room more. */
  datatype Call = Call(units: nat, room: nat)

  /** Calls that each start at the frm_nxt of the one before, until one fails. */
  function InPieces(c: Codec, s: seq<nat>, calls: seq<Call>, max: nat): (o: Outcome)
    ensures o.read <= |s|
    decreases |calls|
  {
    if calls == [] then Outcome(if s == [] then Ok else Partial, 0, [])
    else
      var k := if calls[0].units < |s| then calls[0].units else |s|;
      var o := Drive(c, s[..k], calls[0].room, max);
      Continue(o, InPieces(c, s[o.read..], calls[1..], max))
  }

  function TotalRoom(calls: seq<Call>): nat {
    if calls == [] then 0 else calls[0].room + TotalRoom(calls[1..])
  }

  lemma FirstRoom(calls: seq<Call>)
    ensures TotalRoom(calls) == if calls == [] then 0 else calls[0].room + TotalRoom(calls[1..])
  {
  }

  lemma PiecesFit(c: Codec, s: seq<nat>, calls: seq<Call>, max: nat)
    ensures |InPieces(c, s, calls, max).out| <= TotalRoom(calls)
    decreases |calls|
  {
  }

  lemma OneAfterAnother(c: Codec, s: seq<nat>, d: Outcome, rest: Outcome, total: nat, max: nat)
    requires d.result != Error && d.read + rest.read <= |s| && |d.out| + |rest.out| <= total
    requires Drive(c, s, total, max) == Continue(d, Drive(c, s[d.read..], total - |d.out|, max))
    requires Drive(c, s[d.read..], total - |d.out|, max) ==
             Continue(rest, Drive(c, s[d.read..][rest.read..], total - |d.out| - |rest.out|, max))
    ensures var o := Continue(d, rest);
      Drive(c, s, total, max) == Continue(o, Drive(c, s[o.read..], total - |o.out|, max))
  {
    hide Drive;
    assert s[d.read + rest.read..] == s[d.read..][rest.read..];
    ContinueTwice(d.read, d.out, rest, Drive(c, s[d.read + rest.read..], total - |d.out| - |rest.out|, max));
  }

  /** However the source and the room are cut up, the calls together do what one call in the whole room does. */
  lemma {:induction false} PiecesMakeWhole(c: Codec, s: seq<nat>, calls: seq<Call>, total: nat, max: nat)
    requires TotalRoom(calls) <= total
    ensures var o := InPieces(c, s, calls, max);
      && |o.out| <= total
      && Drive(c, s, total, max) == Continue(o, Drive(c, s[o.read..], total - |o.out|, max))
    decreases |calls|
  {
    hide StepOf, Drive, TotalRoom, Continue, Resume, InPieces;
    FirstRoom(calls);
    FirstPiece(c, s, calls, max);
    PiecesFit(c, s, calls, max);
    if calls == [] {
      assert s[0..] == s;
      NothingDone(InPieces(c, s, calls, max), Drive(c, s, total, max));
    } else {
      var k := if calls[0].units < |s| then calls[0].units else |s|;
      var d := Drive(c, s[..k], calls[0].room, max);
      CallAndRest(c, s, k, calls[0].room, total, max);
      var left := s[d.read..];
      if d.result == Error {
        ErrorEnds(d, Drive(c, left, total - |d.out|, max));
        ErrorEnds(d, InPieces(c, left, calls[1..], max));
      } else {
        PiecesFit(c, left, calls[1..], max);
        PiecesMakeWhole(c, left, calls[1..], total - |d.out|, max);
        OneAfterAnother(c, s, d, InPieces(c, left, calls[1..], max), total, max);
      }
    }
  }

  lemma FirstPiece(c: Codec, s: seq<nat>, calls: seq<Call>, max: nat)
    ensures calls == [] ==> InPieces(c, s, calls, max) == Outcome(if s == [] then Ok else Partial, 0, [])
    ensures calls != [] ==>
      var k := if calls[0].units < |s| then calls[0].units else |s|;
      var o := Drive(c, s[..k], calls[0].room, max);
      InPieces(c, s, calls, max) == Continue(o, InPieces(c, s[o.read..], calls[1..], max))
  {
    hide Drive;
  }

  /** Calls that have read the whole source have converted it as one call would. */
  lemma PiecesThatEnd(c: Codec, s: seq<nat>, calls: seq<Call>, total: nat, max: nat)
    requires TotalRoom(calls) <= total && InPieces(c, s, calls, max).result == Ok
    ensures Drive(c, s, total, max) == InPieces(c, s, calls, max)
  {
    hide StepOf, Drive;
    PiecesMakeWhole(c, s, calls, total, max);
    var o := InPieces(c, s, calls, max);
    OkReadsAll(c, s, calls, max);
    DriveStops(c, s[o.read..], total - |o.out|, max);
    assert o.out + [] == o.out;
  }

  lemma OkReadsAll(c: Codec, s: seq<nat>, calls: seq<Call>, max: nat)
    requires InPieces(c, s, calls, max).result == Ok
    ensures InPieces(c, s, calls, max).read == |s|
    decreases |calls|
  {
  }
}
