/**
 * The static transcoders between UTF-8, UTF-16, UCS-2 and UCS-4. Each converter is the same loop around its own
 * step: what it does with the units at hand, the room that is left and the largest code point allowed.
 * Tests of leading bits are written as ranges, other bit operations with division and remainder by powers of two.
 */
module Transcoders {

  datatype Result = Ok | Partial | Error

  /** One turn of a conversion loop: n units are read and out is written, or the loop stops. */
  datatype Step = Take(n: nat, out: seq<nat>) | Short | Bad

  datatype Codec =
    | Utf16ToUtf8 | WideUtf16ToUtf8 | Ucs4ToUtf8 | Ucs2ToUtf8
    | Utf8ToUtf16 | Utf8ToUcs4 | Utf8ToUcs2
    | Ucs4ToUtf16(big: bool) | Ucs2ToUtf16(big: bool)
    | Utf16ToUcs4(big: bool) | Utf16ToUcs2(big: bool)
  {
    predicate Decodes() {
      Utf8ToUtf16? || Utf8ToUcs4? || Utf8ToUcs2? || Utf16ToUcs4? || Utf16ToUcs2?
    }

    /** The header that generate_header writes and consume_header skips. */
    function Header(): seq<nat> {
      match this
      case Ucs4ToUtf16(big) => if big then [0xFE, 0xFF] else [0xFF, 0xFE]
      case Ucs2ToUtf16(big) => if big then [0xFE, 0xFF] else [0xFF, 0xFE]
      case Utf16ToUcs4(big) => if big then [0xFE, 0xFF] else [0xFF, 0xFE]
      case Utf16ToUcs2(big) => if big then [0xFE, 0xFF] else [0xFF, 0xFE]
      case _ => [0xEF, 0xBB, 0xBF]
    }
  }

  predicate IsHigh(u: nat) {
    0xD800 <= u < 0xDC00
  }

  predicate IsLow(u: nat) {
    0xDC00 <= u < 0xE000
  }

  predicate InSurrogates(u: nat) {
    0xD800 <= u < 0xE000
  }

  // ---- encoders ----

  /** Writes out if there is room for it. */
  function Put(n: nat, out: seq<nat>, room: nat): Step {
    if room < |out| then Short else Take(n, out)
  }

  function Two(v: nat): (out: seq<nat>)
    ensures |out| == 2
  {
    [0xC0 + v / 0x40, 0x80 + v % 0x40]
  }

  function Three(v: nat): (out: seq<nat>)
    ensures |out| == 3
  {
    [0xE0 + v / 0x1000, 0x80 + v / 0x40 % 0x40, 0x80 + v % 0x40]
  }

  /** The code point of a surrogate pair. */
  function PairCode(u1: nat, u2: nat): nat {
    (u1 / 0x40 % 0x10 + 1) * 0x10000 + u1 % 0x40 * 0x400 + u2 % 0x400
  }

  /** Four bytes for a surrogate pair. */
  function FourOfPair(u1: nat, u2: nat): (out: seq<nat>)
    ensures |out| == 4
  {
    var z := u1 / 0x40 % 0x10 + 1;
    [0xF0 + z / 4, 0x80 + z % 4 * 0x10 + u1 / 4 % 0x10, 0x80 + u1 % 4 * 0x10 + u2 / 0x40 % 0x10, 0x80 + u2 % 0x40]
  }

  /** Four bytes for a code point; the first takes no more than four bits of it. */
  function Four(v: nat): (out: seq<nat>)
    ensures |out| == 4
  {
    [0xF0 + v / 0x40000 % 0x10, 0x80 + v / 0x1000 % 0x40, 0x80 + v / 0x40 % 0x40, 0x80 + v % 0x40]
  }

  function Utf16ToUtf8Step(s: seq<nat>, room: nat, max: nat): Step
    requires s != []
  {
    var wc1 := s[0];
    if wc1 > max then Bad
    else if wc1 < 0x80 then Put(1, [wc1], room)
    else if wc1 < 0x800 then Put(1, Two(wc1), room)
    else if wc1 < 0xD800 then Put(1, Three(wc1), room)
    else if wc1 < 0xDC00 then
      if |s| < 2 then Short
      else
        var wc2 := s[1];
        if !IsLow(wc2) then Bad
        else if room < 4 then Short
        else if PairCode(wc1, wc2) > max then Bad
        else Take(2, FourOfPair(wc1, wc2))
    else if wc1 < 0xE000 then Bad
    else Put(1, Three(wc1), room)
  }

  /** The overload for 32-bit units cuts every unit it looks at down to 16 bits. */
  function WideUtf16ToUtf8Step(s: seq<nat>, room: nat, max: nat): Step
    requires s != []
  {
    Utf16ToUtf8Step(if |s| < 2 then [s[0] % 0x10000] else [s[0] % 0x10000, s[1] % 0x10000], room, max)
  }

  function Ucs4ToUtf8Step(s: seq<nat>, room: nat, max: nat): Step
    requires s != []
  {
    var wc := s[0];
    if InSurrogates(wc) || wc > max then Bad
    else if wc < 0x80 then Put(1, [wc], room)
    else if wc < 0x800 then Put(1, Two(wc), room)
    else if wc < 0x10000 then Put(1, Three(wc), room)
    else Put(1, Four(wc), room)
  }

  function Ucs2ToUtf8Step(s: seq<nat>, room: nat, max: nat): Step
    requires s != []
  {
    var wc := s[0];
    if InSurrogates(wc) || wc > max then Bad
    else if wc < 0x80 then Put(1, [wc], room)
    else if wc < 0x800 then Put(1, Two(wc), room)
    else Put(1, Three(wc), room)
  }

  function UnitOut(t: nat, big: bool): (out: seq<nat>)
    ensures |out| == 2
  {
    if big then [t / 0x100 % 0x100, t % 0x100] else [t % 0x100, t / 0x100 % 0x100]
  }

  /** The first surrogate; taking 1 from a plane number of 0 sets all the bits above the low six. */
  function PlaneHigh(v: nat): nat {
    var plane := v / 0x10000 % 0x20;
    (if plane == 0 then 0xFFC0 else 0xD800 + (plane - 1) * 0x40) + v / 0x400 % 0x40
  }

  function Ucs4ToUtf16Step(s: seq<nat>, room: nat, max: nat, big: bool): Step
    requires s != []
  {
    var wc := s[0];
    if InSurrogates(wc) || wc > max then Bad
    else if wc < 0x10000 then Put(1, UnitOut(wc, big), room)
    else Put(1, UnitOut(PlaneHigh(wc), big) + UnitOut(0xDC00 + wc % 0x400, big), room)
  }

  function Ucs2ToUtf16Step(s: seq<nat>, room: nat, max: nat, big: bool): Step
    requires s != []
  {
    var wc := s[0];
    if InSurrogates(wc) || wc > max then Bad
    else Put(1, UnitOut(wc, big), room)
  }

  // ---- decoders ----

  predicate IsTail(c: nat) {
    0x80 <= c < 0xC0
  }

  /** The second byte of a sequence of three: no overlong forms after E0, no surrogates after ED. */
  predicate Second3(c1: nat, c2: nat) {
    if c1 == 0xE0 then 0xA0 <= c2 < 0xC0
    else if c1 == 0xED then 0x80 <= c2 < 0xA0
    else IsTail(c2)
  }

  /** The second byte of a sequence of four: no overlong forms after F0, nothing above 10FFFF after F4. */
  predicate Second4(c1: nat, c2: nat) {
    if c1 == 0xF0 then 0x90 <= c2 <= 0xBF
    else if c1 == 0xF4 then 0x80 <= c2 < 0x90
    else IsTail(c2)
  }

  function Code2(c1: nat, c2: nat): nat {
    c1 % 0x20 * 0x40 + c2 % 0x40
  }

  function Code3(c1: nat, c2: nat, c3: nat): nat {
    c1 % 0x10 * 0x1000 + c2 % 0x40 * 0x40 + c3 % 0x40
  }

  function Code4(c1: nat, c2: nat, c3: nat, c4: nat): nat {
    c1 % 8 * 0x40000 + c2 % 0x40 * 0x1000 + c3 % 0x40 * 0x40 + c4 % 0x40
  }

  /** The surrogate pair for four bytes. */
  function PairOfFour(c1: nat, c2: nat, c3: nat, c4: nat): (out: seq<nat>)
    ensures |out| == 2
  {
    var plane := c1 % 8 * 4 + c2 / 0x10 % 4;
    [0xD800 + (if plane == 0 then 0 else plane - 1) * 0x40 + c2 % 0x10 * 4 + c3 / 0x10 % 4,
     0xDC00 + c3 % 0x10 * 0x40 + c4 % 0x40]
  }

  function Utf8ToUtf16Step(s: seq<nat>, room: nat, max: nat): Step
    requires s != []
  {
    var c1 := s[0];
    if room == 0 then Short
    else if c1 > max then Bad
    else if c1 < 0x80 then Take(1, [c1])
    else if c1 < 0xC2 then Bad
    else if c1 < 0xE0 then
      if |s| < 2 then Short
      else if !IsTail(s[1]) then Bad
      else if Code2(c1, s[1]) > max then Bad
      else Take(2, [Code2(c1, s[1])])
    else if c1 < 0xF0 then
      if |s| < 3 then Short
      else if !Second3(c1, s[1]) then Bad
      else if !IsTail(s[2]) then Bad
      else if Code3(c1, s[1], s[2]) > max then Bad
      else Take(3, [Code3(c1, s[1], s[2])])
    else if c1 < 0xF5 then
      if |s| < 4 then Short
      else
        var c2, c3, c4 := s[1], s[2], s[3];
        if !Second4(c1, c2) then Bad
        else if !IsTail(c3) || !IsTail(c4) then Bad
        else if room < 2 then Short
        else if Code4(c1, c2, c3, c4) > max then Bad
        else Take(4, PairOfFour(c1, c2, c3, c4))
    else Bad
  }

  function Utf8ToUcs4Step(s: seq<nat>, room: nat, max: nat): Step
    requires s != []
  {
    var c1 := s[0];
    if room == 0 then Short
    else if c1 < 0x80 then
      if c1 > max then Bad else Take(1, [c1])
    else if c1 < 0xC2 then Bad
    else if c1 < 0xE0 then
      if |s| < 2 then Short
      else if !IsTail(s[1]) then Bad
      else if Code2(c1, s[1]) > max then Bad
      else Take(2, [Code2(c1, s[1])])
    else if c1 < 0xF0 then
      if |s| < 3 then Short
      else if !Second3(c1, s[1]) then Bad
      else if !IsTail(s[2]) then Bad
      else if Code3(c1, s[1], s[2]) > max then Bad
      else Take(3, [Code3(c1, s[1], s[2])])
    else if c1 < 0xF5 then
      if |s| < 4 then Short
      else if !Second4(c1, s[1]) then Bad
      else if !IsTail(s[2]) || !IsTail(s[3]) then Bad
      else if Code4(c1, s[1], s[2], s[3]) > max then Bad
      else Take(4, [Code4(c1, s[1], s[2], s[3])])
    else Bad
  }

  function Utf8ToUcs2Step(s: seq<nat>, room: nat, max: nat): Step
    requires s != []
  {
    var c1 := s[0];
    if room == 0 then Short
    else if c1 < 0x80 then
      if c1 > max then Bad else Take(1, [c1])
    else if c1 < 0xC2 then Bad
    else if c1 < 0xE0 then
      if |s| < 2 then Short
      else if !IsTail(s[1]) then Bad
      else if Code2(c1, s[1]) > max then Bad
      else Take(2, [Code2(c1, s[1])])
    else if c1 < 0xF0 then
      if |s| < 3 then Short
      else if !Second3(c1, s[1]) then Bad
      else if !IsTail(s[2]) then Bad
      else if Code3(c1, s[1], s[2]) > max then Bad
      else Take(3, [Code3(c1, s[1], s[2])])
    else Bad
  }

  /** The 16-bit unit in the two bytes at position i. */
  function UnitAt(s: seq<nat>, i: nat, big: bool): nat
    requires i + 1 < |s|
  {
    if big then s[i] * 0x100 + s[i + 1] else s[i + 1] * 0x100 + s[i]
  }

  function Utf16ToUcs4Step(s: seq<nat>, room: nat, max: nat, big: bool): Step
    requires s != []
  {
    if |s| < 2 || room == 0 then Short
    else
      var c1 := UnitAt(s, 0, big);
      if IsLow(c1) then Bad
      else if !IsHigh(c1) then
        if c1 > max then Bad else Take(2, [c1])
      else if |s| < 4 then Short
      else
        var c2 := UnitAt(s, 2, big);
        if !IsLow(c2) then Bad
        else if PairCode(c1, c2) > max then Bad else Take(4, [PairCode(c1, c2)])
  }

  function Utf16ToUcs2Step(s: seq<nat>, room: nat, max: nat, big: bool): Step
    requires s != []
  {
    if |s| < 2 || room == 0 then Short
    else
      var c1 := UnitAt(s, 0, big);
      if InSurrogates(c1) || c1 > max then Bad else Take(2, [c1])
  }

  // ---- the conversion loop ----

  function StepOf(c: Codec, s: seq<nat>, room: nat, max: nat): Step
    requires s != []
  {
    match c
    case Utf16ToUtf8 => Utf16ToUtf8Step(s, room, max)
    case WideUtf16ToUtf8 => WideUtf16ToUtf8Step(s, room, max)
    case Ucs4ToUtf8 => Ucs4ToUtf8Step(s, room, max)
    case Ucs2ToUtf8 => Ucs2ToUtf8Step(s, room, max)
    case Utf8ToUtf16 => Utf8ToUtf16Step(s, room, max)
    case Utf8ToUcs4 => Utf8ToUcs4Step(s, room, max)
    case Utf8ToUcs2 => Utf8ToUcs2Step(s, room, max)
    case Ucs4ToUtf16(big) => Ucs4ToUtf16Step(s, room, max, big)
    case Ucs2ToUtf16(big) => Ucs2ToUtf16Step(s, room, max, big)
    case Utf16ToUcs4(big) => Utf16ToUcs4Step(s, room, max, big)
    case Utf16ToUcs2(big) => Utf16ToUcs2Step(s, room, max, big)
  }

  /** What a conversion leaves: its result, how many units it read, and what it wrote. */
  datatype Outcome = Outcome(result: Result, read: nat, out: seq<nat>)

  lemma StepBounds(c: Codec, s: seq<nat>, room: nat, max: nat)
    requires s != []
    ensures var st := StepOf(c, s, room, max); st.Take? ==> 1 <= st.n <= |s| && 1 <= |st.out| <= room
  {
  }

  /** The conversion of s into at most room units. */
  function Drive(c: Codec, s: seq<nat>, room: nat, max: nat): (o: Outcome)
    ensures o.read <= |s| && |o.out| <= room
    ensures o.result == Ok <==> o.read == |s|
    decreases |s|
  {
    if s == [] then Outcome(Ok, 0, [])
    else
      StepBounds(c, s, room, max);
      match StepOf(c, s, room, max)
      case Short => Outcome(Partial, 0, [])
      case Bad => Outcome(Error, 0, [])
      case Take(n, out) =>
        var rest := Drive(c, s[n..], room - |out|, max);
        Outcome(rest.result, n + rest.read, out + rest.out)
  }

  /** With the header modes: an encoder may write a header first, a decoder may skip one. */
  function Transcode(c: Codec, s: seq<nat>, room: nat, max: nat, generate: bool, consume: bool): (o: Outcome)
    ensures o.read <= |s| && |o.out| <= room
  {
    var h := c.Header();
    if c.Decodes() then
      if consume && h <= s then
        var o := Drive(c, s[|h|..], room, max);
        o.(read := |h| + o.read)
      else Drive(c, s, room, max)
    else if generate then
      if room < |h| then Outcome(Partial, 0, [])
      else
        var o := Drive(c, s, room - |h|, max);
        o.(out := h + o.out)
    else Drive(c, s, room, max)
  }

  /** now is was with out written from position at on. */
  ghost predicate Patched(was: seq<nat>, now: seq<nat>, at: nat, out: seq<nat>) {
    && at + |out| <= |was| == |now|
    && forall j :: 0 <= j < |was| ==> now[j] == if at <= j < at + |out| then out[j - at] else was[j]
  }

  lemma PatchedTwice(a: seq<nat>, b: seq<nat>, c: seq<nat>, at: nat, o: seq<nat>, o': seq<nat>)
    requires Patched(a, b, at, o) && Patched(b, c, at + |o|, o')
    ensures Patched(a, c, at, o + o')
  {
  }

  lemma PatchedNone(a: seq<nat>, at: nat)
    requires at <= |a|
    ensures Patched(a, a, at, [])
  {
  }

  lemma PatchedFront(a: seq<nat>, b: seq<nat>, o: seq<nat>)
    requires Patched(a, b, 0, o)
    ensures |o| <= |b| == |a| && b[..|o|] == o && b[|o|..] == a[|o|..]
  {
  }

  method Write(to: array<nat>, at: nat, out: seq<nat>)
    requires at + |out| <= to.Length
    modifies to
    ensures Patched(old(to[..]), to[..], at, out)
  {
    var k := 0;
    while k < |out|
      invariant k <= |out|
      invariant Patched(old(to[..]), to[..], at, out[..k])
    {
      to[at + k] := out[k];
      k := k + 1;
    }
  }

  /** The converters: frm is read up to frmNxt, and to is written up to toNxt and left alone behind it. */
  method Convert(c: Codec, frm: seq<nat>, to: array<nat>, max: nat, generate: bool, consume: bool)
    returns (result: Result, frmNxt: nat, toNxt: nat)
    modifies to
    ensures toNxt <= to.Length
    ensures Outcome(result, frmNxt, to[..toNxt]) == Transcode(c, frm, to.Length, max, generate, consume)
    ensures to[toNxt..] == old(to[toNxt..])
    ensures result == Ok ==> frmNxt == |frm|
    ensures 4 * |frm| + 3 <= to.Length ==> (result == Partial <==> Unfinished(c, frm[frmNxt..], max))
    ensures !c.Decodes() && generate && to.Length < |c.Header()| ==> result == Partial && frmNxt == toNxt == 0
  {
    hide Unfinished;
    if 4 * |frm| + 3 <= to.Length {
      TranscodeStops(c, frm, to.Length, max, generate, consume);
    }
    result, frmNxt, toNxt := ConvertHeader(c, frm, to, max, generate, consume);
  }

  /** The header, if one is to be written or skipped, and then the loop. */
  method ConvertHeader(c: Codec, frm: seq<nat>, to: array<nat>, max: nat, generate: bool, consume: bool)
    returns (result: Result, frmNxt: nat, toNxt: nat)
    modifies to
    ensures toNxt <= to.Length
    ensures Outcome(result, frmNxt, to[..toNxt]) == Transcode(c, frm, to.Length, max, generate, consume)
    ensures to[toNxt..] == old(to[toNxt..])
  {
    hide StepOf, Drive, Patched, Codec.Header;
    var h := c.Header();
    assert frm[0..] == frm;
    if !c.Decodes() && generate {
      if to.Length < |h| {
        return Partial, 0, 0;
      }
      result, frmNxt, toNxt := ConvertBehind(h, c, frm, to, max);
      PatchedFront(old(to[..]), to[..], h + Drive(c, frm, to.Length - |h|, max).out);
    } else {
      var start := if c.Decodes() && consume && h <= frm then |h| else 0;
      result, frmNxt, toNxt := ConvertRest(c, frm, start, to, 0, max);
      PatchedFront(old(to[..]), to[..], Drive(c, frm[start..], to.Length, max).out);
    }
  }

  /** The loop behind a header. */
  method ConvertBehind(h: seq<nat>, c: Codec, frm: seq<nat>, to: array<nat>, max: nat)
    returns (result: Result, frmNxt: nat, toNxt: nat)
    requires |h| <= to.Length
    modifies to
    ensures var o := Drive(c, frm, to.Length - |h|, max);
      && result == o.result && frmNxt == o.read && toNxt == |h + o.out|
      && Patched(old(to[..]), to[..], 0, h + o.out)
  {
    hide StepOf, Drive, Patched;
    assert frm[0..] == frm;
    Write(to, 0, h);
    ghost var mid := to[..];
    result, frmNxt, toNxt := ConvertRest(c, frm, 0, to, |h|, max);
    PatchedTwice(old(to[..]), mid, to[..], 0, h, Drive(c, frm, to.Length - |h|, max).out);
  }

  /** The conversion loop. */
  method ConvertRest(c: Codec, frm: seq<nat>, from: nat, to: array<nat>, at: nat, max: nat)
    returns (result: Result, frmNxt: nat, toNxt: nat)
    requires from <= |frm| && at <= to.Length
    modifies to
    ensures var o := Drive(c, frm[from..], to.Length - at, max);
      && result == o.result && frmNxt == from + o.read && toNxt == at + |o.out|
      && Patched(old(to[..]), to[..], at, o.out)
  {
    hide StepOf, Drive, Patched;
    frmNxt, toNxt := from, at;
    ghost var o := Drive(c, frm[from..], to.Length - at, max);
    ghost var written: seq<nat> := [];
    PatchedNone(to[..], at);
    while frmNxt < |frm|
      invariant from <= frmNxt <= |frm| && toNxt == at + |written| <= to.Length
      invariant Patched(old(to[..]), to[..], at, written)
      invariant o == Resume(frmNxt - from, written, Drive(c, frm[frmNxt..], to.Length - toNxt, max))
    {
      var step := StepOf(c, frm[frmNxt..], to.Length - toNxt, max);
      if step.Take? {
        OneMoreFrom(c, frm, frmNxt, to.Length - toNxt, max);
        ResumeTwice(frmNxt - from, written, step.n, step.out,
                    Drive(c, frm[frmNxt + step.n..], to.Length - toNxt - |step.out|, max));
        ghost var mid := to[..];
        Write(to, toNxt, step.out);
        PatchedTwice(old(to[..]), mid, to[..], at, written, step.out);
        written := written + step.out;
        frmNxt, toNxt := frmNxt + step.n, toNxt + |step.out|;
      } else {
        DriveStops(c, frm[frmNxt..], to.Length - toNxt, max);
        assert written + [] == written;
        return if step == Short then Partial else Error, frmNxt, toNxt;
      }
    }
    DriveStops(c, frm[frmNxt..], to.Length - toNxt, max);
    assert written + [] == written;
    result := Ok;
  }

  /** The outcome of a conversion that has read n units and written w, when rest is what remains to be done. */
  function Resume(n: nat, w: seq<nat>, rest: Outcome): Outcome {
    Outcome(rest.result, n + rest.read, w + rest.out)
  }

  /** A conversion that cannot take a turn. */
  lemma DriveStops(c: Codec, s: seq<nat>, room: nat, max: nat)
    requires s == [] || !StepOf(c, s, room, max).Take?
    ensures Drive(c, s, room, max) ==
            Outcome(if s == [] then Ok else if StepOf(c, s, room, max) == Short then Partial else Error, 0, [])
  {
  }

  /** One turn of the loop, and the conversion of what is left in the room that is left. */
  lemma OneMore(c: Codec, s: seq<nat>, room: nat, max: nat)
    requires s != [] && StepOf(c, s, room, max).Take?
    ensures var st := StepOf(c, s, room, max);
      && 1 <= st.n <= |s| && 1 <= |st.out| <= room
      && Drive(c, s, room, max) == Resume(st.n, st.out, Drive(c, s[st.n..], room - |st.out|, max))
  {
    hide StepOf;
    StepBounds(c, s, room, max);
  }

  /** The same from position i of the whole source. */
  lemma OneMoreFrom(c: Codec, s: seq<nat>, i: nat, room: nat, max: nat)
    requires i < |s| && StepOf(c, s[i..], room, max).Take?
    ensures var st := StepOf(c, s[i..], room, max);
      && 1 <= st.n <= |s| - i && 1 <= |st.out| <= room
      && Drive(c, s[i..], room, max) == Resume(st.n, st.out, Drive(c, s[i + st.n..], room - |st.out|, max))
  {
    hide StepOf, Drive;
    OneMore(c, s[i..], room, max);
    assert s[i..][StepOf(c, s[i..], room, max).n..] == s[i + StepOf(c, s[i..], room, max).n..];
  }

  lemma ResumeTwice(n: nat, w: seq<nat>, n': nat, w': seq<nat>, rest: Outcome)
    ensures Resume(n, w, Resume(n', w', rest)) == Resume(n + n', w + w', rest)
  {
    assert w + (w' + rest.out) == w + w' + rest.out;
  }

  // ---- partial or error ----

  /** How many units the form takes that the first of them announces; 1 if it announces none, or is refused at once. */
  function Announced(c: Codec, s: seq<nat>): (n: nat)
    requires s != []
  {
    match c
    case Utf8ToUtf16 => Announced8(s[0], true)
    case Utf8ToUcs4 => Announced8(s[0], true)
    case Utf8ToUcs2 => Announced8(s[0], false)
    case Utf16ToUtf8 => if IsHigh(s[0]) then 2 else 1
    case WideUtf16ToUtf8 => if IsHigh(s[0] % 0x10000) then 2 else 1
    case Utf16ToUcs4(big) => if |s| >= 2 && IsHigh(UnitAt(s, 0, big)) then 4 else 2
    case Utf16ToUcs2(_) => 2
    case _ => 1
  }

  /** The length that a byte announces as the first of a UTF-8 form; UCS-2 has no use for those of four. */
  function Announced8(b: nat, four: bool): (n: nat) {
    if 0xC2 <= b < 0xE0 then 2
    else if 0xE0 <= b < 0xF0 then 3
    else if 0xF0 <= b < 0xF5 && four then 4
    else 1
  }

  /**
   * s ends within the form that its first unit announces. Three of the converters compare that unit itself with max
   * before they look for more.
   */
  predicate Unfinished(c: Codec, s: seq<nat>, max: nat) {
    && s != [] && |s| < Announced(c, s)
    && (c.Utf8ToUtf16? || c.Utf16ToUtf8? ==> s[0] <= max)
    && (c.WideUtf16ToUtf8? ==> s[0] % 0x10000 <= max)
  }

  lemma ShortWithRoom(c: Codec, s: seq<nat>, room: nat, max: nat)
    requires s != [] && room >= 4
    ensures StepOf(c, s, room, max) == Short <==> Unfinished(c, s, max)
    ensures var st := StepOf(c, s, room, max); st.Take? ==> |st.out| <= 4 * st.n
  {
  }

  /** With room enough, a conversion that does not end asks for more exactly if what is left is an unfinished form. */
  lemma DriveAsksForMore(c: Codec, s: seq<nat>, room: nat, max: nat)
    requires 4 * |s| <= room
    ensures var o := Drive(c, s, room, max); o.result == Partial <==> Unfinished(c, s[o.read..], max)
    decreases |s|
  {
    hide StepOf, Drive;
    if s == [] {
      DriveStops(c, s, room, max);
    } else {
      ShortWithRoom(c, s, room, max);
      var st := StepOf(c, s, room, max);
      if st.Take? {
        OneMore(c, s, room, max);
        DriveAsksForMore(c, s[st.n..], room - |st.out|, max);
        var r := Drive(c, s[st.n..], room - |st.out|, max).read;
        assert s[st.n..][r..] == s[st.n + r..];
      } else {
        DriveStops(c, s, room, max);
      }
    }
  }

  lemma TranscodeStops(c: Codec, s: seq<nat>, room: nat, max: nat, generate: bool, consume: bool)
    requires 4 * |s| + 3 <= room
    ensures var o := Transcode(c, s, room, max, generate, consume);
      o.result == Partial <==> Unfinished(c, s[o.read..], max)
  {
    hide Drive, Unfinished, Codec.Header;
    HeaderIsShort(c);
    var h := c.Header();
    if c.Decodes() && consume && h <= s {
      DriveAsksForMore(c, s[|h|..], room, max);
      RestOfRest(s, |h|, Drive(c, s[|h|..], room, max).read);
    } else {
      DriveAsksForMore(c, s, if c.Decodes() || !generate then room else room - |h|, max);
    }
  }

  lemma HeaderIsShort(c: Codec)
    ensures |c.Header()| <= 3
  {
  }

  lemma RestOfRest(s: seq<nat>, n: nat, m: nat)
    requires n + m <= |s|
    ensures s[n..][m..] == s[n + m..]
  {
  }

  // ---- the length scanners ----

  /** One turn of a length scan: n bytes make units units, or the scan ends. */
  datatype Scan = Skip(n: nat, units: nat) | Stop

  function Utf8ToUtf16Scan(s: seq<nat>, left: nat, max: nat): Scan
    requires s != []
  {
    var c1 := s[0];
    if left == 0 then Stop
    else if c1 > max then Stop
    else if c1 < 0x80 then Skip(1, 1)
    else if c1 < 0xC2 then Stop
    else if c1 < 0xE0 then
      if |s| < 2 || !IsTail(s[1]) then Stop
      else if Code2(c1, s[1]) > max then Stop
      else Skip(2, 1)
    else if c1 < 0xF0 then
      if |s| < 3 then Stop
      else if !Second3(c1, s[1]) then Stop
      else if !IsTail(s[2]) then Stop
      else if Code3(c1, s[1], s[2]) > max then Stop
      else Skip(3, 1)
    else if c1 < 0xF5 then
      if |s| < 4 || left < 2 then Stop
      else if !Second4(c1, s[1]) then Stop
      else if !IsTail(s[2]) || !IsTail(s[3]) then Stop
      else if Code4(c1, s[1], s[2], s[3]) > max then Stop
      else Skip(4, 2)
    else Stop
  }

  function Utf8ToUcs4Scan(s: seq<nat>, left: nat, max: nat): Scan
    requires s != []
  {
    var c1 := s[0];
    if left == 0 then Stop
    else if c1 < 0x80 then
      if c1 > max then Stop else Skip(1, 1)
    else if c1 < 0xC2 then Stop
    else if c1 < 0xE0 then
      if |s| < 2 || !IsTail(s[1]) then Stop
      else if Code2(c1, s[1]) > max then Stop
      else Skip(2, 1)
    else if c1 < 0xF0 then
      if |s| < 3 then Stop
      else if !Second3(c1, s[1]) then Stop
      else if !IsTail(s[2]) then Stop
      else if Code3(c1, s[1], s[2]) > max then Stop
      else Skip(3, 1)
    else if c1 < 0xF5 then
      if |s| < 4 then Stop
      else if !Second4(c1, s[1]) then Stop
      else if !IsTail(s[2]) || !IsTail(s[3]) then Stop
      else if Code4(c1, s[1], s[2], s[3]) > max then Stop
      else Skip(4, 1)
    else Stop
  }

  function Utf8ToUcs2Scan(s: seq<nat>, left: nat, max: nat): Scan
    requires s != []
  {
    var c1 := s[0];
    if left == 0 then Stop
    else if c1 < 0x80 then
      if c1 > max then Stop else Skip(1, 1)
    else if c1 < 0xC2 then Stop
    else if c1 < 0xE0 then
      if |s| < 2 || !IsTail(s[1]) then Stop
      else if Code2(c1, s[1]) > max then Stop
      else Skip(2, 1)
    else if c1 < 0xF0 then
      if |s| < 3 then Stop
      else if !Second3(c1, s[1]) then Stop
      else if !IsTail(s[2]) then Stop
      else if Code3(c1, s[1], s[2]) > max then Stop
      else Skip(3, 1)
    else Stop
  }

  function Utf16ToUcs4Scan(s: seq<nat>, left: nat, max: nat, big: bool): Scan
    requires s != []
  {
    if |s| < 2 || left == 0 then Stop
    else
      var c1 := UnitAt(s, 0, big);
      if IsLow(c1) then Stop
      else if !IsHigh(c1) then
        if c1 > max then Stop else Skip(2, 1)
      else if |s| < 4 then Stop
      else
        var c2 := UnitAt(s, 2, big);
        if !IsLow(c2) then Stop
        else if PairCode(c1, c2) > max then Stop
        else Skip(4, 1)
  }

  function Utf16ToUcs2Scan(s: seq<nat>, left: nat, max: nat, big: bool): Scan
    requires s != []
  {
    if |s| < 2 || left == 0 then Stop
    else
      var c1 := UnitAt(s, 0, big);
      if InSurrogates(c1) || c1 > max then Stop else Skip(2, 1)
  }

  function ScanOf(c: Codec, s: seq<nat>, left: nat, max: nat): Scan
    requires c.Decodes() && s != []
  {
    match c
    case Utf8ToUtf16 => Utf8ToUtf16Scan(s, left, max)
    case Utf8ToUcs4 => Utf8ToUcs4Scan(s, left, max)
    case Utf8ToUcs2 => Utf8ToUcs2Scan(s, left, max)
    case Utf16ToUcs4(big) => Utf16ToUcs4Scan(s, left, max, big)
    case Utf16ToUcs2(big) => Utf16ToUcs2Scan(s, left, max, big)
  }

  /** The scanner takes a turn exactly when the decoder does, over the same bytes and for as many units. */
  lemma ScanMatchesStep(c: Codec, s: seq<nat>, left: nat, max: nat)
    requires c.Decodes() && s != []
    ensures ScanOf(c, s, left, max) ==
            match StepOf(c, s, left, max)
            case Take(n, out) => Skip(n, |out|)
            case _ => Stop
  {
  }

  /** The length functions: exactly the bytes the decoder would read to fill a buffer of mx units. */
  method Length(c: Codec, frm: seq<nat>, mx: nat, max: nat, consume: bool) returns (n: nat)
    requires c.Decodes()
    ensures n == Transcode(c, frm, mx, max, false, consume).read
  {
    hide StepOf, ScanOf, Drive, Codec.Header;
    var frmNxt := 0;
    var h := c.Header();
    if consume && h <= frm {
      frmNxt := |h|;
    }
    assert frm[0..] == frm;
    var units := 0;
    ghost var start, o := frmNxt, Drive(c, frm[frmNxt..], mx, max);
    while frmNxt < |frm| && units < mx
      invariant start <= frmNxt <= |frm| && units <= mx
      invariant o.read == frmNxt - start + Drive(c, frm[frmNxt..], mx - units, max).read
    {
      ScanMatchesStep(c, frm[frmNxt..], mx - units, max);
      var scan := ScanOf(c, frm[frmNxt..], mx - units, max);
      if scan == Stop {
        DriveStops(c, frm[frmNxt..], mx - units, max);
        return frmNxt;
      }
      OneMoreFrom(c, frm, frmNxt, mx - units, max);
      frmNxt, units := frmNxt + scan.n, units + scan.units;
    }
    if frmNxt < |frm| {
      NoRoomNoTurn(c, frm[frmNxt..], max);
    }
    DriveStops(c, frm[frmNxt..], mx - units, max);
    return frmNxt;
  }

  lemma NoRoomNoTurn(c: Codec, s: seq<nat>, max: nat)
    requires s != []
    ensures !StepOf(c, s, 0, max).Take?
  {
  }
}
