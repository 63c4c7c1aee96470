/**
 * How the converters compare: the direct route between UTF-8 and UTF-16 against the one over code points, the two
 * byte orders, the overload that cuts its units, and the headers.
 */
module TranscoderPairs {

  import opened Unicode
  import opened Transcoders
  import opened TranscoderSteps
  import opened TranscoderLaws

  // ---- UTF-8 to UTF-16 directly and over code points ----

  lemma SameStop(s: seq<nat>, room: nat, room4: nat, max: nat)
    requires max >= 0xF4 && room >= 2 * |s| && room4 >= |s|
    ensures var o, o4 := Drive(Utf8ToUtf16, s, room, max), Drive(Utf8ToUcs4, s, room4, max);
      o.result == o4.result && o.read == o4.read
    decreases |s|
  {
    hide StepOf, Drive;
    if s == [] {
      DriveStops(Utf8ToUtf16, s, room, max);
      DriveStops(Utf8ToUcs4, s, room4, max);
    } else {
      var st, st4 := StepOf(Utf8ToUtf16, s, room, max), StepOf(Utf8ToUcs4, s, room4, max);
      SameTurn(s, room, room4, max);
      if st.Take? {
        OneMore(Utf8ToUtf16, s, room, max);
        OneMore(Utf8ToUcs4, s, room4, max);
        SameStop(s[st.n..], room - |st.out|, room4 - |st4.out|, max);
      } else {
        DriveStops(Utf8ToUtf16, s, room, max);
        DriveStops(Utf8ToUcs4, s, room4, max);
      }
    }
  }

  /** With room for a pair, the two decoders stop and go on alike. */
  lemma SameTurn(s: seq<nat>, room: nat, room4: nat, max: nat)
    requires s != [] && room >= 2 * |s| && room4 >= |s| && max >= 0xF4
    ensures var st, st4 := StepOf(Utf8ToUtf16, s, room, max), StepOf(Utf8ToUcs4, s, room4, max);
      && (st.Short? <==> st4.Short?) && (st.Bad? <==> st4.Bad?)
      && (st.Take? ==> 1 <= st.n == st4.n <= |s| && |st.out| <= 2 * st.n && |st4.out| <= st.n)
  {
  }

  /** utf8_to_utf16 does what utf8_to_ucs4 does, and writes the same code points in UTF-16. */
  ghost predicate RoutesAgree(s: seq<nat>, max: nat) {
    var o, o4 := Drive(Utf8ToUtf16, s, 2 * |s|, max), Drive(Utf8ToUcs4, s, |s|, max);
    && o.result == o4.result && o.read == o4.read
    && exists vs: seq<CodePoint> :: o4.out == EncodeAll(Plain, vs) && o.out == EncodeAll(Utf16, vs)
  }

  lemma DirectRoute(s: seq<nat>, max: nat)
    requires Below(s, 0x100) && max >= 0xF4
    ensures RoutesAgree(s, max)
  {
    hide StepOf, Drive, Encode;
    SameStop(s, 2 * |s|, |s|, max);
    var vs := Sound(Utf8ToUtf16, s, 2 * |s|, max);
    var us := Sound(Utf8ToUcs4, s, |s|, max);
    EncodeInjective(Utf8ToUcs4, vs, us);
  }

  /** A text has one reading. */
  lemma EncodeInjective(c: Codec, vs: seq<CodePoint>, us: seq<CodePoint>)
    requires Target(c) == Plain && !ForUcs2(c) && EncodeAll(Source(c), vs) == EncodeAll(Source(c), us)
    ensures vs == us
  {
    hide StepOf, Drive, Encode;
    PlainIs(vs);
    PlainIs(us);
    Converts(c, vs, |vs| + |us|, 0x10FFFF);
    Converts(c, us, |vs| + |us|, 0x10FFFF);
  }

  lemma PlainIs(vs: seq<CodePoint>)
    ensures EncodeAll(Plain, vs) == vs
  {
  }

  /** The routes agree on all bytes exactly when no lead byte exceeds max: a lone F4 is only truncated otherwise. */
  lemma RoutesAgreeExactly(max: nat)
    ensures (forall s: seq<nat> | Below(s, 0x100) :: RoutesAgree(s, max)) <==> max >= 0xF4
  {
    if max >= 0xF4 {
      forall s: seq<nat> | Below(s, 0x100)
        ensures RoutesAgree(s, max)
      {
        DirectRoute(s, max);
      }
    } else {
      var s := [0xF4];
      assert Utf8ToUtf16Step(s, 2, max) == Bad && Utf8ToUcs4Step(s, 1, max) == Short;
      assert !RoutesAgree(s, max);
    }
  }

  /** utf8_to_utf16 takes all text within the limit exactly when the lead bytes of C2 and C3 are within it too. */
  lemma TakesAllTextExactly(max: nat)
    ensures (forall vs: seq<CodePoint> | AllWithin(vs, max) ::
               Drive(Utf8ToUtf16, EncodeAll(Utf8, vs), 4 * |vs|, max).result == Ok)
            <==> FullMax(Utf8ToUtf16, max)
  {
    if FullMax(Utf8ToUtf16, max) {
      forall vs: seq<CodePoint> | AllWithin(vs, max)
        ensures Drive(Utf8ToUtf16, EncodeAll(Utf8, vs), 4 * |vs|, max).result == Ok
      {
        PlainIs(vs);
        Sizes(Plain, Utf16, vs);
        Converts(Utf8ToUtf16, vs, 4 * |vs|, max);
      }
    } else {
      var vs: seq<CodePoint> := [max];
      assert AllWithin(vs, max);
      var s := EncodeAll(Utf8, vs);
      assert s[0] > max;
      assert Utf8ToUtf16Step(s, 4, max) == Bad;
    }
  }

  // ---- code points above 10FFFF ----

  predicate ComesBack(c: Codec, d: Codec, s: seq<nat>, max: nat) {
    var o := Drive(c, s, 4 * |s|, max);
    Drive(d, o.out, |s|, max) == Outcome(Ok, |o.out|, s[..o.read])
  }

  /** The encoders from UCS-4 rely on max alone to keep out what is no code point. */
  lemma EncodersComeBackExactly(big: bool, max: nat)
    ensures (forall s: seq<nat> | Below(s, 0x1_0000_0000) :: ComesBack(Ucs4ToUtf8, Utf8ToUcs4, s, max)) <==> max <= 0x10FFFF
    ensures (forall s: seq<nat> | Below(s, 0x1_0000_0000) :: ComesBack(Ucs4ToUtf16(big), Utf16ToUcs4(big), s, max))
            <==> max <= 0x10FFFF
  {
    hide ComesBack;
    if max <= 0x10FFFF {
      forall s: seq<nat> | Below(s, 0x1_0000_0000)
        ensures ComesBack(Ucs4ToUtf8, Utf8ToUcs4, s, max) && ComesBack(Ucs4ToUtf16(big), Utf16ToUcs4(big), s, max)
      {
        WithinLast(big, s, max);
      }
    } else {
      AboveLast8(max);
      AboveLast16(big, max);
      assert Below([0x110000], 0x1_0000_0000);
    }
  }

  lemma WithinLast(big: bool, s: seq<nat>, max: nat)
    requires Below(s, 0x1_0000_0000) && max <= 0x10FFFF
    ensures ComesBack(Ucs4ToUtf8, Utf8ToUcs4, s, max) && ComesBack(Ucs4ToUtf16(big), Utf16ToUcs4(big), s, max)
  {
    hide Drive;
    RoundTrip(Ucs4ToUtf8, Utf8ToUcs4, s, 4 * |s|, |s|, max);
    RoundTrip(Ucs4ToUtf16(big), Utf16ToUcs4(big), s, 4 * |s|, |s|, max);
  }

  lemma AboveLast8(max: nat)
    requires max > 0x10FFFF
    ensures !ComesBack(Ucs4ToUtf8, Utf8ToUcs4, [0x110000], max)
  {
    hide Drive;
    var s: seq<nat>, out := [0x110000], [0xF4, 0x90, 0x80, 0x80];
    assert StepOf(Ucs4ToUtf8, s, 4, max) == Take(1, out);
    assert StepOf(Utf8ToUcs4, out, 1, max) == Bad;
    Alone(Ucs4ToUtf8, s, out, 4, max);
    DriveStops(Utf8ToUcs4, out, 1, max);
  }

  lemma AboveLast16(big: bool, max: nat)
    requires max > 0x10FFFF
    ensures !ComesBack(Ucs4ToUtf16(big), Utf16ToUcs4(big), [0x110000], max)
  {
    hide Drive;
    var s: seq<nat>, out := [0x110000], UnitOut(0xDC00, big) + UnitOut(0xDC00, big);
    assert StepOf(Ucs4ToUtf16(big), s, 4, max) == Take(1, out);
    assert StepOf(Utf16ToUcs4(big), out, 1, max) == Bad;
    Alone(Ucs4ToUtf16(big), s, out, 4, max);
    DriveStops(Utf16ToUcs4(big), out, 1, max);
  }

  lemma Alone(c: Codec, s: seq<nat>, out: seq<nat>, room: nat, max: nat)
    requires |s| == 1 && |out| <= room && StepOf(c, s, room, max) == Take(1, out)
    ensures Drive(c, s, room, max) == Outcome(Ok, 1, out)
  {
  }

  // ---- headers ----

  /** The mark that the header encodes. */
  const MARK: CodePoint := 0xFEFF

  lemma HeaderIsMark(c: Codec)
    ensures c.Header() == Encode(if c.Decodes() then Source(c) else Target(c), MARK)
  {
  }

  /** A header that was generated is consumed, and the text comes back. */
  lemma HeaderCancels(c: Codec, d: Codec, s: seq<nat>, room: nat, back: nat, max: nat)
    requires Undoes(d, c, max) && Units(c, s) && SoundMax(c, max) && !c.Decodes() && d.Decodes()
    requires |c.Header()| <= room && Transcode(c, s, room, max, true, false).read <= back
    ensures var o := Transcode(c, s, room, max, true, false);
      Transcode(d, o.out, back, max, false, true) == Outcome(Ok, |o.out|, s[..o.read])
  {
    hide StepOf, Drive, Encode;
    var h := c.Header();
    HeaderIsMark(c);
    HeaderIsMark(d);
    var o := Drive(c, s, room - |h|, max);
    assert h <= h + o.out && (h + o.out)[|h|..] == o.out;
    RoundTrip(c, d, s, room - |h|, back, max);
  }

  /** Where no header was generated, a decoder that consumes one loses a mark that the text itself begins with. */
  lemma ConsumesFirstMark(d: Codec, vs: seq<CodePoint>, room: nat, max: nat)
    requires d.Decodes() && AllWithin(vs, Limit(d, max)) && FullMax(d, max) && |EncodeAll(Target(d), vs)| <= room
    ensures var text := EncodeAll(Source(d), vs);
      Transcode(d, text, room, max, false, true) ==
      Outcome(Ok, |text|, EncodeAll(Target(d), if vs != [] && vs[0] == MARK then vs[1..] else vs))
  {
    hide StepOf, Drive, Encode;
    var text, h := EncodeAll(Source(d), vs), d.Header();
    HeaderIsMark(d);
    if h <= text {
      FirstIs(Source(d), vs, MARK);
      Converts(d, vs[1..], room, max);
    } else {
      Converts(d, vs, room, max);
    }
  }

  lemma FirstIs(e: Encoding, vs: seq<CodePoint>, v: CodePoint)
    requires (e.Utf8? || e.Utf16Bytes?) && Encode(e, v) <= EncodeAll(e, vs)
    ensures vs != [] && vs[0] == v
  {
    hide StepOf, Encode;
    var s := EncodeAll(e, vs);
    var d := if e.Utf8? then Utf8ToUcs4 else Utf16ToUcs4(e.big);
    StepComplete(d, s, v, 1, 0x10FFFF);
    StepComplete(d, s, vs[0], 1, 0x10FFFF);
    PlainOne(v);
    PlainOne(vs[0]);
  }

  lemma PlainOne(v: CodePoint)
    ensures Encode(Plain, v) == [v]
  {
  }

  // ---- byte order ----

  /** Every two bytes exchanged; a last odd byte stays. */
  function SwapBytes(s: seq<nat>): (r: seq<nat>)
    ensures |r| == |s|
  {
    if |s| < 2 then s else [s[1], s[0]] + SwapBytes(s[2..])
  }

  lemma SwapAppend(a: seq<nat>, b: seq<nat>)
    requires |a| % 2 == 0
    ensures SwapBytes(a + b) == SwapBytes(a) + SwapBytes(b)
  {
    hide SwapBytes;
    if a == [] {
      SwapShort(a);
      assert a + b == b;
    } else {
      SwapAppend(a[2..], b);
      SwapTwo(a + b);
      SwapTwo(a);
      assert (a + b)[2..] == a[2..] + b;
    }
  }

  lemma SwapShort(s: seq<nat>)
    requires |s| < 2
    ensures SwapBytes(s) == s
  {
  }

  lemma SwapTwo(s: seq<nat>)
    requires |s| >= 2
    ensures SwapBytes(s) == [s[1], s[0]] + SwapBytes(s[2..])
  {
  }

  /** c with the other byte order; the same converter if it has none. */
  function Swapped(c: Codec): Codec {
    match c
    case Ucs4ToUtf16(big) => Ucs4ToUtf16(!big)
    case Ucs2ToUtf16(big) => Ucs2ToUtf16(!big)
    case Utf16ToUcs4(big) => Utf16ToUcs4(!big)
    case Utf16ToUcs2(big) => Utf16ToUcs2(!big)
    case _ => c
  }

  /** The encoders to one byte order write what those to the other write, with the bytes exchanged. */
  lemma SwappedEncoders(c: Codec, s: seq<nat>, room: nat, max: nat)
    requires Target(c).Utf16Bytes?
    ensures var o := Drive(c, s, room, max);
      |o.out| % 2 == 0 && Drive(Swapped(c), s, room, max) == o.(out := SwapBytes(o.out))
    decreases |s|
  {
    hide StepOf, Drive, SwapBytes, Swapped, Target;
    var d := Swapped(c);
    SwapShort([]);
    if s == [] {
      DriveStops(c, s, room, max);
      DriveStops(d, s, room, max);
    } else {
      SwappedEncoderTurn(c, s, room, max);
      var st := StepOf(c, s, room, max);
      if st.Take? {
        OneMore(c, s, room, max);
        OneMore(d, s, room, max);
        SwappedEncoders(c, s[st.n..], room - |st.out|, max);
        SwapAppend(st.out, Drive(c, s[st.n..], room - |st.out|, max).out);
      } else {
        DriveStops(c, s, room, max);
        DriveStops(d, s, room, max);
      }
    }
  }

  lemma SwappedEncoderTurn(c: Codec, s: seq<nat>, room: nat, max: nat)
    requires Target(c).Utf16Bytes? && s != []
    ensures var st, sw := StepOf(c, s, room, max), StepOf(Swapped(c), s, room, max);
      if st.Take? then |st.out| % 2 == 0 && sw == Take(st.n, SwapBytes(st.out)) else sw == st
  {
    var st := StepOf(c, s, room, max);
    if st.Take? {
      SwapTwo(st.out);
      if |st.out| == 4 {
        SwapTwo(st.out[2..]);
      }
    }
  }

  /** The decoders from one byte order read the exchanged bytes as those from the other read the bytes. */
  lemma SwappedDecoders(c: Codec, s: seq<nat>, room: nat, max: nat)
    requires Source(c).Utf16Bytes?
    ensures Drive(Swapped(c), SwapBytes(s), room, max) == Drive(c, s, room, max)
    decreases |s|
  {
    hide StepOf, Drive, SwapBytes, Swapped, Source;
    var d, w := Swapped(c), SwapBytes(s);
    SwapShort([]);
    if s == [] {
      DriveStops(c, s, room, max);
      DriveStops(d, w, room, max);
    } else {
      SwappedDecoderTurn(c, s, room, max);
      var st := StepOf(c, s, room, max);
      if st.Take? {
        OneMore(c, s, room, max);
        OneMore(d, w, room, max);
        SwapAppend(s[..st.n], s[st.n..]);
        assert s[..st.n] + s[st.n..] == s;
        assert w == SwapBytes(s[..st.n]) + SwapBytes(s[st.n..]);
        SwappedDecoders(c, s[st.n..], room - |st.out|, max);
      } else {
        DriveStops(c, s, room, max);
        DriveStops(d, w, room, max);
      }
    }
  }

  lemma SwappedDecoderTurn(c: Codec, s: seq<nat>, room: nat, max: nat)
    requires Source(c).Utf16Bytes? && s != []
    ensures StepOf(Swapped(c), SwapBytes(s), room, max) == StepOf(c, s, room, max)
    ensures var st := StepOf(c, s, room, max); st.Take? ==> st.n % 2 == 0
  {
    hide UnitAt, SwapBytes;
    SwappedUnits(s, Source(c).big);
  }

  lemma SwappedUnits(s: seq<nat>, big: bool)
    ensures var w := SwapBytes(s);
      && (|s| >= 2 ==> UnitAt(w, 0, !big) == UnitAt(s, 0, big))
      && (|s| >= 4 ==> UnitAt(w, 2, !big) == UnitAt(s, 2, big))
  {
  }

  // ---- 32-bit units that hold UTF-16 ----

  function Cut(s: seq<nat>): (r: seq<nat>)
    ensures |r| == |s| && forall i :: 0 <= i < |s| ==> r[i] == s[i] % 0x10000
  {
    if s == [] then [] else [s[0] % 0x10000] + Cut(s[1..])
  }

  /** The overload for 32-bit units converts the lower halves of its units. */
  lemma WideIsCut(s: seq<nat>, room: nat, max: nat)
    ensures Drive(WideUtf16ToUtf8, s, room, max) == Drive(Utf16ToUtf8, Cut(s), room, max)
    decreases |s|
  {
    hide StepOf, Drive;
    if s == [] {
      DriveStops(WideUtf16ToUtf8, s, room, max);
      DriveStops(Utf16ToUtf8, Cut(s), room, max);
    } else {
      WideTurn(s, room, max);
      var st := StepOf(WideUtf16ToUtf8, s, room, max);
      if st.Take? {
        OneMore(WideUtf16ToUtf8, s, room, max);
        OneMore(Utf16ToUtf8, Cut(s), room, max);
        assert Cut(s)[st.n..] == Cut(s[st.n..]);
        WideIsCut(s[st.n..], room - |st.out|, max);
      } else {
        DriveStops(WideUtf16ToUtf8, s, room, max);
        DriveStops(Utf16ToUtf8, Cut(s), room, max);
      }
    }
  }

  lemma WideTurn(s: seq<nat>, room: nat, max: nat)
    requires s != []
    ensures StepOf(WideUtf16ToUtf8, s, room, max) == StepOf(Utf16ToUtf8, Cut(s), room, max)
  {
  }

  /** Units that do not fit 16 bits are never refused, so exactly the units that do fit come back. */
  lemma WideComesBackExactly(bound: nat, max: nat)
    requires FullMax(Utf8ToUtf16, max)
    ensures (forall s: seq<nat> | Below(s, bound) :: ComesBack(WideUtf16ToUtf8, Utf8ToUtf16, s, max)) <==> bound <= 0x10000
  {
    hide ComesBack;
    if bound <= 0x10000 {
      forall s: seq<nat> | Below(s, bound)
        ensures ComesBack(WideUtf16ToUtf8, Utf8ToUtf16, s, max)
      {
        WideFits(s, max);
      }
    } else {
      WideCuts(max);
      assert Below([0x10000], bound);
    }
  }

  lemma WideFits(s: seq<nat>, max: nat)
    requires Below(s, 0x10000) && FullMax(Utf8ToUtf16, max)
    ensures ComesBack(WideUtf16ToUtf8, Utf8ToUtf16, s, max)
  {
    hide Drive;
    RoundTrip(WideUtf16ToUtf8, Utf8ToUtf16, s, 4 * |s|, |s|, max);
  }

  /** The smallest unit that does not fit is written as a zero byte. */
  lemma WideCuts(max: nat)
    ensures Drive(WideUtf16ToUtf8, [0x10000], 4, max) == Outcome(Ok, 1, [0])
    ensures !ComesBack(WideUtf16ToUtf8, Utf8ToUtf16, [0x10000], max)
  {
    hide Drive;
    var s: seq<nat> := [0x10000];
    assert StepOf(Utf8ToUtf16, [0], 1, max) == Take(1, [0]);
    Alone(WideUtf16ToUtf8, s, [0], 4, max);
    Alone(Utf8ToUtf16, [0], [0], 1, max);
    assert s[..1][0] != 0;
  }
}
