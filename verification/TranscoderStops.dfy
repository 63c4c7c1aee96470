/**
 * Why a conversion stops, in a buffer of any size: the source ends within a form, or the code point that it goes on
 * with does not fit. Anything else that stops it is an error.
 */
module TranscoderStops {

  import opened Unicode
  import opened Transcoders
  import opened UnicodeForms
  import opened TranscoderSteps

  /**
   * Whether v passes the tests that are made before the one for room. The pairs of surrogates, on either side, are
   * compared with max only after it.
   */
  predicate PassesFirst(c: Codec, s: seq<nat>, v: CodePoint, max: nat)
    requires s != []
  {
    if v >= 0x10000 && (c.Utf16ToUtf8? || c.WideUtf16ToUtf8? || c.Utf8ToUtf16?) then s[0] <= max else v <= Limit(c, max)
  }

  /** s goes on with v, for which there is too little room. */
  predicate Cramped(c: Codec, s: seq<nat>, v: CodePoint, room: nat, max: nat)
    requires s != []
  {
    Encode(Source(c), v) <= s && PassesFirst(c, s, v, max) && room < |Encode(Target(c), v)|
  }

  /** A decoder has no room at all, or a converter too little for the code point that s begins with. */
  ghost predicate NoRoom(c: Codec, s: seq<nat>, room: nat, max: nat)
    requires s != []
  {
    (c.Decodes() && room == 0) || exists v: CodePoint :: Cramped(c, s, v, room, max)
  }

  lemma ShortExactly(c: Codec, s: seq<nat>, room: nat, max: nat)
    requires s != [] && Units(c, s) && SoundMax(c, max)
    ensures StepOf(c, s, room, max) == Short <==> Unfinished(c, s, max) || NoRoom(c, s, room, max)
  {
    match c
    case Utf16ToUtf8 => ShortUtf16ToUtf8(s, room, max);
    case WideUtf16ToUtf8 => ShortWide(s, room, max);
    case Utf8ToUtf16 => ShortUtf8ToUtf16(s, room, max);
    case Utf8ToUcs4 => ShortToPlain(c, s, room, max);
    case Utf8ToUcs2 => ShortToPlain(c, s, room, max);
    case Utf16ToUcs4(_) => ShortToPlain(c, s, room, max);
    case Utf16ToUcs2(_) => ShortToPlain(c, s, room, max);
    case _ => ShortFromPlain(c, s, room, max);
  }

  lemma ShortToPlain(c: Codec, s: seq<nat>, room: nat, max: nat)
    requires s != [] && c.Decodes() && Target(c) == Plain
    ensures StepOf(c, s, room, max) == Short <==> Unfinished(c, s, max) || NoRoom(c, s, room, max)
  {
    forall v: CodePoint | Cramped(c, s, v, room, max)
      ensures room == 0
    {
      assert |Encode(Target(c), v)| == 1;
    }
  }

  lemma ShortFromPlain(c: Codec, s: seq<nat>, room: nat, max: nat)
    requires s != [] && Source(c) == Plain && Units(c, s) && SoundMax(c, max)
    ensures StepOf(c, s, room, max) == Short <==> Unfinished(c, s, max) || NoRoom(c, s, room, max)
  {
    hide Utf8Of, Utf16Of, Two, Three, Four, PlaneHigh;
    forall v: CodePoint | Cramped(c, s, v, room, max)
      ensures s[0] == v <= Limit(c, max) && StepOf(c, s, room, max) == Short
    {
      assert [v] <= s && !IsSurrogate(v);
      CompletePlain(c, s, v, room, max);
    }
    if !InSurrogates(s[0]) && s[0] <= max {
      var v: CodePoint := s[0];
      assert [v] <= s;
      CompletePlain(c, s, v, room, max);
      assert Cramped(c, s, v, room, max) <==> room < |Encode(Target(c), v)|;
    }
  }

  /** A code point in UTF-16 at the beginning of s is told by the first unit or the first two. */
  lemma ReadsUtf16(s: seq<nat>, v: CodePoint)
    requires Utf16Of(v) <= s
    ensures if v < 0x10000 then s[0] == v else |s| >= 2 && IsPair(s[0], s[1]) && v == PairCode(s[0], s[1])
  {
    hide PairCode;
    if v >= 0x10000 {
      EncodedPair(v);
      var u := Utf16Of(v);
      assert s[0] == u[0] && s[1] == u[1];
    }
  }

  lemma ShortUtf16ToUtf8(s: seq<nat>, room: nat, max: nat)
    requires s != [] && Below(s, 0x10000)
    ensures Utf16ToUtf8Step(s, room, max) == Short <==>
            Unfinished(Utf16ToUtf8, s, max) || NoRoom(Utf16ToUtf8, s, room, max)
  {
    hide Utf8Of, Utf16Of, Two, Three, FourOfPair, PairCode;
    var c := Utf16ToUtf8;
    forall v: CodePoint | Cramped(c, s, v, room, max)
      ensures Utf16ToUtf8Step(s, room, max) == Short
    {
      assert Utf16Of(v) <= s && room < |Utf8Of(v)|;
      ReadsUtf16(s, v);
      Forms8(v);
      assert !IsSurrogate(v);
    }
    if IsHigh(s[0]) {
      if |s| >= 2 && IsLow(s[1]) {
        var v := PairBytes(s[0], s[1]);
        assert Utf16Of(v) <= s;
        assert Cramped(c, s, v, room, max) <==> s[0] <= max && room < 4;
      }
    } else if !IsLow(s[0]) {
      var v: CodePoint := s[0];
      Forms8(v);
      Forms16(v);
      assert Utf16Of(v) <= s;
      assert Cramped(c, s, v, room, max) <==> v <= max && room < |Utf8Of(v)|;
    }
  }

  lemma ShortWide(s: seq<nat>, room: nat, max: nat)
    requires s != [] && Below(s, 0x10000)
    ensures WideUtf16ToUtf8Step(s, room, max) == Short <==>
            Unfinished(WideUtf16ToUtf8, s, max) || NoRoom(WideUtf16ToUtf8, s, room, max)
  {
    hide Utf16ToUtf8Step, WideUtf16ToUtf8Step, Encode;
    WideOnUnits(s, room, max);
    ShortUtf16ToUtf8(s, room, max);
    assert s[0] % 0x10000 == s[0];
    assert forall v: CodePoint :: Cramped(WideUtf16ToUtf8, s, v, room, max) <==> Cramped(Utf16ToUtf8, s, v, room, max);
  }

  /** The four bytes of a code point that needs a pair of units. */
  predicate FourBytes(s: seq<nat>) {
    |s| >= 4 && 0xF0 <= s[0] < 0xF5 && Second4(s[0], s[1]) && IsTail(s[2]) && IsTail(s[3])
  }

  lemma ReadsFour(s: seq<nat>, v: CodePoint)
    requires Utf8Of(v) <= s && v >= 0x10000
    ensures FourBytes(s)
  {
    hide Utf8Of;
    var u := Utf8Of(v);
    Encoded8(v);
    LeadByte(v);
    assert s[0] == u[0] && s[1] == u[1] && s[2] == u[2] && s[3] == u[3];
  }

  lemma ShortUtf8ToUtf16(s: seq<nat>, room: nat, max: nat)
    requires s != [] && Below(s, 0x100)
    ensures Utf8ToUtf16Step(s, room, max) == Short <==>
            Unfinished(Utf8ToUtf16, s, max) || NoRoom(Utf8ToUtf16, s, room, max)
  {
    hide Utf8Of, Utf16Of, PairOfFour, Code2, Code3, Code4;
    var c := Utf8ToUtf16;
    forall v: CodePoint | Cramped(c, s, v, room, max)
      ensures room == 0 || (room == 1 && FourBytes(s) && s[0] <= max)
    {
      Forms16(v);
      if v >= 0x10000 {
        ReadsFour(s, v);
      }
    }
    if room == 1 && FourBytes(s) && s[0] <= max {
      var v := Decoded4(s[..4]);
      Forms16(v);
      assert Cramped(c, s, v, room, max);
    }
  }

  /** What is left when a conversion asks for more. */
  ghost predicate AsksForMore(c: Codec, s: seq<nat>, room: nat, max: nat) {
    s != [] && (Unfinished(c, s, max) || NoRoom(c, s, room, max))
  }

  /** In a buffer of any size the result is partial exactly for these two reasons. */
  lemma PartialExactly(c: Codec, s: seq<nat>, room: nat, max: nat)
    requires Units(c, s) && SoundMax(c, max)
    ensures var o := Drive(c, s, room, max);
      o.result == Partial <==> AsksForMore(c, s[o.read..], room - |o.out|, max)
    decreases |s|
  {
    hide StepOf, Drive, NoRoom, Unfinished, Units, SoundMax;
    if s == [] {
      DriveStops(c, s, room, max);
    } else {
      ShortExactly(c, s, room, max);
      var st := StepOf(c, s, room, max);
      if st.Take? {
        OneMore(c, s, room, max);
        UnitsRest(c, s, st.n);
        PartialExactly(c, s[st.n..], room - |st.out|, max);
        var r := Drive(c, s[st.n..], room - |st.out|, max).read;
        assert s[st.n..][r..] == s[st.n + r..];
      } else {
        DriveStops(c, s, room, max);
      }
    }
  }

  lemma UnitsRest(c: Codec, s: seq<nat>, n: nat)
    requires Units(c, s) && n <= |s|
    ensures Units(c, s[n..])
  {
  }
}
