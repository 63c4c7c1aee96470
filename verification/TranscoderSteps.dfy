/**
 * One turn of a converter: it carries one code point from its source encoding to its target encoding, and every
 * code point within its limit.
 */
module TranscoderSteps {

  import opened Unicode
  import opened Transcoders
  import opened UnicodeForms

  function Source(c: Codec): Encoding {
    match c
    case Utf16ToUtf8 | WideUtf16ToUtf8 => Utf16
    case Ucs4ToUtf8 | Ucs2ToUtf8 | Ucs4ToUtf16(_) | Ucs2ToUtf16(_) => Plain
    case Utf8ToUtf16 | Utf8ToUcs4 | Utf8ToUcs2 => Utf8
    case Utf16ToUcs4(big) => Utf16Bytes(big)
    case Utf16ToUcs2(big) => Utf16Bytes(big)
  }

  function Target(c: Codec): Encoding {
    match c
    case Utf16ToUtf8 | WideUtf16ToUtf8 | Ucs4ToUtf8 | Ucs2ToUtf8 => Utf8
    case Utf8ToUtf16 => Utf16
    case Utf8ToUcs4 | Utf8ToUcs2 | Utf16ToUcs4(_) | Utf16ToUcs2(_) => Plain
    case Ucs4ToUtf16(big) => Utf16Bytes(big)
    case Ucs2ToUtf16(big) => Utf16Bytes(big)
  }

  predicate ForUcs2(c: Codec) {
    c.Ucs2ToUtf8? || c.Utf8ToUcs2? || c.Ucs2ToUtf16? || c.Utf16ToUcs2?
  }

  /** The largest code point a converter carries. */
  function Limit(c: Codec, max: nat): nat {
    if ForUcs2(c) && max > 0xFFFF then 0xFFFF else max
  }

  /** The values a source unit can have; for the overload on 32-bit units, those that it does not cut. */
  predicate Units(c: Codec, s: seq<nat>) {
    Below(s, if Source(c) == Utf16 || (ForUcs2(c) && Source(c) == Plain) then 0x10000
             else if Source(c) == Plain then 0x1_0000_0000 else 0x100)
  }

  /** The UCS-4 encoders trust max to be a code point. */
  predicate SoundMax(c: Codec, max: nat) {
    c.Ucs4ToUtf8? || c.Ucs4ToUtf16? ==> max <= 0x10FFFF
  }

  /** utf8_to_utf16 compares the lead byte with max too. */
  predicate FullMax(c: Codec, max: nat) {
    c.Utf8ToUtf16? ==> max < 0x80 || max >= 0xC3
  }

  // ---- one turn ----

  /** A turn of a converter carries one code point from the one encoding to the other. */
  lemma StepSound(c: Codec, s: seq<nat>, room: nat, max: nat) returns (v: CodePoint)
    requires s != [] && Units(c, s) && SoundMax(c, max) && StepOf(c, s, room, max).Take?
    ensures var st := StepOf(c, s, room, max);
      && st.n <= |s| && s[..st.n] == Encode(Source(c), v) && st.out == Encode(Target(c), v) && v <= Limit(c, max)
  {
    hide Utf8Of, Utf16Of, UnitBytes, UnitAt;
    hide Utf16ToUtf8Step, WideUtf16ToUtf8Step, Utf8ToUtf16Step, Utf8ToUcs4Step, Utf8ToUcs2Step, Utf16ToUcs4Step, Utf16ToUcs2Step;
    match c
    case Utf16ToUtf8 => v := SoundUtf16ToUtf8(s, room, max);
    case WideUtf16ToUtf8 => v := SoundUtf16ToUtf8(s, room, max);
    case Utf8ToUtf16 => v := SoundUtf8ToUtf16(s, room, max);
    case Utf8ToUcs4 => v := SoundUtf8ToUcs4(s, room, max);
    case Utf8ToUcs2 => v := SoundUtf8ToUcs2(s, room, max);
    case Utf16ToUcs4(big) => v := SoundUtf16ToUcs4(s, room, max, big);
    case Utf16ToUcs2(big) => v := SoundUtf16ToUcs2(s, room, max, big);
    case _ => v := SoundPlain(c, s, room, max);
  }

  lemma SoundPlain(c: Codec, s: seq<nat>, room: nat, max: nat) returns (v: CodePoint)
    requires s != [] && Source(c) == Plain && Units(c, s) && SoundMax(c, max) && StepOf(c, s, room, max).Take?
    ensures var st := StepOf(c, s, room, max);
      st.n == 1 && s[..1] == [v] && st.out == Encode(Target(c), v) && v <= Limit(c, max)
  {
    hide Utf8Of, Utf16Of, Two, Three, Four, PlaneHigh;
    v := s[0];
    Forms8(v);
    Forms16(v);
  }

  lemma SoundUtf16ToUtf8(s: seq<nat>, room: nat, max: nat) returns (v: CodePoint)
    requires s != [] && Below(s, 0x10000)
    requires Utf16ToUtf8Step(s, room, max).Take? || WideUtf16ToUtf8Step(s, room, max).Take?
    ensures WideUtf16ToUtf8Step(s, room, max) == Utf16ToUtf8Step(s, room, max)
    ensures var st := Utf16ToUtf8Step(s, room, max);
      && st.n <= |s| && s[..st.n] == Utf16Of(v) && st.out == Utf8Of(v) && v <= max
  {
    hide Utf8Of, Utf16Of, Two, Three, FourOfPair, PairCode;
    WideOnUnits(s, room, max);
    if Utf16ToUtf8Step(s, room, max).n == 1 {
      v := s[0];
      Forms8(v);
      Forms16(v);
    } else {
      v := PairBytes(s[0], s[1]);
    }
  }

  lemma WideOnUnits(s: seq<nat>, room: nat, max: nat)
    requires s != [] && Below(s, 0x10000)
    ensures WideUtf16ToUtf8Step(s, room, max) == Utf16ToUtf8Step(s, room, max)
  {
    hide Two, Three, FourOfPair, PairCode;
    assert s[0] % 0x10000 == s[0] && (|s| >= 2 ==> s[1] % 0x10000 == s[1]);
  }

  lemma SoundUtf8ToUtf16(s: seq<nat>, room: nat, max: nat) returns (v: CodePoint)
    requires s != [] && Below(s, 0x100) && Utf8ToUtf16Step(s, room, max).Take?
    ensures var st := Utf8ToUtf16Step(s, room, max);
      && st.n <= |s| && s[..st.n] == Utf8Of(v) && st.out == Utf16Of(v) && v <= max
  {
    hide Utf8Of, Utf16Of, PairOfFour, Code2, Code3, Code4;
    var n := Utf8ToUtf16Step(s, room, max).n;
    v := Decoded8(s[..n]);
    Forms8(v);
    Forms16(v);
    if n == 4 {
      BytesPair(s[..n], v);
    }
  }

  lemma SoundUtf8ToUcs4(s: seq<nat>, room: nat, max: nat) returns (v: CodePoint)
    requires s != [] && Below(s, 0x100) && Utf8ToUcs4Step(s, room, max).Take?
    ensures var st := Utf8ToUcs4Step(s, room, max);
      && st.n <= |s| && s[..st.n] == Utf8Of(v) && st.out == [v] && v <= max
  {
    hide Utf8Of, Code2, Code3, Code4;
    v := Decoded8(s[..Utf8ToUcs4Step(s, room, max).n]);
  }

  lemma SoundUtf8ToUcs2(s: seq<nat>, room: nat, max: nat) returns (v: CodePoint)
    requires s != [] && Below(s, 0x100) && Utf8ToUcs2Step(s, room, max).Take?
    ensures var st := Utf8ToUcs2Step(s, room, max);
      && st.n <= |s| && s[..st.n] == Utf8Of(v) && st.out == [v] && v <= max && v <= 0xFFFF
  {
    hide Utf8Of, Code2, Code3, Code4;
    v := Decoded8(s[..Utf8ToUcs2Step(s, room, max).n]);
    LeadByte(v);
  }

  lemma SoundUtf16ToUcs4(s: seq<nat>, room: nat, max: nat, big: bool) returns (v: CodePoint)
    requires s != [] && Below(s, 0x100) && Utf16ToUcs4Step(s, room, max, big).Take?
    ensures var st := Utf16ToUcs4Step(s, room, max, big);
      && st.n <= |s| && s[..st.n] == Encode(Utf16Bytes(big), v) && st.out == [v] && v <= max
  {
    hide Utf16Of, UnitAt, UnitBytes, PairCode;
    UnitRead(s, 0, big);
    if Utf16ToUcs4Step(s, room, max, big).n == 2 {
      v := UnitAt(s, 0, big);
      Forms16(v);
    } else {
      UnitRead(s, 2, big);
      v := DecodedPair(UnitAt(s, 0, big), UnitAt(s, 2, big));
      assert s[..4] == s[0..2] + s[2..4];
    }
  }

  lemma SoundUtf16ToUcs2(s: seq<nat>, room: nat, max: nat, big: bool) returns (v: CodePoint)
    requires s != [] && Below(s, 0x100) && Utf16ToUcs2Step(s, room, max, big).Take?
    ensures var st := Utf16ToUcs2Step(s, room, max, big);
      && st.n <= |s| && s[..st.n] == Encode(Utf16Bytes(big), v) && st.out == [v] && v <= max && v <= 0xFFFF
  {
    hide Utf16Of, UnitAt, UnitBytes;
    UnitRead(s, 0, big);
    v := UnitAt(s, 0, big);
    Forms16(v);
  }

  /** A code point within the limit is always carried, once there is room for it. */
  lemma StepComplete(c: Codec, s: seq<nat>, v: CodePoint, room: nat, max: nat)
    requires Encode(Source(c), v) <= s && v <= Limit(c, max) && FullMax(c, max)
    ensures var out := Encode(Target(c), v);
      StepOf(c, s, room, max) == if room < |out| then Short else Take(|Encode(Source(c), v)|, out)
  {
    match c
    case Utf16ToUtf8 => CompleteUtf16ToUtf8(s, v, room, max);
    case WideUtf16ToUtf8 => CompleteWide(s, v, room, max);
    case Utf8ToUtf16 => CompleteUtf8(s, v, room, max);
    case Utf8ToUcs4 => CompleteUtf8(s, v, room, max);
    case Utf8ToUcs2 => CompleteUtf8(s, v, room, max);
    case Utf16ToUcs4(big) => CompleteUtf16Bytes(s, v, room, max, big);
    case Utf16ToUcs2(big) => CompleteUtf16Bytes(s, v, room, max, big);
    case _ => CompletePlain(c, s, v, room, max);
  }

  lemma CompletePlain(c: Codec, s: seq<nat>, v: CodePoint, room: nat, max: nat)
    requires Source(c) == Plain && [v] <= s && v <= Limit(c, max)
    ensures var out := Encode(Target(c), v);
      StepOf(c, s, room, max) == if room < |out| then Short else Take(1, out)
  {
    hide Utf8Of, Utf16Of, Two, Three, Four, PlaneHigh;
    assert s[0] == v && !IsSurrogate(v);
    Forms8(v);
    Forms16(v);
  }

  lemma CompleteUtf16ToUtf8(s: seq<nat>, v: CodePoint, room: nat, max: nat)
    requires Utf16Of(v) <= s && v <= max
    ensures Utf16ToUtf8Step(s, room, max) == if room < |Utf8Of(v)| then Short else Take(|Utf16Of(v)|, Utf8Of(v))
  {
    hide Utf8Of, Utf16Of, Two, Three, FourOfPair, PairCode;
    Forms8(v);
    Forms16(v);
    if 0x10000 <= v {
      var u := Utf16Of(v);
      assert s[0] == u[0] && s[1] == u[1];
      EncodedPair(v);
      var w := PairBytes(s[0], s[1]);
    } else {
      assert s[0] == v && !IsSurrogate(v);
    }
  }

  /** Of the units, the overload on 32-bit units looks only at those of the code point. */
  lemma CompleteWide(s: seq<nat>, v: CodePoint, room: nat, max: nat)
    requires Utf16Of(v) <= s && v <= max
    ensures WideUtf16ToUtf8Step(s, room, max) == if room < |Utf8Of(v)| then Short else Take(|Utf16Of(v)|, Utf8Of(v))
  {
    hide Utf8Of, Utf16ToUtf8Step;
    var cut := if |s| < 2 then [s[0] % 0x10000] else [s[0] % 0x10000, s[1] % 0x10000];
    assert Utf16Of(v) <= cut;
    CompleteUtf16ToUtf8(cut, v, room, max);
  }

  lemma CompleteUtf8(s: seq<nat>, v: CodePoint, room: nat, max: nat)
    requires Utf8Of(v) <= s && v <= max
    ensures Utf8ToUcs4Step(s, room, max) == if room == 0 then Short else Take(|Utf8Of(v)|, [v])
    ensures v <= 0xFFFF ==> Utf8ToUcs2Step(s, room, max) == if room == 0 then Short else Take(|Utf8Of(v)|, [v])
    ensures max < 0x80 || max >= 0xC3 ==>
      Utf8ToUtf16Step(s, room, max) == if room < |Utf16Of(v)| then Short else Take(|Utf8Of(v)|, Utf16Of(v))
  {
    hide Utf8Of, Utf16Of, PairOfFour, Code2, Code3, Code4;
    Encoded8(v);
    Forms16(v);
    LeadByte(v);
    if |Utf8Of(v)| == 4 {
      BytesPair(Utf8Of(v), v);
    }
  }

  lemma LeadByte(v: CodePoint)
    ensures |Utf8Of(v)| == if v < 0x80 then 1 else if v < 0x800 then 2 else if v < 0x10000 then 3 else 4
    ensures Utf8Of(v)[0] <= 0xF4 && (v < 0x100 ==> Utf8Of(v)[0] <= 0xC3 && (v < 0x80 ==> Utf8Of(v)[0] == v))
  {
  }

  lemma CompleteUtf16Bytes(s: seq<nat>, v: CodePoint, room: nat, max: nat, big: bool)
    requires Encode(Utf16Bytes(big), v) <= s && v <= max
    ensures Utf16ToUcs4Step(s, room, max, big) == if room == 0 then Short else Take(|Encode(Utf16Bytes(big), v)|, [v])
    ensures v <= 0xFFFF ==>
      Utf16ToUcs2Step(s, room, max, big) == if room == 0 then Short else Take(|Encode(Utf16Bytes(big), v)|, [v])
  {
    hide Utf16Of, UnitAt, UnitBytes, PairCode;
    Forms16(v);
    UnitsBelow(v);
    var e, u := Encode(Utf16Bytes(big), v), Utf16Of(v);
    assert s[0..2] == e[0..2];
    UnitWritten(s, 0, u[0], big);
    if v < 0x10000 {
      assert !IsSurrogate(v);
    } else {
      assert s[2..4] == e[2..4];
      EncodedPair(v);
      UnitWritten(s, 2, u[1], big);
    }
  }

  lemma UnitsBelow(v: CodePoint)
    ensures Below(Utf16Of(v), 0x10000) && forall u: nat, big: bool :: |UnitBytes(u, big)| == 2
  {
  }
}
