/**
 * What whole conversions do: they carry code points from one encoding to another and take exactly the text that
 * the source encoding allows, so that converters in opposite directions undo each other.
 */
module TranscoderLaws {

  import opened Unicode
  import opened Transcoders
  import opened TranscoderSteps

  /** Whatever a conversion reads is text, and it writes that text in the other encoding. */
  lemma Sound(c: Codec, s: seq<nat>, room: nat, max: nat) returns (vs: seq<CodePoint>)
    requires Units(c, s) && SoundMax(c, max)
    ensures var o := Drive(c, s, room, max);
      && AllWithin(vs, Limit(c, max))
      && s[..o.read] == EncodeAll(Source(c), vs) && o.out == EncodeAll(Target(c), vs)
    decreases |s|
  {
    hide StepOf, Encode, Source, Target, Limit, SoundMax, Drive;
    vs := [];
    if s == [] || !StepOf(c, s, room, max).Take? {
      DriveStops(c, s, room, max);
    } else {
      var st := StepOf(c, s, room, max);
      OneMore(c, s, room, max);
      var v := StepSound(c, s, room, max);
      var rest := Sound(c, s[st.n..], room - |st.out|, max);
      vs := [v] + rest;
      var r := Drive(c, s[st.n..], room - |st.out|, max).read;
      assert s[..st.n + r] == s[..st.n] + s[st.n..][..r];
      assert vs[1..] == rest;
    }
  }

  /** Text within the limit is converted, and the conversion goes on with what follows it. */
  lemma Complete(c: Codec, vs: seq<CodePoint>, rest: seq<nat>, room: nat, max: nat)
    requires AllWithin(vs, Limit(c, max)) && FullMax(c, max) && |EncodeAll(Target(c), vs)| <= room
    ensures var read, out := EncodeAll(Source(c), vs), EncodeAll(Target(c), vs);
      Drive(c, read + rest, room, max) == Resume(|read|, out, Drive(c, rest, room - |out|, max))
    decreases |vs|
  {
    hide StepOf, Encode, Source, Target, Limit, FullMax, Drive;
    var read, out := EncodeAll(Source(c), vs), EncodeAll(Target(c), vs);
    if vs == [] {
      assert read + rest == rest;
    } else {
      var n, o := Encode(Source(c), vs[0]), Encode(Target(c), vs[0]);
      var read', out' := EncodeAll(Source(c), vs[1..]), EncodeAll(Target(c), vs[1..]);
      var s := read + rest;
      assert n <= s && s[|n|..] == read' + rest;
      StepComplete(c, s, vs[0], room, max);
      OneMore(c, s, room, max);
      Complete(c, vs[1..], rest, room - |o|, max);
      ResumeTwice(|n|, o, |read'|, out', Drive(c, rest, room - |out|, max));
    }
  }

  lemma Converts(c: Codec, vs: seq<CodePoint>, room: nat, max: nat)
    requires AllWithin(vs, Limit(c, max)) && FullMax(c, max) && |EncodeAll(Target(c), vs)| <= room
    ensures var read, out := EncodeAll(Source(c), vs), EncodeAll(Target(c), vs);
      Drive(c, read, room, max) == Outcome(Ok, |read|, out)
  {
    hide StepOf, Encode;
    var read, out := EncodeAll(Source(c), vs), EncodeAll(Target(c), vs);
    assert read + [] == read;
    Complete(c, vs, [], room, max);
    assert out + [] == out;
  }

  // ---- what is accepted ----

  /** The text in s, or nothing if s is not text within the limit. */
  ghost predicate IsText(e: Encoding, s: seq<nat>, limit: nat) {
    exists vs: seq<CodePoint> :: AllWithin(vs, limit) && s == EncodeAll(e, vs)
  }

  lemma Sizes(e: Encoding, e': Encoding, vs: seq<CodePoint>)
    ensures |EncodeAll(e', vs)| <= 4 * |EncodeAll(e, vs)|
  {
  }

  /** With room enough a conversion succeeds exactly on text: no overlong form, surrogate or larger code point. */
  lemma AcceptsExactlyText(c: Codec, s: seq<nat>, room: nat, max: nat)
    requires Units(c, s) && SoundMax(c, max) && FullMax(c, max) && 4 * |s| <= room
    ensures Drive(c, s, room, max).result == Ok <==> IsText(Source(c), s, Limit(c, max))
  {
    hide StepOf, Encode;
    var o := Drive(c, s, room, max);
    if o.result == Ok {
      var vs := Sound(c, s, room, max);
      assert s[..o.read] == s;
    }
    if IsText(Source(c), s, Limit(c, max)) {
      var vs: seq<CodePoint> :| AllWithin(vs, Limit(c, max)) && s == EncodeAll(Source(c), vs);
      Sizes(Source(c), Target(c), vs);
      Converts(c, vs, room, max);
    }
  }

  /** Otherwise it stops behind the longest part of the source that is text. */
  lemma ReadsLongestText(c: Codec, s: seq<nat>, room: nat, max: nat, k: nat)
    requires Units(c, s) && SoundMax(c, max) && FullMax(c, max) && 4 * |s| <= room
    requires k <= |s| && IsText(Source(c), s[..k], Limit(c, max))
    ensures var read := Drive(c, s, room, max).read; k <= read && IsText(Source(c), s[..read], Limit(c, max))
  {
    hide StepOf, Encode, Source, Target, Limit, SoundMax, FullMax;
    var found := Sound(c, s, room, max);
    var vs: seq<CodePoint> :| AllWithin(vs, Limit(c, max)) && s[..k] == EncodeAll(Source(c), vs);
    Sizes(Source(c), Target(c), vs);
    Complete(c, vs, s[k..], room, max);
    assert s == s[..k] + s[k..];
  }

  // ---- round trips ----

  /** d goes back where c came from. */
  predicate Undoes(d: Codec, c: Codec, max: nat) {
    Source(d) == Target(c) && Target(d) == Source(c) && Limit(c, max) <= Limit(d, max) && FullMax(d, max)
  }

  /** Converting back what a conversion wrote gives what it read, whether it went to the end or not. */
  lemma RoundTrip(c: Codec, d: Codec, s: seq<nat>, room: nat, back: nat, max: nat)
    requires Undoes(d, c, max) && Units(c, s) && SoundMax(c, max)
    requires Drive(c, s, room, max).read <= back
    ensures var o := Drive(c, s, room, max);
      Drive(d, o.out, back, max) == Outcome(Ok, |o.out|, s[..o.read])
  {
    hide StepOf, Encode, Drive;
    var vs := Sound(c, s, room, max);
    Converts(d, vs, back, max);
  }

  /** The converters that undo each other. */
  lemma Inverses(max: nat, big: bool)
    requires FullMax(Utf8ToUtf16, max)
    ensures Undoes(Utf8ToUcs4, Ucs4ToUtf8, max) && Undoes(Ucs4ToUtf8, Utf8ToUcs4, max)
    ensures Undoes(Utf8ToUtf16, Utf16ToUtf8, max) && Undoes(Utf16ToUtf8, Utf8ToUtf16, max)
    ensures Undoes(Utf16ToUcs4(big), Ucs4ToUtf16(big), max) && Undoes(Ucs4ToUtf16(big), Utf16ToUcs4(big), max)
    ensures Undoes(Utf8ToUcs2, Ucs2ToUtf8, max) && Undoes(Ucs2ToUtf8, Utf8ToUcs2, max)
    ensures Undoes(Utf16ToUcs2(big), Ucs2ToUtf16(big), max) && Undoes(Ucs2ToUtf16(big), Utf16ToUcs2(big), max)
  {
  }
}
