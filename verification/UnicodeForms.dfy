/**
 * The forms of a single code point: what the tests and the bit arithmetic in the converters come to.
 */
module UnicodeForms {

  import opened Unicode
  import opened Transcoders

  // ---- digits ----

  /** Six-bit digits put together and taken apart. */
  lemma Digits2(a: nat, b: nat)
    requires b < 0x40
    ensures (a * 0x40 + b) / 0x40 == a && (a * 0x40 + b) % 0x40 == b
  {
  }

  lemma Digits3(a: nat, b: nat, c: nat)
    requires b < 0x40 && c < 0x40
    ensures var v := a * 0x1000 + b * 0x40 + c; v / 0x1000 == a && v / 0x40 % 0x40 == b && v % 0x40 == c
  {
    Digits2(a * 0x40 + b, c);
    Digits2(a, b);
  }

  lemma Digits4(a: nat, b: nat, c: nat, d: nat)
    requires b < 0x40 && c < 0x40 && d < 0x40
    ensures var v := a * 0x40000 + b * 0x1000 + c * 0x40 + d;
      v / 0x40000 == a && v / 0x1000 % 0x40 == b && v / 0x40 % 0x40 == c && v % 0x40 == d
  {
    Digits3(a * 0x40 + b, c, d);
    Digits2(a, b);
  }

  /** The bytes that a UTF-8 decoder reads as one code point. */
  predicate Wellformed8(s: seq<nat>) {
    && Below(s, 0x100)
    && match |s|
       case 1 => s[0] < 0x80
       case 2 => 0xC2 <= s[0] < 0xE0 && IsTail(s[1])
       case 3 => 0xE0 <= s[0] < 0xF0 && Second3(s[0], s[1]) && IsTail(s[2])
       case 4 => 0xF0 <= s[0] < 0xF5 && Second4(s[0], s[1]) && IsTail(s[2]) && IsTail(s[3])
       case _ => false
  }

  function CodeOf8(s: seq<nat>): nat
    requires 1 <= |s| <= 4
  {
    match |s|
    case 1 => s[0]
    case 2 => Code2(s[0], s[1])
    case 3 => Code3(s[0], s[1], s[2])
    case _ => Code4(s[0], s[1], s[2], s[3])
  }

  /** What the decoders' tests on the bytes amount to: the bytes are the one UTF-8 form of a code point. */
  lemma Decoded8(s: seq<nat>) returns (v: CodePoint)
    requires Wellformed8(s)
    ensures v == CodeOf8(s) && s == Utf8Of(v)
  {
    if |s| == 1 {
      v := s[0];
    } else if |s| == 2 {
      v := Decoded2(s);
    } else if |s| == 3 {
      v := Decoded3(s);
    } else {
      v := Decoded4(s);
    }
  }

  lemma Decoded2(s: seq<nat>) returns (v: CodePoint)
    requires |s| == 2 && Wellformed8(s)
    ensures v == Code2(s[0], s[1]) && s == Utf8Of(v)
  {
    var a, b := s[0] - 0xC0, s[1] - 0x80;
    Digits2(a, b);
    v := a * 0x40 + b;
    assert s[0] % 0x20 == a && s[1] % 0x40 == b;
  }

  lemma Decoded3(s: seq<nat>) returns (v: CodePoint)
    requires |s| == 3 && Wellformed8(s)
    ensures v == Code3(s[0], s[1], s[2]) && s == Utf8Of(v)
  {
    var a, b, c := s[0] - 0xE0, s[1] - 0x80, s[2] - 0x80;
    Digits3(a, b, c);
    v := a * 0x1000 + b * 0x40 + c;
    assert s[0] % 0x10 == a && s[1] % 0x40 == b && s[2] % 0x40 == c;
  }

  lemma Utf8OfDigits(v: CodePoint, a: nat, b: nat, c: nat, d: nat)
    requires 0x10000 <= v == a * 0x40000 + b * 0x1000 + c * 0x40 + d && b < 0x40 && c < 0x40 && d < 0x40
    ensures Utf8Of(v) == [0xF0 + a, 0x80 + b, 0x80 + c, 0x80 + d]
  {
    Digits4(a, b, c, d);
  }

  lemma Decoded4(s: seq<nat>) returns (v: CodePoint)
    requires |s| == 4 && Wellformed8(s)
    ensures v == Code4(s[0], s[1], s[2], s[3]) && s == Utf8Of(v) && v >= 0x10000
  {
    hide Utf8Of;
    var a, b, c, d := s[0] - 0xF0, s[1] - 0x80, s[2] - 0x80, s[3] - 0x80;
    v := a * 0x40000 + b * 0x1000 + c * 0x40 + d;
    Utf8OfDigits(v, a, b, c, d);
    assert s[0] % 8 == a && s[1] % 0x40 == b && s[2] % 0x40 == c && s[3] % 0x40 == d;
  }

  lemma Encoded8(v: CodePoint)
    ensures Wellformed8(Utf8Of(v)) && CodeOf8(Utf8Of(v)) == v
  {
    if v < 0x80 {
    } else if v < 0x800 {
      Encoded2(v);
    } else if v < 0x10000 {
      Encoded3(v);
    } else {
      Encoded4(v);
    }
  }

  lemma Encoded2(v: CodePoint)
    requires 0x80 <= v < 0x800
    ensures Wellformed8(Utf8Of(v)) && CodeOf8(Utf8Of(v)) == v
  {
  }

  lemma NoSurrogate(v: CodePoint, a: nat, b: nat, c: nat)
    requires 0x800 <= v && v == a * 0x1000 + b * 0x40 + c && b < 0x40 && c < 0x40
    ensures (a == 0 ==> b >= 0x20) && (a == 0xD ==> b < 0x20)
  {
    assert !IsSurrogate(v);
  }

  /** The digits that the three bytes carry. */
  lemma ThreeDigits(v: CodePoint) returns (a: nat, b: nat, c: nat)
    requires 0x800 <= v < 0x10000
    ensures v == a * 0x1000 + b * 0x40 + c && a < 0x10 && b < 0x40 && c < 0x40
    ensures Utf8Of(v) == [0xE0 + a, 0x80 + b, 0x80 + c]
  {
    a, b, c := v / 0x1000, v / 0x40 % 0x40, v % 0x40;
  }

  lemma Encoded3(v: CodePoint)
    requires 0x800 <= v < 0x10000
    ensures Wellformed8(Utf8Of(v)) && CodeOf8(Utf8Of(v)) == v
  {
    hide Utf8Of, Wellformed8, CodeOf8;
    var a, b, c := ThreeDigits(v);
    NoSurrogate(v, a, b, c);
    Digits3Read(a, b, c);
  }

  lemma Digits3Read(a: nat, b: nat, c: nat)
    requires a < 0x10 && b < 0x40 && c < 0x40 && (a == 0 ==> b >= 0x20) && (a == 0xD ==> b < 0x20)
    ensures var s := [0xE0 + a, 0x80 + b, 0x80 + c]; Wellformed8(s) && CodeOf8(s) == a * 0x1000 + b * 0x40 + c
  {
    assert (0xE0 + a) % 0x10 == a && (0x80 + b) % 0x40 == b && (0x80 + c) % 0x40 == c;
  }

  lemma Split64(v: nat)
    ensures v == v / 0x40 * 0x40 + v % 0x40
  {
  }

  lemma FourDigits(v: CodePoint) returns (a: nat, b: nat, c: nat, d: nat)
    requires 0x10000 <= v
    ensures v == a * 0x40000 + b * 0x1000 + c * 0x40 + d && b < 0x40 && c < 0x40 && d < 0x40
    ensures Utf8Of(v) == [0xF0 + a, 0x80 + b, 0x80 + c, 0x80 + d]
  {
    hide Utf8Of;
    var x: nat := v;
    var y: nat, z: nat := x / 0x40, x / 0x40 / 0x40;
    Split64(x);
    Split64(y);
    Split64(z);
    a, b, c, d := z / 0x40, z % 0x40, y % 0x40, x % 0x40;
    Utf8OfDigits(v, a, b, c, d);
  }

  lemma Encoded4(v: CodePoint)
    requires 0x10000 <= v
    ensures Wellformed8(Utf8Of(v)) && CodeOf8(Utf8Of(v)) == v
  {
    hide Utf8Of, Wellformed8, CodeOf8;
    var a, b, c, d := FourDigits(v);
    Digits4Read(a, b, c, d);
  }

  lemma Digits4Read(a: nat, b: nat, c: nat, d: nat)
    requires b < 0x40 && c < 0x40 && d < 0x40 && 0x10000 <= a * 0x40000 + b * 0x1000 + c * 0x40 + d <= 0x10FFFF
    ensures var s := [0xF0 + a, 0x80 + b, 0x80 + c, 0x80 + d];
      Wellformed8(s) && CodeOf8(s) == a * 0x40000 + b * 0x1000 + c * 0x40 + d
  {
    assert (0xF0 + a) % 8 == a && (0x80 + b) % 0x40 == b && (0x80 + c) % 0x40 == c && (0x80 + d) % 0x40 == d;
  }

  // ---- surrogate pairs ----

  predicate IsPair(u1: nat, u2: nat) {
    IsHigh(u1) && IsLow(u2)
  }

  lemma DecodedPair(u1: nat, u2: nat) returns (v: CodePoint)
    requires IsPair(u1, u2)
    ensures v == PairCode(u1, u2) && [u1, u2] == Utf16Of(v) && v >= 0x10000
  {
    var h, l := u1 - 0xD800, u2 - 0xDC00;
    v := 0x10000 + h * 0x400 + l;
    assert u1 / 0x40 == 0x360 + h / 0x40 && u1 % 0x40 == h % 0x40 && u2 % 0x400 == l;
    assert (v - 0x10000) / 0x400 == h && (v - 0x10000) % 0x400 == l;
  }

  lemma EncodedPair(v: CodePoint)
    requires v >= 0x10000
    ensures var u := Utf16Of(v); IsPair(u[0], u[1]) && PairCode(u[0], u[1]) == v
  {
  }

  /** A pair of surrogates and four bytes of UTF-8 for the same code point. */
  lemma PairBytes(u1: nat, u2: nat) returns (v: CodePoint)
    requires IsPair(u1, u2)
    ensures v == PairCode(u1, u2) && v >= 0x10000 && Utf16Of(v) == [u1, u2]
    ensures Utf8Of(v) == FourOfPair(u1, u2)
  {
    hide Utf8Of, Utf16Of, IsPair;
    v := DecodedPair(u1, u2);
    var z: nat := u1 / 0x40 % 0x10 + 1;
    Quarters(u1, u2, z);
    Utf8OfDigits(v, z / 4, z % 4 * 0x10 + u1 / 4 % 0x10, u1 % 4 * 0x10 + u2 / 0x40 % 0x10, u2 % 0x40);
  }

  lemma Quarters(u1: nat, u2: nat, z: nat)
    ensures z * 0x10000 + u1 % 0x40 * 0x400 + u2 % 0x400 ==
            z / 4 * 0x40000 + (z % 4 * 0x10 + u1 / 4 % 0x10) * 0x1000
            + (u1 % 4 * 0x10 + u2 / 0x40 % 0x10) * 0x40 + u2 % 0x40
  {
    assert u1 % 0x40 == u1 / 4 % 0x10 * 4 + u1 % 4 && u2 % 0x400 == u2 / 0x40 % 0x10 * 0x40 + u2 % 0x40;
  }

  lemma BytesPair(s: seq<nat>, v: CodePoint)
    requires |s| == 4 && Wellformed8(s) && v == CodeOf8(s)
    ensures Utf16Of(v) == PairOfFour(s[0], s[1], s[2], s[3])
  {
    hide Utf8Of, Utf16Of;
    var w := Decoded4(s);
    hide Code4;
    var p: nat, h: nat, l: nat := s[0] % 8 * 4 + s[1] / 0x10 % 4, s[1] % 0x10 * 4 + s[2] / 0x10 % 4,
                                  s[2] % 0x10 * 0x40 + s[3] % 0x40;
    Regrouped(s[0], s[1], s[2], s[3]);
    PairOfPlane(v, p, h, l);
  }

  /** The bits of four bytes as a plane number and the low bits of two surrogates. */
  lemma Regrouped(c1: nat, c2: nat, c3: nat, c4: nat)
    ensures Code4(c1, c2, c3, c4) == (c1 % 8 * 4 + c2 / 0x10 % 4) * 0x10000
              + (c2 % 0x10 * 4 + c3 / 0x10 % 4) * 0x400 + (c3 % 0x10 * 0x40 + c4 % 0x40)
  {
    Sixteenths(c2);
    Sixteenths(c3);
  }

  lemma Sixteenths(b: nat)
    ensures b % 0x40 == b / 0x10 % 4 * 0x10 + b % 0x10
  {
  }

  lemma PairOfPlane(v: CodePoint, p: nat, h: nat, l: nat)
    requires 0x10000 <= v == p * 0x10000 + h * 0x400 + l && h < 0x40 && l < 0x400
    ensures p > 0 && Utf16Of(v) == [0xD800 + (p - 1) * 0x40 + h, 0xDC00 + l]
  {
  }

  // ---- bytes of 16-bit units ----

  lemma UnitRead(s: seq<nat>, i: nat, big: bool)
    requires i + 1 < |s| && Below(s, 0x100)
    ensures UnitAt(s, i, big) < 0x10000 && UnitBytes(UnitAt(s, i, big), big) == s[i..i + 2]
  {
  }

  lemma UnitWritten(s: seq<nat>, i: nat, u: nat, big: bool)
    requires i + 1 < |s| && u < 0x10000 && s[i..i + 2] == UnitBytes(u, big)
    ensures UnitAt(s, i, big) == u
  {
  }

  // ---- the forms as the encoders write them ----

  lemma Forms8(v: CodePoint)
    ensures Utf8Of(v) ==
            if v < 0x80 then [v] else if v < 0x800 then Two(v) else if v < 0x10000 then Three(v) else Four(v)
  {
  }

  lemma Forms16(v: CodePoint)
    ensures Utf16Of(v) == if v < 0x10000 then [v] else [PlaneHigh(v), 0xDC00 + v % 0x400]
  {
    if 0x10000 <= v {
      var x: nat := v;
      var p: nat, h: nat, l: nat := x / 0x10000, x / 0x400 % 0x40, x % 0x400;
      assert x == p * 0x10000 + h * 0x400 + l && p % 0x20 == p;
      PairOfPlane(v, p, h, l);
    }
  }
}
