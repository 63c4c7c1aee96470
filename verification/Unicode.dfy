/**
 * The encodings the transcoders are measured against: UTF-8 as in section 3 of RFC 3629, and UTF-16 and its two
 * byte orders as in sections 2.1 and 3.1 to 3.2 of RFC 2781. Bit operations are written with division and
 * remainder by powers of two.
 */
module Unicode {

  predicate IsSurrogate(v: nat) {
    0xD800 <= v < 0xE000
  }

  /** The values that may be encoded. */
  type CodePoint = v: nat | v <= 0x10FFFF && !IsSurrogate(v)

  predicate Below(s: seq<nat>, bound: nat) {
    forall i :: 0 <= i < |s| ==> s[i] < bound
  }

  predicate AllWithin(vs: seq<CodePoint>, max: nat) {
    forall i :: 0 <= i < |vs| ==> vs[i] <= max
  }

  /** A form of text: code points as they are, UTF-8, UTF-16 in 16-bit units, or UTF-16 in bytes. */
  datatype Encoding = Plain | Utf8 | Utf16 | Utf16Bytes(big: bool)

  function Utf8Of(v: CodePoint): seq<nat> {
    if v < 0x80 then [v]
    else if v < 0x800 then [0xC0 + v / 0x40, 0x80 + v % 0x40]
    else if v < 0x10000 then [0xE0 + v / 0x1000, 0x80 + v / 0x40 % 0x40, 0x80 + v % 0x40]
    else [0xF0 + v / 0x40000, 0x80 + v / 0x1000 % 0x40, 0x80 + v / 0x40 % 0x40, 0x80 + v % 0x40]
  }

  function Utf16Of(v: CodePoint): seq<nat> {
    if v < 0x10000 then [v] else [0xD800 + (v - 0x10000) / 0x400, 0xDC00 + (v - 0x10000) % 0x400]
  }

  /** The two bytes of a 16-bit unit, most significant first or last. */
  function UnitBytes(u: nat, big: bool): seq<nat> {
    if big then [u / 0x100 % 0x100, u % 0x100] else [u % 0x100, u / 0x100 % 0x100]
  }

  function Encode(e: Encoding, v: CodePoint): (units: seq<nat>)
    ensures 1 <= |units| <= 4
  {
    match e
    case Plain => [v]
    case Utf8 => Utf8Of(v)
    case Utf16 => Utf16Of(v)
    case Utf16Bytes(big) =>
      var units := Utf16Of(v);
      if |units| == 1 then UnitBytes(units[0], big) else UnitBytes(units[0], big) + UnitBytes(units[1], big)
  }

  function EncodeAll(e: Encoding, vs: seq<CodePoint>): seq<nat> {
    if vs == [] then [] else Encode(e, vs[0]) + EncodeAll(e, vs[1..])
  }
}
