/**
 * gslice::__init: the positions of a generalized slice, computed by an odometer and proved to be the closed form.
 */
module Gslice {

  function Product(sizes: seq<nat>): nat {
    if sizes == [] then 1 else sizes[0] * Product(sizes[1..])
  }

  /** d holds one digit for each size. */
  predicate AreDigits(sizes: seq<nat>, d: seq<nat>) {
    |d| == |sizes| && forall j :: 0 <= j < |d| ==> d[j] < sizes[j]
  }

  /** The number that the digits stand for, the last one running fastest. */
  function Value(sizes: seq<nat>, d: seq<nat>): nat
    requires |d| == |sizes|
  {
    if sizes == [] then 0 else d[0] * Product(sizes[1..]) + Value(sizes[1..], d[1..])
  }

  /** The row-major digits of k: each size's digit is what is left of k, divided by the product of the sizes behind. */
  function Digits(sizes: seq<nat>, k: nat): (d: seq<nat>)
    requires k < Product(sizes)
    ensures |d| == |sizes|
  {
    if sizes == [] then []
    else
      var rest := Product(sizes[1..]);
      RestPositive(sizes[0], rest, k);
      [k / rest] + Digits(sizes[1..], k % rest)
  }

  lemma TimesMonotone(a: nat, b: nat, c: nat)
    requires a <= b
    ensures a * c <= b * c
  {
  }

  lemma RestPositive(size: nat, rest: nat, k: nat)
    requires k < size * rest
    ensures rest > 0 && k / rest < size
  {
  }

  function Dot(strides: seq<nat>, d: seq<nat>): nat
    requires |strides| == |d|
  {
    if d == [] then 0 else strides[0] * d[0] + Dot(strides[1..], d[1..])
  }

  lemma FirstDigit(sizes: seq<nat>, k: nat)
    requires sizes != [] && k < Product(sizes)
    ensures var rest := Product(sizes[1..]);
      rest > 0 && k / rest < sizes[0] && k % rest < rest && k == k / rest * rest + k % rest
  {
    RestPositive(sizes[0], Product(sizes[1..]), k);
  }

  /** Digits and Value are inverse: k has these digits and no others. */
  lemma {:induction false} DigitsOfNumber(sizes: seq<nat>, k: nat)
    requires k < Product(sizes)
    ensures AreDigits(sizes, Digits(sizes, k)) && Value(sizes, Digits(sizes, k)) == k
  {
    if sizes != [] {
      hide Product;
      var rest := Product(sizes[1..]);
      FirstDigit(sizes, k);
      DigitsOfNumber(sizes[1..], k % rest);
      var d := Digits(sizes, k);
      assert d[1..] == Digits(sizes[1..], k % rest);
    }
  }

  lemma {:induction false} NumberOfDigits(sizes: seq<nat>, d: seq<nat>)
    requires AreDigits(sizes, d)
    ensures Value(sizes, d) < Product(sizes) && Digits(sizes, Value(sizes, d)) == d
  {
    if sizes != [] {
      var rest := Product(sizes[1..]);
      var v := Value(sizes[1..], d[1..]);
      NumberOfDigits(sizes[1..], d[1..]);
      Compose(sizes[0], rest, d[0], v);
      assert d == [d[0]] + d[1..];
    }
  }

  lemma Compose(size: nat, rest: nat, q: nat, v: nat)
    requires q < size && v < rest
    ensures q * rest + v < size * rest && (q * rest + v) / rest == q && (q * rest + v) % rest == v
  {
    TimesMonotone(q + 1, size, rest);
    var n := q * rest + v;
    assert n == n / rest * rest + n % rest;
    if n / rest < q {
      TimesMonotone(n / rest + 1, q, rest);
    } else if n / rest > q {
      TimesMonotone(q + 1, n / rest, rest);
    }
  }

  // ---- one turn of the odometer ----

  /** d with its digits from position i on replaced by zeros. */
  function Cleared(d: seq<nat>, i: nat): (r: seq<nat>)
    requires i <= |d|
    ensures |r| == |d|
  {
    d[..i] + seq(|d| - i, _ => 0)
  }

  /** The digits from position i on are at their largest. */
  predicate FullFrom(sizes: seq<nat>, d: seq<nat>, i: nat) {
    |d| == |sizes| && forall j :: i <= j < |d| ==> d[j] + 1 == sizes[j]
  }

  lemma {:induction false} AllFull(sizes: seq<nat>, d: seq<nat>)
    requires FullFrom(sizes, d, 0)
    ensures Value(sizes, d) + 1 == Product(sizes)
  {
    if sizes != [] {
      AllFull(sizes[1..], d[1..]);
      var rest := Product(sizes[1..]);
      assert (d[0] + 1) * rest == d[0] * rest + rest;
    }
  }

  lemma {:induction false} ZeroValue(sizes: seq<nat>, d: seq<nat>)
    requires |d| == |sizes| && forall j :: 0 <= j < |d| ==> d[j] == 0
    ensures Value(sizes, d) == 0
  {
    if sizes != [] {
      ZeroValue(sizes[1..], d[1..]);
    }
  }

  /** Digit i up by one, those behind it from their largest back to zero: the next number. */
  lemma {:induction false} CarryCounts(sizes: seq<nat>, d: seq<nat>, i: nat)
    requires i < |sizes| && FullFrom(sizes, d, i + 1)
    ensures Value(sizes, Cleared(d[i := d[i] + 1], i + 1)) == Value(sizes, d) + 1
  {
    var e := Cleared(d[i := d[i] + 1], i + 1);
    var rest := Product(sizes[1..]);
    if i == 0 {
      AllFull(sizes[1..], d[1..]);
      ZeroValue(sizes[1..], e[1..]);
      assert (d[0] + 1) * rest == d[0] * rest + rest;
    } else {
      CarryCounts(sizes[1..], d[1..], i - 1);
      assert e[1..] == Cleared(d[1..][i - 1 := d[i] + 1], i);
    }
  }

  lemma {:induction false} DotSet(strides: seq<nat>, d: seq<nat>, j: nat, x: nat)
    requires |strides| == |d| && j < |d|
    ensures Dot(strides, d[j := x]) + strides[j] * d[j] == Dot(strides, d) + strides[j] * x
  {
    if j > 0 {
      DotSet(strides[1..], d[1..], j - 1, x);
      assert d[j := x][1..] == d[1..][j - 1 := x];
    }
  }

  lemma {:induction false} DotZero(strides: seq<nat>, d: seq<nat>)
    requires |strides| == |d| && forall j :: 0 <= j < |d| ==> d[j] == 0
    ensures Dot(strides, d) == 0
  {
    if d != [] {
      DotZero(strides[1..], d[1..]);
    }
  }

  /** A slice has positions exactly when no size is zero. */
  lemma {:induction false} SomePositions(sizes: seq<nat>)
    ensures Product(sizes) > 0 <==> forall j :: 0 <= j < |sizes| ==> sizes[j] > 0
  {
    if sizes != [] {
      SomePositions(sizes[1..]);
      var rest := Product(sizes[1..]);
      if sizes[0] > 0 && rest > 0 {
        TimesMonotone(1, sizes[0], rest);
      }
      if forall j :: 0 <= j < |sizes| ==> sizes[j] > 0 {
        assert forall j :: 0 <= j < |sizes[1..]| ==> sizes[1..][j] == sizes[j + 1];
      }
      if rest > 0 && sizes[0] > 0 {
        assert forall j :: 0 < j < |sizes| ==> sizes[j] == sizes[1..][j - 1];
      }
    }
  }

  /** Position k of the slice. */
  function Slot(start: nat, sizes: seq<nat>, strides: seq<nat>, k: nat): nat
    requires |strides| == |sizes| && k < Product(sizes)
  {
    start + Dot(strides, Digits(sizes, k))
  }

  // ---- the method ----

  class Slice {
    const size: seq<nat>
    const stride: seq<nat>
    var oneD: array<nat>

    constructor (start: nat, size: seq<nat>, stride: seq<nat>)
      requires |stride| == |size|
      ensures this.size == size && this.stride == stride && fresh(oneD)
      ensures oneD.Length == if size == [] then 0 else Product(size)
      ensures forall k :: 0 <= k < oneD.Length ==> oneD[k] == Slot(start, size, stride, k)
    {
      this.size, this.stride := size, stride;
      oneD := new nat[0];
      new;
      Init(start);
    }

    method Init(start: nat)
      requires |stride| == |size|
      modifies this
      ensures fresh(oneD) && oneD.Length == if size == [] then 0 else Product(size)
      ensures forall k :: 0 <= k < oneD.Length ==> oneD[k] == Slot(start, size, stride, k)
    {
      var indices := new nat[|size|](_ => 0);
      var k: nat := if |size| != 0 then 1 else 0;
      var i := 0;
      while i < |size|
        invariant i <= |size|
        invariant |size| != 0 ==> k * Product(size[i..]) == Product(size)
        invariant |size| == 0 ==> k == 0
        modifies {}
      {
        assert size[i..][1..] == size[i + 1..];
        Regroup(k, size[i], Product(size[i + 1..]));
        k := k * size[i];
        i := i + 1;
      }
      assert size[i..] == [] && Product(size[i..]) == 1;
      oneD := new nat[k](_ => 0);
      if oneD.Length != 0 {
        Fill(start, indices);
      }
    }

    /** The odometer loop: it stops when every digit has wrapped around, with all slots filled. */
    method Fill(start: nat, indices: array<nat>)
      requires |stride| == |size| == indices.Length && indices.Length != 0 && oneD.Length == Product(size) && oneD.Length > 0
      requires forall j :: 0 <= j < indices.Length ==> indices[j] == 0
      requires indices != oneD
      modifies indices, oneD
      ensures forall k :: 0 <= k < oneD.Length ==> oneD[k] == Slot(start, size, stride, k)
    {
      hide Dot, Digits, Value, Product, Slot;
      var k := 0;
      FirstSlot(start, size, stride, indices[..]);
      oneD[k] := start;
      while true
        invariant 0 <= k < oneD.Length && indices[..] == Digits(size, k)
        invariant forall j :: 0 <= j <= k ==> oneD[j] == Slot(start, size, stride, j)
        decreases oneD.Length - k
      {
        ghost var d := indices[..];
        DigitsOfNumber(size, k);
        var i := indices.Length - 1;
        while true
          invariant 0 <= i < indices.Length && FullFrom(size, d, i + 1)
          invariant indices[..] == Cleared(d, i + 1)
          decreases i
          modifies indices
        {
          assert indices[i] == d[i];
          indices[i] := indices[i] + 1;
          if indices[i] < size[i] {
            break;
          }
          if i == 0 {
            AllFull(size, d);
            return;
          }
          indices[i] := 0;
          assert indices[..] == Cleared(d, i);
          i := i - 1;
        }
        assert indices[..] == Cleared(d[i := d[i] + 1], i + 1);
        NextNumber(size, d, i);
        k := k + 1;
        NextSlot(start, k, i, d);
      }
    }

    /** Slot k from the one before: a stride more for digit i, and back by what the digits behind it had added. */
    method NextSlot(start: nat, k: nat, i: nat, ghost d: seq<nat>)
      requires |stride| == |size| && oneD.Length == Product(size)
      requires 0 < k < oneD.Length && oneD[k - 1] == Slot(start, size, stride, k - 1)
      requires i < |size| && d == Digits(size, k - 1) && FullFrom(size, d, i + 1)
      requires Digits(size, k) == Cleared(d[i := d[i] + 1], i + 1)
      modifies oneD
      ensures oneD[k] == Slot(start, size, stride, k)
      ensures forall j :: 0 <= j < oneD.Length && j != k ==> oneD[j] == old(oneD[j])
    {
      hide Dot, Digits, Value, Product;
      ghost var e := d[i := d[i] + 1];
      DotSet(stride, d, i, d[i] + 1);
      assert stride[i] * (d[i] + 1) == stride[i] * d[i] + stride[i];
      oneD[k] := oneD[k - 1] + stride[i];
      var j := i + 1;
      while j != |size|
        invariant i < j <= |size| && |e| == |size|
        invariant e == d[i := d[i] + 1][..i + 1] + seq(j - (i + 1), _ => 0) + d[j..]
        invariant oneD[k] == start + Dot(stride, e)
        invariant forall j :: 0 <= j < oneD.Length && j != k ==> oneD[j] == old(oneD[j])
        decreases |size| - j
      {
        assert e[j] == d[j] == size[j] - 1;
        DotSet(stride, e, j, 0);
        e := e[j := 0];
        oneD[k] := oneD[k] - stride[j] * (size[j] - 1);
        j := j + 1;
      }
      assert e == Cleared(d[i := d[i] + 1], i + 1);
    }
  }

  lemma FirstSlot(start: nat, sizes: seq<nat>, strides: seq<nat>, zeros: seq<nat>)
    requires |strides| == |sizes| == |zeros| && Product(sizes) > 0 && forall j :: 0 <= j < |zeros| ==> zeros[j] == 0
    ensures Digits(sizes, 0) == zeros && Slot(start, sizes, strides, 0) == start
  {
    SomePositions(sizes);
    NumberOfDigits(sizes, zeros);
    ZeroValue(sizes, zeros);
    DotZero(strides, zeros);
  }

  /** What the odometer shows after a carry into digit i is the digits of the next number. */
  lemma NextNumber(sizes: seq<nat>, d: seq<nat>, i: nat)
    requires AreDigits(sizes, d) && i < |sizes| && FullFrom(sizes, d, i + 1) && d[i] + 1 < sizes[i]
    ensures var e := Cleared(d[i := d[i] + 1], i + 1);
      Value(sizes, d) + 1 < Product(sizes) && Digits(sizes, Value(sizes, d) + 1) == e
  {
    var e := Cleared(d[i := d[i] + 1], i + 1);
    CarryCounts(sizes, d, i);
    NumberOfDigits(sizes, e);
  }

  lemma Regroup(a: nat, b: nat, c: nat)
    ensures a * (b * c) == (a * b) * c
  {
  }
}
