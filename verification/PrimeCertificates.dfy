/**
 * Certificates of primality: a number is prime when the powers of some element run through all its residues, and
 * that is seen from a few powers if the prime factors of the number less one are known.
 */
module PrimeCertificates {

  import opened Primes

  // ---- powers modulo n ----

  function Times(x: nat, y: nat, n: nat): nat
    requires n > 0
  {
    x * y % n
  }

  function PowMod(a: nat, e: nat, n: nat): nat
    requires n > 0
  {
    if e == 0 then 1 % n else Times(PowMod(a, e - 1, n), a, n)
  }

  lemma TimesBelow(x: nat, y: nat, n: nat)
    requires n > 0
    ensures Times(x, y, n) < n && Times(x, y, n) == Times(y, x, n) && Times(x % n, y, n) == Times(x, y, n)
    ensures x < n ==> Times(x, 1, n) == x
  {
    assert x * y == (x / n * y) * n + (x % n) * y;
    ModShift(n, x / n * y, (x % n) * y);
    assert x * y == y * x;
  }

  lemma TimesAssociative(x: nat, y: nat, z: nat, n: nat)
    requires n > 0
    ensures Times(Times(x, y, n), z, n) == Times(x, Times(y, z, n), n)
  {
    TimesBelow(x * y, z, n);
    TimesBelow(y * z, x, n);
    TimesBelow(Times(y, z, n), x, n);
    Rotate(x, y, z);
    assert Times(x * y, z, n) == Times(y * z, x, n);
    hide Times;
  }

  lemma Rotate(x: nat, y: nat, z: nat)
    ensures (x * y) * z == (y * z) * x
  {
  }

  lemma {:induction false} PowAdd(a: nat, i: nat, j: nat, n: nat)
    requires n > 0
    ensures PowMod(a, i + j, n) == Times(PowMod(a, i, n), PowMod(a, j, n), n)
  {
    hide Times;
    PowBelow(a, i, n);
    if j == 0 {
      TimesBelow(1, PowMod(a, i, n), n);
      TimesBelow(PowMod(a, i, n), 1, n);
    } else {
      PowAdd(a, i, j - 1, n);
      TimesAssociative(PowMod(a, i, n), PowMod(a, j - 1, n), a, n);
    }
  }

  lemma PowBelow(a: nat, e: nat, n: nat)
    requires n > 0
    ensures PowMod(a, e, n) < n
  {
  }

  lemma {:induction false} PowPow(a: nat, i: nat, j: nat, n: nat)
    requires n > 0
    ensures PowMod(PowMod(a, i, n), j, n) == PowMod(a, i * j, n)
  {
    hide Times;
    if j > 0 {
      PowPow(a, i, j - 1, n);
      PowAdd(a, i * (j - 1), i, n);
      assert i * (j - 1) + i == i * j;
    }
  }

  // ---- the order of an element ----

  /** Two powers of a that agree, below n - 1, would make a shorter cycle. */
  ghost predicate NoShorterCycle(a: nat, n: nat)
    requires n > 0
  {
    forall e :: 0 < e < n - 1 ==> PowMod(a, e, n) != 1
  }

  lemma PowersDiffer(a: nat, n: nat, i: nat, j: nat)
    requires n > 1 && PowMod(a, n - 1, n) == 1 && NoShorterCycle(a, n) && i < j < n - 1
    ensures PowMod(a, i, n) != PowMod(a, j, n)
  {
    hide Times, PowMod;
    var k := n - 1 - j;
    PowAdd(a, i, k, n);
    PowAdd(a, j, k, n);
  }

  lemma ZeroTimes(y: nat, n: nat)
    requires n > 0
    ensures Times(0, y, n) == 0
  {
  }

  function Powers(a: nat, n: nat, k: nat): set<nat>
    requires n > 0
  {
    set i | 0 <= i < k :: PowMod(a, i, n)
  }

  function Residues(n: nat): set<nat> {
    if n < 2 then {} else Residues(n - 1) + {n - 1}
  }

  lemma {:induction false} PowersCount(a: nat, n: nat, k: nat)
    requires n > 1 && PowMod(a, n - 1, n) == 1 && NoShorterCycle(a, n) && k <= n - 1
    ensures |Powers(a, n, k)| == k
  {
    hide PowMod, NoShorterCycle;
    if k > 0 {
      PowersCount(a, n, k - 1);
      var last := PowMod(a, k - 1, n);
      forall i | 0 <= i < k - 1
        ensures PowMod(a, i, n) != last
      {
        PowersDiffer(a, n, i, k - 1);
      }
      assert last !in Powers(a, n, k - 1);
      assert Powers(a, n, k) == Powers(a, n, k - 1) + {last};
    }
  }

  lemma PowerIsResidue(a: nat, n: nat, i: nat)
    requires n > 1 && PowMod(a, n - 1, n) == 1 && i < n - 1
    ensures PowMod(a, i, n) in Residues(n)
  {
    hide PowMod, Residues;
    PowAdd(a, i, n - 1 - i, n);
    PowBelow(a, i, n);
    ZeroTimes(PowMod(a, n - 1 - i, n), n);
    ResiduesAre(n, PowMod(a, i, n));
  }

  lemma {:induction false} ResiduesAre(n: nat, x: nat)
    ensures x in Residues(n) <==> 1 <= x < n
  {
    if n >= 2 {
      ResiduesAre(n - 1, x);
    }
  }

  lemma {:induction false} ResiduesCount(n: nat)
    requires n >= 1
    ensures |Residues(n)| == n - 1
  {
    if n >= 2 {
      ResiduesCount(n - 1);
      ResiduesAre(n - 1, n - 1);
    }
  }

  lemma SameSize(s: set<nat>, t: set<nat>)
    requires s <= t && |s| == |t|
    ensures s == t
  {
    assert t == s + (t - s);
    assert |t| == |s| + |t - s|;
  }

  /** When the powers of a are n - 1 different residues, every residue has an inverse and n no divisor. */
  lemma FullCycleIsPrime(a: nat, n: nat)
    requires n > 1 && PowMod(a, n - 1, n) == 1 && NoShorterCycle(a, n)
    ensures IsPrime(n)
  {
    hide PowMod, Residues;
    PowersCount(a, n, n - 1);
    ResiduesCount(n);
    forall x | x in Powers(a, n, n - 1)
      ensures x in Residues(n)
    {
      var i :| 0 <= i < n - 1 && x == PowMod(a, i, n);
      PowerIsResidue(a, n, i);
    }
    SameSize(Powers(a, n, n - 1), Residues(n));
    forall d | 2 <= d < n
      ensures !Divides(d, n)
    {
      ResiduesAre(n, d);
      var i :| 0 <= i < n - 1 && d == PowMod(a, i, n);
      PowAdd(a, i, n - 1 - i, n);
      HasInverse(d, PowMod(a, n - 1 - i, n), n);
    }
  }

  lemma HasInverse(d: nat, y: nat, n: nat)
    requires 2 <= d < n && d * y % n == 1
    ensures !Divides(d, n)
  {
    if Divides(d, n) {
      var k, m := d * y / n, n / d;
      assert n == m * d && d * y == k * n + 1;
      assert d * y == (k * m) * d + 1;
      QuotientUnique(d * y, d, k * m, 1);
      MultipleDivides(d, y);
    }
  }

  // ---- Euclid's lemma and the order of an element ----

  /** p divides a multiple of a before it gets to a * p. */
  lemma {:induction false} LeastMultiple(p: nat, a: nat, x: nat) returns (least: nat)
    requires p > 0 && x > 0 && Divides(p, a * x)
    ensures 0 < least <= x && Divides(p, a * least) && forall y :: 0 < y < least ==> !Divides(p, a * y)
  {
    if y :| 0 < y < x && Divides(p, a * y) {
      least := LeastMultiple(p, a, y);
    } else {
      least := x;
    }
  }

  /** The least such factor divides every such factor. */
  lemma LeastDivides(p: nat, a: nat, least: nat, b: nat)
    requires p > 0 && least > 0 && Divides(p, a * least) && forall y :: 0 < y < least ==> !Divides(p, a * y)
    requires Divides(p, a * b)
    ensures Divides(least, b)
  {
    var q, r := b / least, b % least;
    assert b == q * least + r;
    var u, v := a * b / p, a * least / p;
    assert a * b == u * p && a * least == v * p;
    if r != 0 {
      RestOfMultiple(a, b, q, least, r, u, v, p);
      QuotientOfMultiple(a * r, u - q * v, p);
    }
  }

  lemma RestOfMultiple(a: nat, b: nat, q: nat, least: nat, r: nat, u: nat, v: nat, p: nat)
    requires b == q * least + r && a * b == u * p && a * least == v * p
    ensures a * r == (u - q * v) * p
  {
  }

  lemma QuotientOfMultiple(n: nat, k: int, p: nat)
    requires p > 0 && n == k * p
    ensures Divides(p, n)
  {
    if k >= 0 {
      MultipleDivides(p, k);
    }
  }

  lemma EuclidsLemma(p: nat, a: nat, b: nat)
    requires IsPrime(p) && Divides(p, a * b)
    ensures Divides(p, a) || Divides(p, b)
  {
    MultipleDivides(p, a);
    var least := LeastMultiple(p, a, p);
    LeastDivides(p, a, least, b);
    LeastDivides(p, a, least, p);
    if least == 1 {
      assert a * 1 == a;
    } else {
      assert least == p;
    }
  }

  function Product(qs: seq<nat>): nat {
    if qs == [] then 1 else qs[0] * Product(qs[1..])
  }

  /** The only primes that divide a product of primes are its factors. */
  lemma {:induction false} PrimeInProduct(p: nat, qs: seq<nat>)
    requires IsPrime(p) && (forall i :: 0 <= i < |qs| ==> IsPrime(qs[i])) && Divides(p, Product(qs))
    ensures p in qs
  {
    if qs == [] {
      assert false;
    } else {
      EuclidsLemma(p, qs[0], Product(qs[1..]));
      if Divides(p, qs[0]) {
        assert p == qs[0] by {
          FactorNotLarger(p, qs[0]);
        }
      } else {
        PrimeInProduct(p, qs[1..]);
      }
    }
  }

  lemma FactorNotLarger(p: nat, q: nat)
    requires p > 0 && q > 0 && Divides(p, q)
    ensures p <= q
  {
  }

  lemma {:induction false} PrimeFactor(n: nat) returns (p: nat)
    requires n >= 2
    ensures IsPrime(p) && Divides(p, n)
  {
    if IsPrime(n) {
      p := n;
    } else {
      var d :| 2 <= d < n && Divides(d, n);
      p := PrimeFactor(d);
      DividesTransitive(p, d, n);
    }
  }

  lemma {:induction false} LeastCycle(a: nat, n: nat, e: nat) returns (o: nat)
    requires n > 1 && e > 0 && PowMod(a, e, n) == 1
    ensures 0 < o <= e && PowMod(a, o, n) == 1 && forall y :: 0 < y < o ==> PowMod(a, y, n) != 1
  {
    hide PowMod;
    if y :| 0 < y < e && PowMod(a, y, n) == 1 {
      o := LeastCycle(a, n, y);
    } else {
      o := e;
    }
  }

  lemma {:induction false} OneToAny(e: nat, n: nat)
    requires n > 1
    ensures PowMod(1, e, n) == 1
  {
    if e > 0 {
      OneToAny(e - 1, n);
    }
  }

  lemma WholeCycles(a: nat, n: nat, o: nat, k: nat)
    requires n > 1 && PowMod(a, o, n) == 1
    ensures PowMod(a, o * k, n) == 1
  {
    PowPow(a, o, k, n);
    OneToAny(k, n);
  }

  lemma CycleDivides(a: nat, n: nat, o: nat, e: nat)
    requires n > 1 && o > 0 && PowMod(a, o, n) == 1 && forall y :: 0 < y < o ==> PowMod(a, y, n) != 1
    requires PowMod(a, e, n) == 1
    ensures Divides(o, e)
  {
    hide PowMod;
    var k, r := e / o, e % o;
    assert e == o * k + r;
    WholeCycles(a, n, o, k);
    PowAdd(a, o * k, r, n);
    PowBelow(a, r, n);
    TimesBelow(1, PowMod(a, r, n), n);
    TimesBelow(PowMod(a, r, n), 1, n);
  }

  predicate EndsLater(a: nat, n: nat, q: nat)
    requires n > 0
  {
    q > 0 && PowMod(a, (n - 1) / q, n) != 1
  }

  /** A cycle shorter than m already fits into m divided by some prime. */
  lemma ProperCycle(a: nat, n: nat, o: nat, m: nat) returns (p: nat)
    requires n > 1 && 0 < o < m && PowMod(a, o, n) == 1 && Divides(o, m)
    ensures IsPrime(p) && Divides(p, m) && PowMod(a, m / p, n) == 1
  {
    hide PowMod;
    var k := m / o;
    assert m == k * o;
    assert k >= 2;
    p := PrimeFactor(k);
    Shortened(m, o, k, p);
    WholeCycles(a, n, o, k / p);
    hide IsPrime;
    MultipleDivides(k, o);
    assert o * k == m;
    DividesTransitive(p, k, m);
  }

  /** A certificate: the prime factors of n - 1, and a power that gets to 1 no sooner than at n - 1. */
  lemma Certified(n: nat, a: nat, qs: seq<nat>)
    requires n > 2 && Product(qs) == n - 1 && PowMod(a, n - 1, n) == 1
    requires forall i :: 0 <= i < |qs| ==> IsPrime(qs[i]) && EndsLater(a, n, qs[i])
    ensures IsPrime(n)
  {
    hide PowMod, IsPrime, Divides;
    if e :| 0 < e < n - 1 && PowMod(a, e, n) == 1 {
      var o := LeastCycle(a, n, e);
      CycleDivides(a, n, o, n - 1);
      var p := ProperCycle(a, n, o, n - 1);
      PrimeInProduct(p, qs);
    }
    FullCycleIsPrime(a, n);
  }

  lemma Shortened(m: nat, o: nat, k: nat, p: nat)
    requires m == k * o && p > 0 && Divides(p, k)
    ensures m / p == o * (k / p)
  {
    var j := k / p;
    assert k == j * p;
    assert m == (o * j) * p + 0 by {
      Rotate(j, p, o);
      Rotate(p, o, j);
    }
    QuotientUnique(m, p, o * j, 0);
  }

  // ---- the certificates ----

  /** One binary digit of the exponent: m is the square of x, and y what the digit makes of it. */
  predicate Digit(n: nat, a: nat, odd: bool, x: nat, m: nat, y: nat)
    requires n > 0
  {
    Times(x, x, n) == m && y == if odd then Times(m, a, n) else m
  }

  lemma OneDigit(n: nat, a: nat, e: nat, odd: bool, x: nat, m: nat, y: nat)
    requires n > 1 && PowMod(a, e, n) == x && Digit(n, a, odd, x, m, y)
    ensures PowMod(a, 2 * e + if odd then 1 else 0, n) == y
  {
    hide Times;
    PowAdd(a, e, e, n);
  }

  /** Four binary digits of the exponent, as the hexadecimal digit d. */
  lemma Hex(n: nat, a: nat, e: nat, x: nat, d: nat,
            m3: nat, x3: nat, m2: nat, x2: nat, m1: nat, x1: nat, m0: nat, x0: nat)
    requires n > 1 && d < 16 && PowMod(a, e, n) == x
    requires Digit(n, a, d / 8 % 2 == 1, x, m3, x3) && Digit(n, a, d / 4 % 2 == 1, x3, m2, x2)
    requires Digit(n, a, d / 2 % 2 == 1, x2, m1, x1) && Digit(n, a, d % 2 == 1, x1, m0, x0)
    ensures PowMod(a, 16 * e + d, n) == x0
  {
    hide PowMod, Digit;
    var e3 := 2 * e + d / 8;
    var e2 := 2 * e3 + d / 4 % 2;
    var e1 := 2 * e2 + d / 2 % 2;
    OneDigit(n, a, e, d / 8 % 2 == 1, x, m3, x3);
    OneDigit(n, a, e3, d / 4 % 2 == 1, x3, m2, x2);
    OneDigit(n, a, e2, d / 2 % 2 == 1, x2, m1, x1);
    OneDigit(n, a, e1, d % 2 == 1, x1, m0, x0);
    assert 2 * e1 + d % 2 == 16 * e + d;
  }

  lemma ToTheNothing(a: nat, n: nat)
    requires n > 1
    ensures PowMod(a, 0, n) == 1
  {
  }

  /** Divisors tried one by one. */
  predicate NoneFrom(n: nat, d: nat, b: nat)
    requires d > 0
    decreases b - d
  {
    d >= b || (n % d != 0 && NoneFrom(n, d + 1, b))
  }

  /** Divisors tried eight at a time. */
  predicate NoneOfEights(n: nat, d: nat, b: nat)
    requires d > 0
    decreases b - d
  {
    d >= b || (n % d != 0 && n % (d + 1) != 0 && n % (d + 2) != 0 && n % (d + 3) != 0 && n % (d + 4) != 0
               && n % (d + 5) != 0 && n % (d + 6) != 0 && n % (d + 7) != 0 && NoneOfEights(n, d + 8, b))
  }

  lemma {:induction false} NoneFromMeans(n: nat, d: nat, b: nat)
    requires d > 0 && (NoneFrom(n, d, b) || NoneOfEights(n, d, b))
    ensures forall k :: d <= k < b ==> !Divides(k, n)
    decreases b - d
  {
    if d < b {
      NoneFromMeans(n, if NoneFrom(n, d, b) then d + 1 else d + 8, b);
    }
  }

  lemma SmallPrime(n: nat, b: nat)
    requires 2 <= n && 2 <= b && (n == b || n / b < b) && (NoneFrom(n, 2, b) || NoneOfEights(n, 2, b))
    ensures IsPrime(n)
  {
    NoneFromMeans(n, 2, b);
    if n != b {
      SmallQuotientIsPrime(n, b);
    }
  }
}
