/** Elementary number theory behind the prime search: divisibility, primality and when trial division may stop. */
module Primes {

  predicate Divides(d: nat, n: nat)
    requires d > 0
  {
    n % d == 0
  }

  /** No number of [2, b) divides n. */
  predicate NoDivisorBelow(n: nat, b: nat) {
    forall d :: 2 <= d < b ==> !Divides(d, n)
  }

  predicate IsPrime(n: nat) {
    n >= 2 && NoDivisorBelow(n, n)
  }

  ghost predicate NoPrimeIn(n: nat, m: nat) {
    forall x :: n <= x < m ==> !IsPrime(x)
  }

  /** p is the lowest prime that is greater than or equal to n. */
  ghost predicate IsLeastPrimeFrom(n: nat, p: nat) {
    n <= p && IsPrime(p) && NoPrimeIn(n, p)
  }

  lemma MultipleDivides(d: nat, k: nat)
    requires d > 0
    ensures Divides(d, k * d)
  {
    ModMultiple(k, d);
  }

  lemma {:induction false} ModMultiple(k: nat, d: nat)
    requires d > 0
    ensures (k * d) % d == 0
  {
    if k > 0 {
      ModMultiple(k - 1, d);
      assert k * d == (k - 1) * d + d;
      var a := (k - 1) * d;
      assert (a + d) % d == a % d by { ModStep(a, d); }
    }
  }

  lemma ModStep(a: nat, d: nat)
    requires d > 0
    ensures (a + d) % d == a % d
    ensures (a + d) / d == a / d + 1
  {
    var q, r := a / d, a % d;
    assert a == q * d + r;
    assert a + d == (q + 1) * d + r;
    QuotientUnique(a + d, d, q + 1, r);
  }

  lemma ProductMonotone(a: nat, b: nat, d: nat)
    requires a <= b
    ensures a * d <= b * d
  {
  }

  lemma QuotientUnique(a: nat, d: nat, q: nat, r: nat)
    requires d > 0 && r < d && a == q * d + r
    ensures a / d == q && a % d == r
  {
    var q', r' := a / d, a % d;
    assert a == q' * d + r';
    if q > q' {
      ProductMonotone(q' + 1, q, d);
    } else if q' > q {
      ProductMonotone(q + 1, q', d);
    }
  }

  lemma ModShift(m: nat, q: nat, r: nat)
    requires m > 0
    ensures (q * m + r) % m == r % m
  {
    var c := r / m;
    assert q * m + r == (q + c) * m + r % m;
    QuotientUnique(q * m + r, m, q + c, r % m);
  }

  lemma DividesTransitive(e: nat, d: nat, n: nat)
    requires e > 0 && d > 0 && Divides(e, d) && Divides(d, n)
    ensures Divides(e, n)
  {
    var a, b := d / e, n / d;
    assert d == a * e && n == b * d;
    assert n == (b * a) * e;
    MultipleDivides(e, b * a);
  }

  /** Trial division may stop once the divisor exceeds the quotient. */
  lemma SmallQuotientIsPrime(n: nat, p: nat)
    requires n >= 2 && p >= 2 && NoDivisorBelow(n, p) && n / p < p
    ensures IsPrime(n)
  {
    forall d | 2 <= d < n ensures !Divides(d, n) {
      if Divides(d, n) { QuotientOfComposite(n, p, d); }
    }
  }

  lemma QuotientOfComposite(n: nat, p: nat, d: nat)
    requires p >= 2 && 2 <= d < n && Divides(d, n) && NoDivisorBelow(n, p)
    ensures n / p >= p
  {
    var e := n / d;
    assert n == e * d;
    assert e != 0 && e != 1;
    MultipleDivides(e, d);
    ProductMonotone(p, e, d);
    ProductMonotone(p, d, p);
    var q := n / p;
    assert n < q * p + p;
    if q < p { ProductMonotone(q + 1, p, p); }
  }

  lemma ExactQuotientIsComposite(n: nat, p: nat)
    requires 2 <= p <= n / p && n == n / p * p
    ensures !IsPrime(n)
  {
    var q := n / p;
    MultipleDivides(p, q);
    assert q * p >= 2 * p;
    assert Divides(p, n);
  }

  /** d need not be tried when a proper divisor of d already failed to divide n. */
  lemma CompositeDivisorExcluded(n: nat, d: nat, e: nat)
    requires 2 <= e < d && Divides(e, d) && NoDivisorBelow(n, d)
    ensures !Divides(d, n)
  {
    if Divides(d, n) { DividesTransitive(e, d, n); }
  }
}
