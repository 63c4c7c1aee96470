/**
 * The search for the lowest prime at or above n: a lookup for small n, then candidates on a wheel modulo 210,
 * each tested by trial division with the small primes and the spokes of the same wheel.
 * Every word operation is written modulo the word size.
 */
module PrimeSearch {
  import opened Primes
  import opened PrimeTables
  import LargestPrimes
  import TablePrimes

  /** The two widths of size_t; the largest prime of each is the constant of the overflow check. */
  datatype Word = Word32 | Word64 {
    function Modulus(): nat {
      if Word32? then 0x1_0000_0000 else 0x1_0000_0000_0000_0000
    }

    /** How many pointers fit in the address space. */
    function MaxPointers(): nat {
      if Word32? then 0x4000_0000 else 0x2000_0000_0000_0000
    }

    function LargestPrime(): nat {
      if Word32? then 0xFFFF_FFFB else 0xFFFF_FFFF_FFFF_FFC5
    }

    /** The largest prime among the numbers of pointers that fit: 2^30 - 35 and 2^61 - 1. */
    function LastBucketCount(): nat {
      if Word32? then 1073741789 else 2305843009213693951
    }

    /** How many entries a table can always take, whatever they are: half the last bucket count, rounded up. */
    function Room(): nat {
      if Word32? then 536870895 else 0x1000_0000_0000_0000
    }
  }

  datatype Outcome = Found(prime: nat) | OverflowError

  datatype Verdict = Prime | Composite | Undecided

  lemma {:induction false} SmallPrimesSorted(t: seq<nat>, i: nat, j: nat)
    requires PrimeTable(t) && i < j < 48
    ensures t[i] < t[j]
  {
    assert Consecutive(t[j - 1], t[j - 1 + 1]);
    if i < j - 1 { SmallPrimesSorted(t, i, j - 1); }
  }

  lemma {:induction false} IndicesSorted(t: seq<nat>, s: seq<nat>, i: nat, j: nat)
    requires WheelTable(t, s) && i < j < 48
    ensures t[i] < t[j]
  {
    assert t[j - 1] + s[j - 1] == t[j];
    if i < j - 1 { IndicesSorted(t, s, i, j - 1); }
  }

  lemma CompositeHasDivisor(d: nat) returns (e: nat)
    requires d >= 2 && !IsPrime(d)
    ensures 2 <= e < d && Divides(e, d)
  {
    e :| 2 <= e < d && Divides(e, d);
  }

  // ---- trial division ----

  /** Only primes have to be tried: composites are excluded by their own divisors. */
  lemma {:induction false} ExtendOverComposites(n: nat, a: nat, b: nat)
    requires 2 <= a < b && NoDivisorBelow(n, a + 1) && NoPrimeIn(a + 1, b)
    ensures NoDivisorBelow(n, b)
  {
    if b > a + 1 {
      ExtendOverComposites(n, a, b - 1);
      var e := CompositeHasDivisor(b - 1);
      CompositeDivisorExcluded(n, b - 1, e);
    }
  }

  lemma FailedTrial(n: nat, p: nat)
    requires p >= 2 && NoDivisorBelow(n, p) && n != n / p * p
    ensures NoDivisorBelow(n, p + 1)
  {
  }

  lemma DivisorStaysInWord(n: nat, i: nat, w: Word)
    requires 211 <= i && i * i <= n < w.Modulus()
    ensures i <= n && i + 10 < w.Modulus()
  {
  }

  function Wrap(w: Word, x: nat): (r: nat)
    ensures x < w.Modulus() ==> r == x
  {
    x % w.Modulus()
  }

  /** One trial division: a quotient below the divisor proves n prime, an exact one proves it composite. */
  method Trial(n: nat, i: nat, w: Word) returns (verdict: Verdict)
    requires 211 <= n < w.Modulus() && i >= 2 && NoDivisorBelow(n, i)
    ensures verdict == Prime ==> IsPrime(n)
    ensures verdict == Composite ==> !IsPrime(n)
    ensures verdict == Undecided ==> NoDivisorBelow(n, i + 1) && i * i <= n
  {
    var q := n / i;
    if q < i {
      SmallQuotientIsPrime(n, i);
      return Prime;
    }
    assert q * i <= n by { assert n == i * q + n % i; }
    if n == Wrap(w, q * i) {
      ExactQuotientIsComposite(n, i);
      return Composite;
    }
    FailedTrial(n, i);
    ProductMonotone(i, q, i);
    return Undecided;
  }

  /** Trial division of n by the small primes 11 to 199, then by every spoke of the wheel from 211 on. */
  method TrialDivision(n: nat, w: Word, small: seq<nat>, indices: seq<nat>, steps: seq<nat>)
    returns (prime: bool)
    requires 211 <= n < w.Modulus() && NoDivisorBelow(n, 11)
    requires PrimeTable(small) && WheelTable(indices, steps)
    ensures prime == IsPrime(n)
  {
    var j := 5;
    while j < 47
      invariant 5 <= j <= 47 && NoDivisorBelow(n, small[j])
    {
      assert IsPrime(small[j]) && Consecutive(small[j], small[j + 1]);
      var verdict := Trial(n, small[j], w);
      if verdict != Undecided {
        return verdict == Prime;
      }
      ExtendOverComposites(n, small[j], small[j + 1]);
      j := j + 1;
    }
    prime := TrialBySpokes(n, w, indices, steps);
  }

  method TrialBySpokes(n: nat, w: Word, indices: seq<nat>, steps: seq<nat>) returns (prime: bool)
    requires 211 <= n < w.Modulus() && NoDivisorBelow(n, 211) && WheelTable(indices, steps)
    ensures prime == IsPrime(n)
  {
    var i := 211;
    ghost var k := 1;
    while true
      invariant k >= 1 && i == L * k + 1 && i <= n + 10 && NoDivisorBelow(n, i)
      decreases n + 10 - i
    {
      var verdict;
      verdict, i := OneTurn(n, i, k, w, indices, steps);
      if verdict != Undecided {
        return verdict == Prime;
      }
      k := k + 1;
    }
  }

  /** One pass through the 48 unrolled trial divisions; it ends on the first spoke of the next turn. */
  method OneTurn(n: nat, start: nat, ghost k: nat, w: Word, indices: seq<nat>, steps: seq<nat>)
    returns (verdict: Verdict, i: nat)
    requires 211 <= n < w.Modulus() && k >= 1 && start == L * k + 1
    requires NoDivisorBelow(n, start) && WheelTable(indices, steps)
    ensures verdict == Prime ==> IsPrime(n)
    ensures verdict == Composite ==> !IsPrime(n)
    ensures verdict == Undecided ==> i == start + L && i <= n + 10 && NoDivisorBelow(n, i)
  {
    i := start;
    var j := 0;
    while j < 48
      invariant j <= 48
      invariant i == L * k + (if j < 48 then indices[j] else L + 1)
      invariant j > 0 ==> i <= n + 10
      invariant i >= 211 && NoDivisorBelow(n, i)
    {
      verdict := Trial(n, i, w);
      if verdict != Undecided {
        return;
      }
      DivisorStaysInWord(n, i, w);
      assert FreeArc(indices, steps, k, j);
      ExtendOverComposites(n, i, i + steps[j]);
      i := Wrap(w, i + steps[j]);
      j := j + 1;
    }
    verdict := Undecided;
  }

  // ---- the search ----

  method LowerBound(a: seq<nat>, v: nat) returns (first: nat)
    requires forall i, j :: 0 <= i < j < |a| ==> a[i] < a[j]
    ensures first <= |a|
    ensures forall i :: 0 <= i < first ==> a[i] < v
    ensures forall i :: first <= i < |a| ==> a[i] >= v
  {
    first := 0;
    var len := |a|;
    while len != 0
      invariant 0 <= len <= len + first <= |a|
      invariant forall i :: 0 <= i < first ==> a[i] < v
      invariant forall i :: first + len <= i < |a| ==> a[i] >= v
      decreases len
    {
      var l2 := len / 2;
      if a[first + l2] < v {
        first := first + l2 + 1;
        len := len - (l2 + 1);
      } else {
        len := l2;
      }
    }
  }

  /** The constant of the overflow check is the last prime that fits in the word. */
  lemma LastPrimeOfWord(w: Word)
    ensures IsPrime(w.LargestPrime()) && NoPrimeIn(w.LargestPrime() + 1, w.Modulus())
  {
    hide IsPrime;
    forall x | w.LargestPrime() < x < w.Modulus()
      ensures !IsPrime(x)
    {
      if w.Word32? {
        LargestPrimes.NoneAboveWord32(x);
      } else {
        LargestPrimes.NoneAboveWord64(x);
      }
    }
    LargestPrimes.PrimeWord32();
    LargestPrimes.PrimeWord64();
  }

  /** A bucket count of n or more can be had exactly up to the last one. */
  lemma BucketCountsEnd(w: Word, n: nat)
    ensures NoPrimeIn(n, w.MaxPointers() + 1) <==> n > w.LastBucketCount()
    ensures 2 * w.Room() == w.LastBucketCount() + 1
  {
    hide IsPrime;
    TablePrimes.Prime32();
    TablePrimes.Prime64();
    if n > w.LastBucketCount() {
      forall x | n <= x < w.MaxPointers() + 1
        ensures !IsPrime(x)
      {
        if w.Word32? {
          TablePrimes.NoneAbovePrime32(x);
        } else {
          TablePrimes.NoneAbovePrime64(x);
        }
      }
    }
  }

  /** The lowest prime at or above n, or the overflow error exactly when no prime from n on fits in the word. */
  method NextPrime(n: nat, w: Word) returns (r: Outcome)
    requires n < w.Modulus()
    ensures r.OverflowError? <==> NoPrimeIn(n, w.Modulus())
    ensures n == 0 ==> r == Found(0)
    ensures r.Found? && n > 0 ==> IsLeastPrimeFrom(n, r.prime)
    ensures r.Found? ==> n <= r.prime < w.Modulus()
  {
    hide IsPrime;
    LastPrimeOfWord(w);
    SmallPrimesComplete();
    WheelComplete();
    r := SearchFrom(n, w, SMALL_PRIMES, INDICES, STEPS);
  }

  method SearchFrom(n: nat, w: Word, small: seq<nat>, indices: seq<nat>, steps: seq<nat>) returns (r: Outcome)
    requires n < w.Modulus() && IsPrime(w.LargestPrime())
    requires PrimeTable(small) && WheelTable(indices, steps)
    ensures r.OverflowError? <==> n > w.LargestPrime()
    ensures n == 0 ==> r == Found(0)
    ensures r.Found? && n > 0 ==> IsLeastPrimeFrom(n, r.prime)
    ensures r.Found? ==> n <= r.prime < w.Modulus()
  {
    if n <= small[47] {
      forall i, j | 0 <= i < j < 48 ensures small[i] < small[j] { SmallPrimesSorted(small, i, j); }
      var k := LowerBound(small, n);
      SmallTableAnswer(small, n, k);
      return Found(small[k]);
    }
    if n > w.LargestPrime() {
      return OverflowError;
    }
    r := WheelSearch(n, w, small, indices, steps);
  }

  method WheelSearch(n: nat, w: Word, small: seq<nat>, indices: seq<nat>, steps: seq<nat>) returns (r: Outcome)
    requires 211 < n <= w.LargestPrime() && IsPrime(w.LargestPrime())
    requires PrimeTable(small) && WheelTable(indices, steps)
    ensures r.Found? && IsLeastPrimeFrom(n, r.prime) && r.prime <= w.LargestPrime()
  {
    var k0 := n / L;
    forall i, j | 0 <= i < j < 48 ensures indices[i] < indices[j] { IndicesSorted(indices, steps, i, j); }
    var ix := LowerBound(indices, n - k0 * L);
    FirstCandidate(indices, steps, n, k0, ix);
    r := SearchSpokes(n, k0, ix, w, small, indices, steps);
  }

  /** The outer loop, from the first candidate on. */
  method SearchSpokes(n: nat, k: nat, start: nat, w: Word, small: seq<nat>, indices: seq<nat>, steps: seq<nat>)
    returns (r: Outcome)
    requires IsPrime(w.LargestPrime()) && PrimeTable(small) && WheelTable(indices, steps)
    requires start < 48 && k >= 1 && 211 <= n <= L * k + indices[start]
    requires n <= w.LargestPrime() && NoPrimeIn(n, L * k + indices[start])
    ensures r.Found? && IsLeastPrimeFrom(n, r.prime) && r.prime <= w.LargestPrime()
  {
    var k0, ix := k, start;
    var m := Wrap(w, L * k0 + indices[ix]);
    while true
      invariant ix < 48 && k0 >= 1 && m == L * k0 + indices[ix] && n <= m <= w.LargestPrime()
      invariant NoPrimeIn(n, m)
      decreases w.LargestPrime() - m
    {
      assert FreeArc(indices, steps, k0, ix);
      var prime := TrialDivision(m, w, small, indices, steps);
      if prime {
        return Found(m);
      }
      NextCandidate(indices, steps, n, m, k0, ix);
      ix := ix + 1;
      if ix == 48 {
        k0 := k0 + 1;
        ix := 0;
      }
      m := Wrap(w, L * k0 + indices[ix]);
    }
  }

  lemma SmallTableAnswer(t: seq<nat>, n: nat, k: nat)
    requires PrimeTable(t) && n <= 211 && k <= 48
    requires forall i :: 0 <= i < k ==> t[i] < n
    requires forall i :: k <= i < 48 ==> t[i] >= n
    ensures k < 48 && n <= t[k] <= 211
    ensures if n == 0 then t[k] == 0 else IsLeastPrimeFrom(n, t[k])
  {
    if k < 47 { SmallPrimesSorted(t, k, 47); }
    if n > 0 {
      assert Consecutive(t[k - 1], t[k - 1 + 1]);
    }
  }

  lemma FirstCandidate(t: seq<nat>, s: seq<nat>, n: nat, k0: nat, ix: nat)
    requires WheelTable(t, s) && n > 211 && k0 == n / L && ix <= 48
    requires ix > 0 ==> t[ix - 1] < n - k0 * L
    requires ix < 48 ==> t[ix] >= n - k0 * L
    ensures ix < 48 && n <= L * k0 + t[ix]
    ensures NoPrimeIn(n, L * k0 + t[ix])
  {
    if ix == 0 {
      assert k0 >= 2;
      assert FreeArc(t, s, k0 - 1, 47);
    } else {
      assert FreeArc(t, s, k0, ix - 1);
    }
  }

  lemma NextCandidate(t: seq<nat>, s: seq<nat>, n: nat, m: nat, k0: nat, ix: nat)
    requires WheelTable(t, s) && k0 >= 1 && ix < 48 && m == L * k0 + t[ix] && !IsPrime(m) && NoPrimeIn(n, m)
    ensures NoPrimeIn(n, m + s[ix])
    ensures m + s[ix] == if ix == 47 then L * (k0 + 1) + t[0] else L * k0 + t[ix + 1]
    ensures s[ix] >= 2
  {
    assert FreeArc(t, s, k0, ix);
    assert t[ix] + s[ix] == Next(t, ix, L + 1);
    assert NoPrimeIn(m + 1, m + s[ix]);
  }
}
