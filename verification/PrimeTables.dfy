/**
 * The tables of the prime search: the small primes, the 48 residues modulo 210 that 2, 3, 5 and 7 do not
 * divide, and the increments of the trial divisor. Each table is proved to list exactly what the search
 * relies on.
 */
module PrimeTables {
  import opened Primes

  // The three tables, in rows of eight.

  const SMALL_0: seq<nat> := [17, 19, 23, 29, 31, 37, 41, 43]
  const SMALL_1: seq<nat> := [47, 53, 59, 61, 67, 71, 73, 79]
  const SMALL_2: seq<nat> := [83, 89, 97, 101, 103, 107, 109, 113]
  const SMALL_3: seq<nat> := [127, 131, 137, 139, 149, 151, 157, 163]
  const SMALL_4: seq<nat> := [167, 173, 179, 181, 191, 193, 197, 199]
  const SMALL_PRIMES: seq<nat> :=
    [0, 2, 3, 5, 7, 11, 13] + (SMALL_0 + SMALL_1 + SMALL_2 + SMALL_3 + SMALL_4) + [211]

  const INDICES_0: seq<nat> := [1, 11, 13, 17, 19, 23, 29, 31]
  const INDICES_1: seq<nat> := [37, 41, 43, 47, 53, 59, 61, 67]
  const INDICES_2: seq<nat> := [71, 73, 79, 83, 89, 97, 101, 103]
  const INDICES_3: seq<nat> := [107, 109, 113, 121, 127, 131, 137, 139]
  const INDICES_4: seq<nat> := [143, 149, 151, 157, 163, 167, 169, 173]
  const INDICES_5: seq<nat> := [179, 181, 187, 191, 193, 197, 199, 209]
  const INDICES: seq<nat> := INDICES_0 + INDICES_1 + INDICES_2 + INDICES_3 + INDICES_4 + INDICES_5

  const STEPS_0: seq<nat> := [10, 2, 4, 2, 4, 6, 2, 6]
  const STEPS_1: seq<nat> := [4, 2, 4, 6, 6, 2, 6, 4]
  const STEPS_2: seq<nat> := [2, 6, 4, 6, 8, 4, 2, 4]
  const STEPS_3: seq<nat> := [2, 4, 8, 6, 4, 6, 2, 4]
  const STEPS_4: seq<nat> := [6, 2, 6, 6, 4, 2, 4, 6]
  const STEPS_5: seq<nat> := [2, 6, 4, 2, 4, 2, 10, 2]
  /** The unrolled increments of the trial divisor, in the order of the source. */
  const STEPS: seq<nat> := STEPS_0 + STEPS_1 + STEPS_2 + STEPS_3 + STEPS_4 + STEPS_5

  const L := 210

  // ---- what the tables have to satisfy ----

  predicate Sieved(r: nat) {
    r % 2 == 0 || r % 3 == 0 || r % 5 == 0 || r % 7 == 0
  }

  predicate SievedTo13(d: nat) {
    Sieved(d) || d % 11 == 0 || d % 13 == 0
  }

  predicate AllSieved(a: nat, b: nat)
    decreases b - a
  {
    a >= b || (Sieved(a) && AllSieved(a + 1, b))
  }

  predicate AllSievedTo13(a: nat, b: nat)
    decreases b - a
  {
    a >= b || (SievedTo13(a) && AllSievedTo13(a + 1, b))
  }

  /** a is a spoke of the wheel and b the next one. */
  predicate Arc(a: nat, b: nat) {
    a + 2 <= b <= a + 10 && !Sieved(a) && AllSieved(a + 1, b)
  }

  predicate Spoke(a: nat, step: nat, b: nat) {
    Arc(a, b) && a + step == b
  }

  /** a is a small prime above 13 and b the next prime. */
  predicate Gap(a: nat, b: nat) {
    13 < a < b <= a + 14 && !SievedTo13(a) && AllSievedTo13(a + 1, b)
  }

  function Next(t: seq<nat>, j: nat, end: nat): nat {
    if j + 1 < |t| then t[j + 1] else end
  }

  /** t lists consecutive spokes, the one after the last is end, and s holds their distances. */
  predicate WheelChain(t: seq<nat>, s: seq<nat>, end: nat) {
    && |t| == |s|
    && forall j :: 0 <= j < |t| ==> Spoke(t[j], s[j], Next(t, j, end))
  }

  /** t lists consecutive primes above 13, and the one after the last is end. */
  predicate PrimeChain(t: seq<nat>, end: nat) {
    forall j :: 0 <= j < |t| ==> Gap(t[j], Next(t, j, end))
  }

  predicate IsWheel(t: seq<nat>, s: seq<nat>) {
    |t| == 48 && t[0] == 1 && t[47] == 209 && WheelChain(t, s, L + 1)
  }

  predicate IsSmallTable(t: seq<nat>) {
    && |t| == 48 && t[0] == 0 && t[1] == 2 && t[2] == 3 && t[3] == 5 && t[4] == 7 && t[5] == 11 && t[6] == 13
    && t[7] == 17 && t[47] == 211 && forall j :: 7 <= j < 47 ==> Gap(t[j], t[j + 1])
  }

  // ---- the tables satisfy it ----

  predicate Arcs(a0: nat, a1: nat, a2: nat, a3: nat, a4: nat, a5: nat, a6: nat, a7: nat, a8: nat) {
    && Arc(a0, a1) && Arc(a1, a2) && Arc(a2, a3) && Arc(a3, a4)
    && Arc(a4, a5) && Arc(a5, a6) && Arc(a6, a7) && Arc(a7, a8)
  }

  predicate Gaps(a0: nat, a1: nat, a2: nat, a3: nat, a4: nat, a5: nat, a6: nat, a7: nat, a8: nat) {
    && Gap(a0, a1) && Gap(a1, a2) && Gap(a2, a3) && Gap(a3, a4)
    && Gap(a4, a5) && Gap(a5, a6) && Gap(a6, a7) && Gap(a7, a8)
  }

  lemma WheelRow0()
    ensures WheelChain(INDICES_0, STEPS_0, 37)
  {
    assert Arcs(1, 11, 13, 17, 19, 23, 29, 31, 37);
  }

  lemma WheelRow1()
    ensures WheelChain(INDICES_1, STEPS_1, 71)
  {
    assert Arcs(37, 41, 43, 47, 53, 59, 61, 67, 71);
  }

  lemma WheelRow2()
    ensures WheelChain(INDICES_2, STEPS_2, 107)
  {
    assert Arcs(71, 73, 79, 83, 89, 97, 101, 103, 107);
  }

  lemma WheelRow3()
    ensures WheelChain(INDICES_3, STEPS_3, 143)
  {
    assert Arcs(107, 109, 113, 121, 127, 131, 137, 139, 143);
  }

  lemma WheelRow4()
    ensures WheelChain(INDICES_4, STEPS_4, 179)
  {
    assert Arcs(143, 149, 151, 157, 163, 167, 169, 173, 179);
  }

  lemma WheelRow5()
    ensures WheelChain(INDICES_5, STEPS_5, 211)
  {
    assert Arcs(179, 181, 187, 191, 193, 197, 199, 209, 211);
  }

  lemma SmallRow0()
    ensures PrimeChain(SMALL_0, 47)
  {
    assert Gaps(17, 19, 23, 29, 31, 37, 41, 43, 47);
  }

  lemma SmallRow1()
    ensures PrimeChain(SMALL_1, 83)
  {
    assert Gaps(47, 53, 59, 61, 67, 71, 73, 79, 83);
  }

  lemma SmallRow2()
    ensures PrimeChain(SMALL_2, 127)
  {
    assert Gaps(83, 89, 97, 101, 103, 107, 109, 113, 127);
  }

  lemma SmallRow3()
    ensures PrimeChain(SMALL_3, 167)
  {
    assert Gaps(127, 131, 137, 139, 149, 151, 157, 163, 167);
  }

  lemma SmallRow4()
    ensures PrimeChain(SMALL_4, 211)
  {
    assert Gaps(167, 173, 179, 181, 191, 193, 197, 199, 211);
  }

  lemma JoinWheel(t: seq<nat>, s: seq<nat>, t': seq<nat>, s': seq<nat>, end: nat)
    requires t' != [] && WheelChain(t, s, t'[0]) && WheelChain(t', s', end)
    ensures WheelChain(t + t', s + s', end)
  {
    forall j | 0 <= j < |t + t'| ensures Spoke((t + t')[j], (s + s')[j], Next(t + t', j, end)) {
      if j < |t| {
        assert Spoke(t[j], s[j], Next(t, j, t'[0]));
      } else {
        assert Spoke(t'[j - |t|], s'[j - |t|], Next(t', j - |t|, end));
      }
    }
  }

  lemma JoinPrimes(t: seq<nat>, t': seq<nat>, end: nat)
    requires t' != [] && PrimeChain(t, t'[0]) && PrimeChain(t', end)
    ensures PrimeChain(t + t', end)
  {
    forall j | 0 <= j < |t + t'| ensures Gap((t + t')[j], Next(t + t', j, end)) {
      if j < |t| {
        assert Gap(t[j], Next(t, j, t'[0]));
      } else {
        assert Gap(t'[j - |t|], Next(t', j - |t|, end));
      }
    }
  }

  lemma WheelHolds()
    ensures IsWheel(INDICES, STEPS)
  {
    WheelRow0();
    WheelRow1();
    JoinWheel(INDICES_0, STEPS_0, INDICES_1, STEPS_1, INDICES_2[0]);
    WheelRow2();
    JoinWheel(INDICES_0 + INDICES_1, STEPS_0 + STEPS_1, INDICES_2, STEPS_2, INDICES_3[0]);
    WheelRow3();
    JoinWheel(INDICES_0 + INDICES_1 + INDICES_2, STEPS_0 + STEPS_1 + STEPS_2, INDICES_3, STEPS_3, INDICES_4[0]);
    WheelRow4();
    JoinWheel(INDICES_0 + INDICES_1 + INDICES_2 + INDICES_3, STEPS_0 + STEPS_1 + STEPS_2 + STEPS_3,
              INDICES_4, STEPS_4, INDICES_5[0]);
    WheelRow5();
    JoinWheel(INDICES_0 + INDICES_1 + INDICES_2 + INDICES_3 + INDICES_4,
              STEPS_0 + STEPS_1 + STEPS_2 + STEPS_3 + STEPS_4, INDICES_5, STEPS_5, L + 1);
  }

  lemma SmallTableHolds()
    ensures IsSmallTable(SMALL_PRIMES)
  {
    SmallRow0();
    SmallRow1();
    JoinPrimes(SMALL_0, SMALL_1, SMALL_2[0]);
    SmallRow2();
    JoinPrimes(SMALL_0 + SMALL_1, SMALL_2, SMALL_3[0]);
    SmallRow3();
    JoinPrimes(SMALL_0 + SMALL_1 + SMALL_2, SMALL_3, SMALL_4[0]);
    SmallRow4();
    JoinPrimes(SMALL_0 + SMALL_1 + SMALL_2 + SMALL_3, SMALL_4, 211);
    ReadSmallTable(SMALL_0 + SMALL_1 + SMALL_2 + SMALL_3 + SMALL_4);
  }

  lemma ReadTiny(c: seq<nat>)
    ensures var t := [0, 2, 3, 5, 7, 11, 13] + c;
            t[0] == 0 && t[1] == 2 && t[2] == 3 && t[3] == 5 && t[4] == 7 && t[5] == 11 && t[6] == 13
  {
  }

  lemma ReadSmallTable(c: seq<nat>)
    requires |c| == 40 && c[0] == 17 && PrimeChain(c, 211)
    ensures IsSmallTable([0, 2, 3, 5, 7, 11, 13] + c + [211])
  {
    var t := [0, 2, 3, 5, 7, 11, 13] + c + [211];
    ReadTiny(c);
    forall j | 7 <= j < 47 ensures Gap(t[j], t[j + 1]) {
      assert Gap(c[j - 7], Next(c, j - 7, 211));
    }
  }

  // ---- what the search relies on ----

  lemma {:induction false} AllSievedAt(a: nat, b: nat, d: nat)
    requires AllSieved(a, b) && a <= d < b
    ensures Sieved(d)
    decreases b - a
  {
    if a < d { AllSievedAt(a + 1, b, d); }
  }

  lemma {:induction false} AllSievedTo13At(a: nat, b: nat, d: nat)
    requires AllSievedTo13(a, b) && a <= d < b
    ensures SievedTo13(d)
    decreases b - a
  {
    if a < d { AllSievedTo13At(a + 1, b, d); }
  }

  lemma SievedShift(k: nat, r: nat)
    ensures Sieved(L * k + r) == Sieved(r)
  {
    ModShift(2, 105 * k, r);
    ModShift(3, 70 * k, r);
    ModShift(5, 42 * k, r);
    ModShift(7, 30 * k, r);
  }

  lemma SievedIsComposite(d: nat)
    requires SievedTo13(d) && (d > 13 || (d > 7 && Sieved(d)) || (d > 3 && d % 2 == 0))
    ensures !IsPrime(d)
  {
    var e := if d % 2 == 0 then 2 else if d % 3 == 0 then 3 else if d % 5 == 0 then 5 else
             if d % 7 == 0 then 7 else if d % 11 == 0 then 11 else 13;
    assert Divides(e, d);
  }

  lemma ProperFactor(n: nat, e: nat, d: nat)
    requires e > 0 && d > 0 && d % e == 0 && n % e != 0
    ensures !Divides(d, n)
  {
    if Divides(d, n) { DividesTransitive(e, d, n); }
  }

  lemma UnsievedBelow11(n: nat)
    requires !Sieved(n)
    ensures NoDivisorBelow(n, 11)
  {
    forall d | 2 <= d < 11 ensures !Divides(d, n) {
      ProperFactor(n, if d % 2 == 0 then 2 else if d % 3 == 0 then 3 else d, d);
    }
  }

  lemma UnsievedIsPrime(n: nat)
    requires 13 < n < 289 && !SievedTo13(n)
    ensures IsPrime(n)
  {
    UnsievedBelow11(n);
    forall d | 11 <= d < 17 ensures !Divides(d, n) {
      ProperFactor(n, if d % 2 == 0 then 2 else if d % 3 == 0 then 3 else d, d);
    }
    SmallQuotientIsPrime(n, 17);
  }

  lemma TinyPrimes(p: nat)
    requires p == 2 || p == 3 || p == 5 || p == 7 || p == 11 || p == 13
    ensures IsPrime(p)
  {
  }

  /** Every entry but the first is a prime, and no prime is left out between two neighbours. */
  ghost predicate PrimeTable(t: seq<nat>) {
    && |t| == 48 && t[0] == 0 && t[5] == 11 && t[47] == 211
    && (forall j :: 1 <= j < 48 ==> IsPrime(t[j]))
    && (forall j :: 0 <= j < 47 ==> Consecutive(t[j], t[j + 1]))
  }

  ghost predicate Consecutive(a: nat, b: nat) {
    a < b && NoPrimeIn(a + 1, b)
  }

  /**
   * The spokes of every turn but the first have no divisor in [2, 10], no prime lies between a spoke and
   * the next one, and the increments lead from each spoke to the next.
   */
  ghost predicate WheelTable(t: seq<nat>, s: seq<nat>) {
    && |t| == |s| == 48 && t[0] == 1 && t[47] == 209
    && (forall j :: 0 <= j < 48 ==> t[j] + s[j] == Next(t, j, L + 1) && 2 <= s[j] <= 10)
    && (forall k: nat, j: nat :: k >= 1 && j < 48 ==> FreeArc(t, s, k, j))
  }

  ghost predicate FreeArc(t: seq<nat>, s: seq<nat>, k: nat, j: nat)
    requires j < |t| == |s|
  {
    NoDivisorBelow(L * k + t[j], 11) && NoPrimeIn(L * k + t[j] + 1, L * k + t[j] + s[j])
  }

  lemma GapFacts(a: nat, b: nat)
    requires Gap(a, b) && a < 289
    ensures IsPrime(a) && Consecutive(a, b)
  {
    UnsievedIsPrime(a);
    forall d | a < d < b ensures !IsPrime(d) {
      AllSievedTo13At(a + 1, b, d);
      SievedIsComposite(d);
    }
  }

  lemma {:induction false} SmallTableBound(t: seq<nat>, j: nat)
    requires IsSmallTable(t) && 7 <= j < 48
    ensures t[j] <= 211
    decreases 48 - j
  {
    if j < 47 {
      SmallTableBound(t, j + 1);
      assert Gap(t[j], t[j + 1]);
    }
  }

  lemma SmallPrimesComplete()
    ensures PrimeTable(SMALL_PRIMES)
  {
    SmallTableHolds();
    IsPrimeTable(SMALL_PRIMES);
  }

  lemma IsPrimeTable(t: seq<nat>)
    requires IsSmallTable(t)
    ensures PrimeTable(t)
  {
    forall j | 1 <= j < 48 ensures IsPrime(t[j]) {
      if j < 7 {
        TinyPrimes(t[j]);
      } else if j < 47 {
        SmallTableBound(t, j);
        GapFacts(t[j], t[j + 1]);
      } else {
        UnsievedIsPrime(211);
      }
    }
    forall j | 0 <= j < 47 ensures Consecutive(t[j], t[j + 1]) {
      if j < 7 {
        TinyGaps(t[j], t[j + 1]);
      } else {
        SmallTableBound(t, j);
        GapFacts(t[j], t[j + 1]);
      }
    }
  }

  lemma TinyGaps(a: nat, b: nat)
    requires (a, b) in {(0, 2), (2, 3), (3, 5), (5, 7), (7, 11), (11, 13), (13, 17)}
    ensures Consecutive(a, b)
  {
    forall d | a < d < b ensures !IsPrime(d) {
      if d > 1 { SievedIsComposite(d); }
    }
  }

  lemma WheelComplete()
    ensures WheelTable(INDICES, STEPS)
  {
    WheelHolds();
    IsWheelTable(INDICES, STEPS);
  }

  lemma SpokeAt(t: seq<nat>, s: seq<nat>, j: nat)
    requires WheelChain(t, s, L + 1) && j < |t|
    ensures t[j] + s[j] == Next(t, j, L + 1) && 2 <= s[j] <= 10 && Arc(t[j], t[j] + s[j])
  {
  }

  lemma FreeArcAt(t: seq<nat>, s: seq<nat>, k: nat, j: nat)
    requires j < |t| == |s| && Arc(t[j], t[j] + s[j]) && k >= 1
    ensures FreeArc(t, s, k, j)
  {
    ArcIsFree(t[j], s[j], k);
  }

  lemma IsWheelTable(t: seq<nat>, s: seq<nat>)
    requires |t| == 48 && t[0] == 1 && t[47] == 209 && WheelChain(t, s, L + 1)
    ensures WheelTable(t, s)
  {
    forall j | 0 <= j < 48 ensures t[j] + s[j] == Next(t, j, L + 1) && 2 <= s[j] <= 10 {
      SpokeAt(t, s, j);
    }
    forall k: nat, j: nat | k >= 1 && j < 48 ensures FreeArc(t, s, k, j) {
      SpokeAt(t, s, j);
      FreeArcAt(t, s, k, j);
    }
  }

  lemma ArcIsFree(a: nat, step: nat, k: nat)
    requires Arc(a, a + step) && k >= 1
    ensures NoDivisorBelow(L * k + a, 11) && NoPrimeIn(L * k + a + 1, L * k + a + step)
  {
    SievedShift(k, a);
    UnsievedBelow11(L * k + a);
    forall d | L * k + a < d < L * k + a + step ensures !IsPrime(d) {
      AllSievedAt(a + 1, a + step, d - L * k);
      SievedShift(k, d - L * k);
      SievedIsComposite(d);
    }
  }
}
