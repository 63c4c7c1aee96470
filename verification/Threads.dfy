/**
 * Threads as a sequence of program counters, and counting those of a kind.
 */
module Threads {

  function Count<P>(pc: seq<P>, kind: P -> bool): (n: nat)
    ensures n <= |pc|
  {
    if pc == [] then 0 else (if kind(pc[0]) then 1 else 0) + Count(pc[1..], kind)
  }

  function One(b: bool): nat {
    if b then 1 else 0
  }

  lemma CountMove<P>(pc: seq<P>, t: nat, p: P, kind: P -> bool)
    requires t < |pc|
    ensures Count(pc[t := p], kind) + One(kind(pc[t])) == Count(pc, kind) + One(kind(p))
  {
    if t > 0 {
      CountMove(pc[1..], t - 1, p, kind);
      assert pc[t := p][1..] == pc[1..][t - 1 := p];
    }
  }

  lemma CountSome<P>(pc: seq<P>, kind: P -> bool)
    ensures Count(pc, kind) > 0 <==> exists t :: 0 <= t < |pc| && kind(pc[t])
  {
    if pc != [] {
      CountSome(pc[1..], kind);
      if Count(pc[1..], kind) > 0 {
        var t :| 0 <= t < |pc[1..]| && kind(pc[1..][t]);
        assert kind(pc[t + 1]);
      }
    }
  }

  lemma CountTwo<P>(pc: seq<P>, t: nat, u: nat, kind: P -> bool)
    requires t < u < |pc| && kind(pc[t]) && kind(pc[u])
    ensures Count(pc, kind) >= 2
  {
    if t > 0 {
      CountTwo(pc[1..], t - 1, u - 1, kind);
    } else {
      assert kind(pc[1..][u - 1]);
      CountSome(pc[1..], kind);
    }
  }

  /** Moving threads about outside of a kind leaves its number alone. */
  lemma CountSame<P>(pc: seq<P>, pc': seq<P>, kind: P -> bool)
    requires |pc| == |pc'| && forall t :: 0 <= t < |pc| ==> kind(pc[t]) == kind(pc'[t])
    ensures Count(pc, kind) == Count(pc', kind)
  {
  }

  lemma CountApart<P>(pc: seq<P>, kind: P -> bool, other: P -> bool)
    requires forall t :: 0 <= t < |pc| ==> !(kind(pc[t]) && other(pc[t]))
    ensures Count(pc, kind) + Count(pc, other) <= |pc|
  {
  }

  lemma CountCovers<P>(pc: seq<P>, kind: P -> bool, other: P -> bool)
    requires forall t :: 0 <= t < |pc| ==> kind(pc[t]) || other(pc[t])
    ensures Count(pc, kind) + Count(pc, other) >= |pc|
  {
  }

  // ---- totals ----

  function Sum<P>(pc: seq<P>, of: P -> nat): nat {
    if pc == [] then 0 else of(pc[0]) + Sum(pc[1..], of)
  }

  lemma SumMove<P>(pc: seq<P>, t: nat, p: P, of: P -> nat)
    requires t < |pc|
    ensures Sum(pc[t := p], of) + of(pc[t]) == Sum(pc, of) + of(p)
  {
    if t > 0 {
      SumMove(pc[1..], t - 1, p, of);
      assert pc[t := p][1..] == pc[1..][t - 1 := p];
    }
  }

  lemma SumPart<P>(pc: seq<P>, t: nat, of: P -> nat)
    requires t < |pc|
    ensures of(pc[t]) <= Sum(pc, of)
  {
    if t > 0 {
      SumPart(pc[1..], t - 1, of);
    }
  }

  lemma Moved<P>(pc: seq<P>, t: nat, p: P, of: P -> nat)
    requires t < |pc|
    ensures of(pc[t]) <= Sum(pc, of) && Sum(pc[t := p], of) == Sum(pc, of) - of(pc[t]) + of(p)
  {
    SumMove(pc, t, p, of);
    SumPart(pc, t, of);
  }

  lemma SumNothing<P>(pc: seq<P>, of: P -> nat)
    ensures Sum(pc, of) == 0 <==> forall t :: 0 <= t < |pc| ==> of(pc[t]) == 0
  {
  }
}
