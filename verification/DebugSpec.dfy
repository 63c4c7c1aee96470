/** What the debug database means: a map from iterators to optional containers, beside the set of containers. */
module DebugSpec {
  type Ptr = nat

  datatype Option<T> = None | Some(value: T)

  datatype State = State(owner: map<Ptr, Option<Ptr>>, containers: set<Ptr>) {
    /** No iterator points to a container that is not registered. */
    ghost predicate WellFormed() {
      forall i :: i in owner && owner[i].Some? ==> owner[i].value in containers
    }
  }

  datatype Op =
    | InsertC(c: Ptr) | InsertI(i: Ptr) | InsertIC(i: Ptr, c: Ptr)
    | EraseI(i: Ptr) | EraseC(c: Ptr) | InvalidateAll(c: Ptr)
    | IteratorCopy(i: Ptr, i0: Ptr) | Swap(c: Ptr, d: Ptr)

  /** What the callers owe: new keys are fresh, and only registered containers are swapped. */
  ghost predicate Legal(op: Op, s: State) {
    match op
    case InsertC(c) => c !in s.containers
    case InsertI(i) => i !in s.owner
    case InsertIC(i, c) => i !in s.owner
    case Swap(c, d) => c in s.containers && d in s.containers
    case _ => true
  }

  ghost function Invalidated(owner: map<Ptr, Option<Ptr>>, c: Ptr): map<Ptr, Option<Ptr>> {
    map i | i in owner :: if owner[i] == Some(c) then None else owner[i]
  }

  ghost function Exchanged(owner: map<Ptr, Option<Ptr>>, c: Ptr, d: Ptr): map<Ptr, Option<Ptr>> {
    map i | i in owner :: if owner[i] == Some(c) then Some(d) else if owner[i] == Some(d) then Some(c) else owner[i]
  }

  ghost function Apply(op: Op, s: State): State {
    match op
    case InsertC(c) => s.(containers := s.containers + {c})
    case InsertI(i) => s.(owner := s.owner[i := None])
    case InsertIC(i, c) => if c in s.containers then s.(owner := s.owner[i := Some(c)]) else s
    case EraseI(i) => s.(owner := s.owner - {i})
    case EraseC(c) => State(Invalidated(s.owner, c), s.containers - {c})
    case InvalidateAll(c) => s.(owner := Invalidated(s.owner, c))
    case IteratorCopy(i, i0) =>
      if i0 in s.owner then s.(owner := s.owner[i := s.owner[i0]])
      else if i in s.owner then s.(owner := s.owner[i := None])
      else s
    case Swap(c, d) => s.(owner := Exchanged(s.owner, c, d))
  }

  ghost function ApplyAll(ops: seq<Op>, s: State): State {
    if ops == [] then s else ApplyAll(ops[1..], Apply(ops[0], s))
  }

  ghost predicate LegalRun(ops: seq<Op>, s: State) {
    ops == [] || (Legal(ops[0], s) && LegalRun(ops[1..], Apply(ops[0], s)))
  }

  lemma ApplyWellFormed(op: Op, s: State)
    requires s.WellFormed() && Legal(op, s)
    ensures Apply(op, s).WellFormed()
  {
  }

  /** After any part of a legal run no iterator points to an erased container. */
  lemma {:induction false} RunWellFormed(ops: seq<Op>, k: nat, s: State)
    requires s.WellFormed() && k <= |ops| && LegalRun(ops, s)
    ensures ApplyAll(ops[..k], s).WellFormed()
  {
    if k > 0 {
      ApplyWellFormed(ops[0], s);
      RunWellFormed(ops[1..], k - 1, Apply(ops[0], s));
      assert ops[..k][1..] == ops[1..][..k - 1];
    }
  }

  lemma SubsetSize<T>(a: set<T>, b: set<T>)
    requires a <= b
    ensures |a| <= |b|
  {
    assert b == a + (b - a);
  }

  /** A call adds at most one iterator and at most one container. */
  lemma ApplyGrows(op: Op, s: State)
    ensures |Apply(op, s).owner| <= |s.owner| + 1 && |Apply(op, s).containers| <= |s.containers| + 1
  {
    var p := match op
      case InsertC(c) => c
      case InsertI(i) => i
      case InsertIC(i, _) => i
      case IteratorCopy(i, _) => i
      case _ => 0;
    SubsetSize(Apply(op, s).owner.Keys, s.owner.Keys + {p});
    SubsetSize(Apply(op, s).containers, s.containers + {p});
  }

  lemma {:induction false} RunGrows(ops: seq<Op>, k: nat, s: State)
    requires k <= |ops|
    ensures var s' := ApplyAll(ops[..k], s); |s'.owner| <= |s.owner| + k && |s'.containers| <= |s.containers| + k
  {
    hide Apply;
    if k > 0 {
      ApplyGrows(ops[0], s);
      RunGrows(ops[1..], k - 1, Apply(ops[0], s));
      assert ops[..k][1..] == ops[1..][..k - 1];
    }
  }

  lemma {:induction false} ApplyOneMore(ops: seq<Op>, k: nat, s: State)
    requires k < |ops| && LegalRun(ops, s)
    ensures ApplyAll(ops[..k + 1], s) == Apply(ops[k], ApplyAll(ops[..k], s))
    ensures Legal(ops[k], ApplyAll(ops[..k], s))
  {
    if k > 0 {
      ApplyOneMore(ops[1..], k - 1, Apply(ops[0], s));
      assert ops[..k + 1][1..] == ops[1..][..k] && ops[..k][1..] == ops[1..][..k - 1];
    } else {
      assert ops[..1][1..] == [];
    }
  }
}
