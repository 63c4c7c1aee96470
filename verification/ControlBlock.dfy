/**
 * The control block of shared and weak pointers as a step system: every atomic operation on one of the two counts is
 * an action, and so are the calls that destroy the object and free the block. Counts are one less than the owners.
 */
module ControlBlock {

  import opened Threads

  /** Where a thread is: about to destroy the object, in __release_weak, about to free the block, or in lock's loop. */
  datatype Pc = Idle | Destroying | LoadingWeak | TakingWeak | FreeingUncounted | Freeing | Locking(seen: int)

  /** A thread and the pointers it owns. */
  datatype Owner = Owner(pc: Pc, shared: nat, weak: nat)

  datatype State = State(shared: int, weak: int, destroyed: nat, freed: nat, owners: seq<Owner>) {
    function To(t: nat, o: Owner): State
      requires t < |owners|
    {
      this.(owners := owners[t := o])
    }

    function At(t: nat, p: Pc): State
      requires t < |owners|
    {
      To(t, owners[t].(pc := p))
    }
  }

  datatype Action =
    | CopyShared(t: nat) | CopyWeak(t: nat) | Give(t: nat, to: nat, sharedPtr: bool)
    | DropShared(t: nat) | Destroy(t: nat)
    | DropWeak(t: nat) | LoadWeak(t: nat) | TakeWeak(t: nat) | Free(t: nat)
    | BeginLock(t: nat) | TryLock(t: nat)

  /** A thread may do only what its own pointers allow. */
  predicate Enabled(s: State, a: Action) {
    && a.t < |s.owners|
    && var o := s.owners[a.t];
      match a
      case CopyShared(t) => o.pc == Idle && o.shared > 0
      case CopyWeak(t) => o.pc == Idle && o.shared + o.weak > 0
      case Give(t, to, sharedPtr) =>
        o.pc == Idle && to < |s.owners| && to != t && (if sharedPtr then o.shared > 0 else o.weak > 0)
      case DropShared(t) => o.pc == Idle && o.shared > 0
      case Destroy(t) => o.pc == Destroying
      case DropWeak(t) => o.pc == Idle && o.weak > 0
      case LoadWeak(t) => o.pc == LoadingWeak
      case TakeWeak(t) => o.pc == TakingWeak
      case Free(t) => o.pc == Freeing || o.pc == FreeingUncounted
      case BeginLock(t) => o.pc == Idle && o.weak > 0
      case TryLock(t) => o.pc.Locking?
  }

  function Apply(s: State, a: Action): (s': State)
    requires Enabled(s, a)
    ensures |s'.owners| == |s.owners|
  {
    var t := a.t;
    var o := s.owners[t];
    match a
    case CopyShared(_) => s.(shared := s.shared + 1).To(t, o.(shared := o.shared + 1))
    case CopyWeak(_) => s.(weak := s.weak + 1).To(t, o.(weak := o.weak + 1))
    case Give(_, to, sharedPtr) =>
      var p := s.owners[to];
      if sharedPtr then s.To(t, o.(shared := o.shared - 1)).To(to, p.(shared := p.shared + 1))
      else s.To(t, o.(weak := o.weak - 1)).To(to, p.(weak := p.weak + 1))
    case DropShared(_) =>
      s.(shared := s.shared - 1).To(t, Owner(if s.shared - 1 == -1 then Destroying else Idle, o.shared - 1, o.weak))
    case Destroy(_) => s.(destroyed := s.destroyed + 1).At(t, LoadingWeak)
    case DropWeak(_) => s.To(t, Owner(LoadingWeak, o.shared, o.weak - 1))
    case LoadWeak(_) => s.At(t, if s.weak == 0 then FreeingUncounted else TakingWeak)
    case TakeWeak(_) => s.(weak := s.weak - 1).At(t, if s.weak - 1 == -1 then Freeing else Idle)
    case Free(_) => s.(freed := s.freed + 1).At(t, Idle)
    case BeginLock(_) => s.At(t, Locking(s.shared))
    case TryLock(_) =>
      if o.pc.seen == -1 then s.At(t, Idle)
      else if s.shared == o.pc.seen then s.(shared := o.pc.seen + 1).To(t, Owner(Idle, o.shared + 1, o.weak))
      else s.At(t, Locking(s.shared))
  }

  /** The block is made with one shared pointer, owned by the first thread. */
  function Start(n: nat): State
    requires n > 0
  {
    State(0, 0, 0, 0, [Owner(Idle, 1, 0)] + seq(n - 1, _ => Owner(Idle, 0, 0)))
  }

  predicate LegalRun(s: State, run: seq<Action>)
    decreases |run|
  {
    run == [] || (Enabled(s, run[0]) && LegalRun(Apply(s, run[0]), run[1..]))
  }

  function After(s: State, run: seq<Action>): State
    requires LegalRun(s, run)
    decreases |run|
  {
    if run == [] then s else After(Apply(s, run[0]), run[1..])
  }

  // ---- what the counts count ----

  function SharedOf(o: Owner): nat { o.shared }

  function WeakOf(o: Owner): nat { o.weak }

  function ReleasingOf(o: Owner): nat { One(o.pc == LoadingWeak || o.pc == TakingWeak) }

  function UncountedOf(o: Owner): nat { One(o.pc == FreeingUncounted) }

  function DestroyingOf(o: Owner): nat { One(o.pc == Destroying) }

  function FreeingOf(o: Owner): nat { One(o.pc == Freeing) }

  datatype Totals = Totals(shared: nat, weak: nat, releasing: nat, uncounted: nat, destroying: nat, freeing: nat) {
    /** The weak count that the shared pointers hold together, until the object is destroyed. */
    function Group(): nat { One(shared > 0) + destroying }

    /** Everything that keeps the block. */
    function Keeping(): nat { weak + releasing + uncounted + Group() }
  }

  function TotalsOf(s: State): Totals {
    Totals(Sum(s.owners, SharedOf), Sum(s.owners, WeakOf), Sum(s.owners, ReleasingOf), Sum(s.owners, UncountedOf),
           Sum(s.owners, DestroyingOf), Sum(s.owners, FreeingOf))
  }

  ghost predicate Inv(s: State) {
    var k := TotalsOf(s);
    && (forall t :: 0 <= t < |s.owners| && s.owners[t].pc.Locking? ==>
          s.owners[t].weak > 0 && s.owners[t].pc.seen >= -1 && (s.owners[t].pc.seen == -1 ==> s.shared == -1))
    && s.shared + 1 == k.shared
    && s.destroyed + k.Group() == 1
    && (s.freed == 0 ==> s.weak + 1 == k.Keeping() && k.freeing == One(k.Keeping() == 0))
    && (s.freed > 0 ==> s.freed == 1 && k.Keeping() + k.freeing == 0)
    && (k.uncounted > 0 ==> k.Keeping() == 1)
  }

  lemma TotalsMove(s: State, t: nat, o: Owner)
    requires t < |s.owners|
    ensures var k, k', was := TotalsOf(s), TotalsOf(s.To(t, o)), s.owners[t];
      && SharedOf(was) <= k.shared && k'.shared == k.shared - SharedOf(was) + SharedOf(o)
      && WeakOf(was) <= k.weak && k'.weak == k.weak - WeakOf(was) + WeakOf(o)
      && ReleasingOf(was) <= k.releasing && k'.releasing == k.releasing - ReleasingOf(was) + ReleasingOf(o)
      && UncountedOf(was) <= k.uncounted && k'.uncounted == k.uncounted - UncountedOf(was) + UncountedOf(o)
      && DestroyingOf(was) <= k.destroying && k'.destroying == k.destroying - DestroyingOf(was) + DestroyingOf(o)
      && FreeingOf(was) <= k.freeing && k'.freeing == k.freeing - FreeingOf(was) + FreeingOf(o)
  {
    var os := s.owners;
    Moved(os, t, o, SharedOf);
    Moved(os, t, o, WeakOf);
    Moved(os, t, o, ReleasingOf);
    Moved(os, t, o, UncountedOf);
    Moved(os, t, o, DestroyingOf);
    Moved(os, t, o, FreeingOf);
  }

  lemma TotalsAre(s: State, s': State)
    requires s.owners == s'.owners
    ensures TotalsOf(s) == TotalsOf(s')
  {
  }

  lemma StepInv(s: State, a: Action)
    requires Inv(s) && Enabled(s, a)
    ensures Inv(Apply(s, a))
  {
    if a.Give? {
      GiveInv(s, a.t, a.to, a.sharedPtr);
    } else {
      MoveInv(s, a);
    }
  }

  lemma GiveInv(s: State, t: nat, to: nat, sharedPtr: bool)
    requires Inv(s) && Enabled(s, Give(t, to, sharedPtr))
    ensures Inv(Apply(s, Give(t, to, sharedPtr)))
  {
    hide TotalsOf;
    var s' := Apply(s, Give(t, to, sharedPtr));
    var o := s.owners[t];
    var mid := if sharedPtr then s.To(t, o.(shared := o.shared - 1)) else s.To(t, o.(weak := o.weak - 1));
    TotalsMove(s, t, mid.owners[t]);
    TotalsMove(mid, to, s'.owners[to]);
    TotalsAre(mid.To(to, s'.owners[to]), s');
  }

  lemma MoveInv(s: State, a: Action)
    requires Inv(s) && Enabled(s, a) && !a.Give?
    ensures Inv(Apply(s, a))
  {
    hide TotalsOf;
    var s' := Apply(s, a);
    TotalsMove(s, a.t, s'.owners[a.t]);
    TotalsAre(s.To(a.t, s'.owners[a.t]), s');
  }

  lemma StartInv(n: nat)
    requires n > 0
    ensures Inv(Start(n))
  {
    hide TotalsOf, Inv;
    var nobody := State(0, 0, 0, 0, seq(n, _ => Owner(Idle, 0, 0)));
    NoTotals(nobody);
    TotalsMove(nobody, 0, Owner(Idle, 1, 0));
    assert Start(n) == nobody.To(0, Owner(Idle, 1, 0));
    FirstInv(Start(n));
  }

  lemma FirstInv(s: State)
    requires TotalsOf(s) == Totals(1, 0, 0, 0, 0, 0) && s.shared == s.weak == 0 && s.destroyed == s.freed == 0
    requires forall t :: 0 <= t < |s.owners| ==> s.owners[t].pc == Idle
    ensures Inv(s)
  {
    hide TotalsOf;
  }

  lemma {:induction false} RunInv(s: State, run: seq<Action>)
    requires Inv(s) && LegalRun(s, run)
    ensures Inv(After(s, run))
    decreases |run|
  {
    if run != [] {
      StepInv(s, run[0]);
      RunInv(Apply(s, run[0]), run[1..]);
    }
  }

  // ---- what every run keeps ----

  /** The count is -1 exactly when no shared pointer is owned, and while one is, object and block live. */
  ghost predicate ObjectKept(s: State) {
    && s.destroyed <= 1 && s.shared >= -1
    && (s.shared == -1 <==> forall t :: 0 <= t < |s.owners| ==> s.owners[t].shared == 0)
    && (s.shared >= 0 ==> s.destroyed == 0 && s.freed == 0)
  }

  lemma KeepsObject(s: State)
    requires Inv(s)
    ensures ObjectKept(s)
  {
    hide Sum;
    SumNothing(s.owners, SharedOf);
    assert forall t :: 0 <= t < |s.owners| ==> SharedOf(s.owners[t]) == s.owners[t].shared;
  }

  /** While a shared pointer is owned the object lives; once destroyed it has no owner, ever, and the count says so. */
  lemma ObjectLifetime(n: nat, run: seq<Action>)
    requires n > 0 && LegalRun(Start(n), run)
    ensures ObjectKept(After(Start(n), run))
  {
    hide After, LegalRun, Start;
    StartInv(n);
    RunInv(Start(n), run);
    KeepsObject(After(Start(n), run));
  }

  ghost predicate BlockKept(s: State) {
    s.freed <= 1 && (s.freed == 1 ==> s.destroyed == 1 && forall a: Action :: !Enabled(s, a))
  }

  lemma KeepsBlock(s: State)
    requires Inv(s)
    ensures BlockKept(s)
  {
    if s.freed == 1 {
      forall a: Action | Enabled(s, a)
        ensures false
      {
        TotalsMove(s, a.t, s.owners[a.t]);
      }
    }
  }

  /** The block is freed at most once, after the object, and after that no thread can touch it again. */
  lemma BlockLifetime(n: nat, run: seq<Action>)
    requires n > 0 && LegalRun(Start(n), run)
    ensures BlockKept(After(Start(n), run))
  {
    hide After, LegalRun, Start;
    StartInv(n);
    RunInv(Start(n), run);
    KeepsBlock(After(Start(n), run));
  }

  /** t is the last to have anything to do with the block. */
  ghost predicate Last(s: State, t: nat) {
    && s.freed == 0 && s.destroyed == 1
    && forall u :: 0 <= u < |s.owners| ==> s.owners[u].shared == 0 && s.owners[u].weak == 0 && (u != t ==> s.owners[u].pc == Idle)
  }

  /** A thread in __release_weak finds the count at 0 exactly if it is the last one. */
  lemma LastRelease(s: State, t: nat)
    requires Inv(s) && t < |s.owners| && s.owners[t].pc in {LoadingWeak, TakingWeak}
    ensures s.weak == 0 <==> Last(s, t)
  {
    if s.weak == 0 {
      NothingElse(s, t);
    } else if Last(s, t) {
      hide TotalsOf;
      TotalsMove(s, t, Owner(Idle, 0, 0));
      NoTotals(s.To(t, Owner(Idle, 0, 0)));
    }
  }

  lemma StaysLast(s: State, a: Action)
    requires Enabled(s, a) && (a.LoadWeak? || a.TakeWeak?)
    ensures Last(Apply(s, a), a.t) <==> Last(s, a.t)
  {
    var s' := Apply(s, a);
    assert forall u :: 0 <= u < |s.owners| ==>
      s'.owners[u].shared == s.owners[u].shared && s'.owners[u].weak == s.owners[u].weak
      && (u != a.t ==> s'.owners[u] == s.owners[u]);
  }

  lemma NothingElse(s: State, t: nat)
    requires Inv(s) && t < |s.owners| && s.owners[t].pc in {LoadingWeak, TakingWeak} && s.weak == 0
    ensures Last(s, t)
  {
    hide TotalsOf;
    TotalsMove(s, t, Owner(Idle, 0, 0));
    var rest := s.To(t, Owner(Idle, 0, 0));
    forall u | 0 <= u < |s.owners|
      ensures rest.owners[u] == Owner(Idle, 0, 0) && (u == t ==> s.owners[u].shared == 0 && s.owners[u].weak == 0)
    {
      TotalsMove(rest, u, Owner(Idle, 0, 0));
      assert rest.owners[u].weak == 0;
    }
  }

  /** When every pointer is gone and no thread is on its way, object and block are gone, once each. */
  lemma NothingLeaks(n: nat, run: seq<Action>)
    requires n > 0 && LegalRun(Start(n), run)
    requires forall t :: 0 <= t < |After(Start(n), run).owners| ==> After(Start(n), run).owners[t] == Owner(Idle, 0, 0)
    ensures var s := After(Start(n), run); s.destroyed == 1 && s.freed == 1
  {
    hide TotalsOf, After, LegalRun, Start;
    StartInv(n);
    RunInv(Start(n), run);
    NoTotals(After(Start(n), run));
  }

  lemma NoTotals(s: State)
    requires forall t :: 0 <= t < |s.owners| ==> s.owners[t] == Owner(Idle, 0, 0)
    ensures TotalsOf(s) == Totals(0, 0, 0, 0, 0, 0)
  {
    SumNothing(s.owners, SharedOf);
    SumNothing(s.owners, WeakOf);
    SumNothing(s.owners, ReleasingOf);
    SumNothing(s.owners, UncountedOf);
    SumNothing(s.owners, DestroyingOf);
    SumNothing(s.owners, FreeingOf);
  }

  /**
   * lock's loop gives out a pointer only to a live object, and null only when the object has no owner any more. It
   * gives one out whenever the count is still the one seen, so a turn is repeated only because the count has changed.
   */
  lemma LockOutcome(s: State, t: nat)
    requires Inv(s) && Enabled(s, TryLock(t))
    ensures var s', o, o' := Apply(s, TryLock(t)), s.owners[t], Apply(s, TryLock(t)).owners[t];
      && (o'.shared == o.shared + 1 ==> s.destroyed == 0 && s.shared >= 0)
      && (o'.pc == Idle && o'.shared == o.shared ==> s.shared == -1)
      && (s.shared == -1 ==> s'.shared == -1)
      && (o.pc.seen == s.shared != -1 ==> o' == Owner(Idle, o.shared + 1, o.weak) && s'.shared == s.shared + 1)
      && (o'.pc != Idle ==> o'.pc == Locking(s.shared) && s.shared != o.pc.seen)
  {
    hide TotalsOf;
  }

  /** What the others do leaves a thread where it is. */
  lemma {:induction false} OthersLeave(s: State, run: seq<Action>, t: nat)
    requires LegalRun(s, run) && t < |s.owners| && forall i :: 0 <= i < |run| ==> run[i].t != t
    ensures t < |After(s, run).owners| && After(s, run).owners[t].pc == s.owners[t].pc
    decreases |run|
  {
    if run != [] {
      OthersLeave(Apply(s, run[0]), run[1..], t);
    }
  }

  /**
   * A thread that begins to lock gets its pointer in the next turn if some thread owns one then and the count is
   * what it was: if the others do nothing in between, or undo what they do.
   */
  lemma LockSucceeds(n: nat, run: seq<Action>, t: nat, others: seq<Action>)
    requires n > 0 && LegalRun(Start(n), run) && Enabled(After(Start(n), run), BeginLock(t))
    requires forall i :: 0 <= i < |others| ==> others[i].t != t
    requires var s := Apply(After(Start(n), run), BeginLock(t));
      && LegalRun(s, others) && After(s, others).shared == s.shared
      && exists u :: 0 <= u < |After(s, others).owners| && After(s, others).owners[u].shared > 0
    ensures var s := After(Apply(After(Start(n), run), BeginLock(t)), others);
      && Enabled(s, TryLock(t))
      && Apply(s, TryLock(t)).owners[t] == Owner(Idle, s.owners[t].shared + 1, s.owners[t].weak)
      && Apply(s, TryLock(t)).destroyed == 0
  {
    hide After, LegalRun, Start, Inv;
    var s0 := After(Start(n), run);
    StartInv(n);
    RunInv(Start(n), run);
    StepInv(s0, BeginLock(t));
    var s := Apply(s0, BeginLock(t));
    RunInv(s, others);
    OthersLeave(s, others, t);
    KeepsObject(After(s, others));
  }

  // ---- the shortcut in __release_weak ----

  function PlainPc(p: Pc): Pc {
    match p
    case LoadingWeak => TakingWeak
    case FreeingUncounted => Freeing
    case _ => p
  }

  function PlainOwners(os: seq<Owner>): (r: seq<Owner>)
    ensures |r| == |os| && forall t :: 0 <= t < |os| ==> r[t] == os[t].(pc := PlainPc(os[t].pc))
  {
    seq(|os|, t requires 0 <= t < |os| => os[t].(pc := PlainPc(os[t].pc)))
  }

  /** The state as it would be had every release decremented the weak count. */
  function Plain(s: State): State {
    State(s.shared, if s.freed > 0 || Sum(s.owners, UncountedOf) > 0 then -1 else s.weak, s.destroyed, s.freed,
          PlainOwners(s.owners))
  }

  /** The block without the shortcut: a release goes straight to the decrement. */
  predicate PlainEnabled(s: State, a: Action) {
    !a.LoadWeak? && Enabled(s, a)
  }

  function PlainApply(s: State, a: Action): (s': State)
    requires PlainEnabled(s, a)
  {
    var s' := Apply(s, a);
    if a.Destroy? || a.DropWeak? then s'.At(a.t, TakingWeak) else s'
  }

  predicate PlainLegalRun(s: State, run: seq<Action>)
    decreases |run|
  {
    run == [] || (PlainEnabled(s, run[0]) && PlainLegalRun(PlainApply(s, run[0]), run[1..]))
  }

  function PlainAfter(s: State, run: seq<Action>): State
    requires PlainLegalRun(s, run)
    decreases |run|
  {
    if run == [] then s else PlainAfter(PlainApply(s, run[0]), run[1..])
  }

  /** The step of the plain block that an action stands for; a load that decides nothing is none. */
  function PlainActions(s: State, a: Action): seq<Action>
    requires Enabled(s, a)
  {
    if !a.LoadWeak? then [a] else if s.weak == 0 then [TakeWeak(a.t)] else []
  }

  /** How an action changes the number of threads about to free the block with its count at 0. */
  ghost predicate UncountedMoves(s: State, a: Action)
    requires Enabled(s, a)
  {
    var was, now := Sum(s.owners, UncountedOf), Sum(Apply(s, a).owners, UncountedOf);
    && now == was - One(a.Free? && s.owners[a.t].pc == FreeingUncounted) + One(a.LoadWeak? && s.weak == 0)
    && s.freed == 0
    && (was > 0 ==> s.weak == 0 && a.Free? && s.owners[a.t].pc == FreeingUncounted && was == 1)
    && (a.Free? && s.owners[a.t].pc == Freeing ==> s.weak == -1)
  }

  lemma StepRefines(s: State, a: Action)
    requires Inv(s) && Enabled(s, a)
    ensures var p := PlainActions(s, a);
      PlainLegalRun(Plain(s), p) && PlainAfter(Plain(s), p) == Plain(Apply(s, a))
  {
    UncountedMove(s, a);
    hide Inv, Sum;
    if a.Give? {
      GiveRefines(s, a.t, a.to, a.sharedPtr);
    } else if PlainActions(s, a) == [] {
      assert PlainOwners(Apply(s, a).owners) == PlainOwners(s.owners);
    } else {
      MoveRefines(s, a);
    }
  }

  lemma GiveRefines(s: State, t: nat, to: nat, sharedPtr: bool)
    requires Enabled(s, Give(t, to, sharedPtr)) && UncountedMoves(s, Give(t, to, sharedPtr))
    ensures var a, p := Give(t, to, sharedPtr), Plain(s); PlainEnabled(p, a) && PlainApply(p, a) == Plain(Apply(s, a))
  {
    hide Sum;
    var a := Give(t, to, sharedPtr);
    assert PlainApply(Plain(s), a).owners == Plain(Apply(s, a)).owners;
  }

  lemma MoveRefines(s: State, a: Action)
    requires Enabled(s, a) && UncountedMoves(s, a) && !a.Give? && PlainActions(s, a) != []
    ensures var a', p := PlainActions(s, a)[0], Plain(s);
      PlainEnabled(p, a') && PlainApply(p, a') == Plain(Apply(s, a))
  {
    hide Sum;
    var a', p, s' := PlainActions(s, a)[0], Plain(s), Apply(s, a);
    var o := s'.owners[a.t];
    assert s'.owners == s.owners[a.t := o];
    assert PlainOwners(s'.owners) == PlainOwners(s.owners)[a.t := o.(pc := PlainPc(o.pc))];
    assert PlainApply(p, a').owners == p.owners[a.t := o.(pc := PlainPc(o.pc))];
  }

  lemma UncountedMove(s: State, a: Action)
    requires Inv(s) && Enabled(s, a)
    ensures UncountedMoves(s, a)
  {
    hide TotalsOf, Sum;
    var s' := Apply(s, a);
    UncountedIs(s);
    TotalsMove(s, a.t, s'.owners[a.t]);
    Moved(s.owners, a.t, s'.owners[a.t], UncountedOf);
    if a.Give? {
      var mid := s.owners[a.t := s'.owners[a.t]];
      Moved(mid, a.to, s'.owners[a.to], UncountedOf);
      assert s'.owners == mid[a.to := s'.owners[a.to]];
    }
  }

  lemma UncountedIs(s: State)
    ensures TotalsOf(s).uncounted == Sum(s.owners, UncountedOf)
  {
  }

  /** Every run is a run of the block that always decrements, with the same destructions and the same freeing. */
  lemma {:induction false} RunRefines(s: State, run: seq<Action>) returns (plain: seq<Action>)
    requires Inv(s) && LegalRun(s, run)
    ensures PlainLegalRun(Plain(s), plain) && PlainAfter(Plain(s), plain) == Plain(After(s, run))
    decreases |run|
  {
    if run == [] {
      plain := [];
    } else {
      var s' := Apply(s, run[0]);
      StepInv(s, run[0]);
      StepRefines(s, run[0]);
      var p := PlainActions(s, run[0]);
      var rest := RunRefines(s', run[1..]);
      plain := p + rest;
      if p != [] {
        assert plain[1..] == rest && p[1..] == [];
      } else {
        assert plain == rest;
      }
    }
  }
}
