/**
 * The state that a promise, its futures and exiting threads share, as a step system. Each critical section under the
 * state's mutex is an action; the destructor of the promise looks first and stores the broken promise afterwards.
 */
module FutureState {

  import opened Threads

  datatype Pc =
    | Idle | Testing | Asleep | Retesting | Executing | Got
    | Exiting | Exited

  predicate AtRest(p: Pc) { p == Idle || p == Got }

  /** A thread, the futures it holds, and how often the state is in its list for thread exit. */
  datatype Thread = Thread(pc: Pc, futures: nat, entries: nat)

  datatype Promise = Alive | Breaking | Gone

  /** constructed, exception, attached, ready and deferred are the state's; wins and starts are history. */
  datatype State = State(constructed: bool, exception: bool, attached: bool, ready: bool, deferred: bool,
                         promise: Promise, wins: nat, starts: nat, threads: seq<Thread>)
  {
    predicate HasValue() {
      constructed || exception
    }

    function To(t: nat, th: Thread): State
      requires t < |threads|
    {
      this.(threads := threads[t := th])
    }

    function At(t: nat, p: Pc): State
      requires t < |threads|
    {
      To(t, threads[t].(pc := p))
    }

    /** The number of owners of the state. */
    function UseCount(): nat {
      One(promise != Gone) + Sum(threads, FuturesOf) + Sum(threads, EntriesOf)
    }
  }

  function FuturesOf(th: Thread): nat { th.futures }

  function EntriesOf(th: Thread): nat { th.entries }

  function ExecutingOf(th: Thread): nat { One(th.pc == Executing) }

  datatype Action =
    | Set(t: nat, value: bool) | SetAtExit(t: nat, value: bool)
    | GetFuture(t: nat) | CopyFuture(t: nat, to: nat) | DropFuture(t: nat)
    | DestroyPromise(t: nat) | Break(t: nat)
    | Wait(t: nat) | Test(t: nat) | Retest(t: nat) | WakeUp(t: nat) | Finish(t: nat, value: bool)
    | Exit(t: nat) | ExitStep(t: nat)

  predicate Enabled(s: State, a: Action) {
    && a.t < |s.threads|
    && var th := s.threads[a.t];
      match a
      case Set(t, value) => AtRest(th.pc) && s.promise == Alive
      case SetAtExit(t, value) => AtRest(th.pc) && s.promise == Alive
      case GetFuture(t) => AtRest(th.pc) && s.promise == Alive
      case CopyFuture(t, to) => AtRest(th.pc) && th.futures > 0 && to < |s.threads|
      case DropFuture(t) => AtRest(th.pc) && th.futures > 0
      case DestroyPromise(t) => AtRest(th.pc) && s.promise == Alive
      case Break(t) => s.promise == Breaking
      case Wait(t) => AtRest(th.pc) && th.futures > 0
      case Test(t) => th.pc == Testing
      case Retest(t) => th.pc == Retesting
      case WakeUp(t) => th.pc == Asleep
      case Finish(t, value) => th.pc == Executing
      case Exit(t) => AtRest(th.pc)
      case ExitStep(t) => th.pc == Exiting
  }

  function NotifyAll(ths: seq<Thread>): (r: seq<Thread>)
    ensures |r| == |ths|
    ensures forall t :: 0 <= t < |ths| ==> r[t] == if ths[t].pc == Asleep then ths[t].(pc := Retesting) else ths[t]
  {
    seq(|ths|, t requires 0 <= t < |ths| => if ths[t].pc == Asleep then ths[t].(pc := Retesting) else ths[t])
  }

  function Ready(s: State): State {
    s.(ready := true, threads := NotifyAll(s.threads))
  }

  /** set_value and set_exception under the mutex: a state that has its outcome makes them throw. */
  function Store(s: State, value: bool): State {
    if value then s.(constructed := true, wins := s.wins + 1) else s.(exception := true, wins := s.wins + 1)
  }

  function Apply(s: State, a: Action): (s': State)
    requires Enabled(s, a)
    ensures |s'.threads| == |s.threads|
  {
    var th := s.threads[a.t];
    match a
    case Set(t, value) => if s.HasValue() then s else Ready(Store(s, value))
    case SetAtExit(t, value) =>
      if s.HasValue() then s else Store(s, value).To(t, th.(entries := th.entries + 1))
    case GetFuture(t) => if s.attached then s else s.(attached := true).To(t, th.(futures := th.futures + 1))
    case CopyFuture(t, to) => s.To(to, s.threads[to].(futures := s.threads[to].futures + 1))
    case DropFuture(t) => s.To(t, th.(futures := th.futures - 1))
    case DestroyPromise(t) => s.(promise := if !s.HasValue() && s.UseCount() > 1 then Breaking else Gone)
    case Break(t) => (if s.HasValue() then s else Ready(Store(s, false))).(promise := Gone)
    case Wait(t) => s.At(t, Testing)
    case Test(t) =>
      if s.ready then s.At(t, Got)
      else if s.deferred then s.(deferred := false, starts := s.starts + 1).At(t, Executing)
      else s.At(t, Asleep)
    case Retest(t) => s.At(t, if s.ready then Got else Asleep)
    case WakeUp(t) => s.At(t, Retesting)
    case Finish(t, value) => (if s.HasValue() then s else Ready(Store(s, value))).At(t, Got)
    case Exit(t) => s.At(t, Exiting)
    case ExitStep(t) =>
      if th.entries > 0 then Ready(s.To(t, th.(entries := th.entries - 1))) else s.At(t, Exited)
  }

  /** A promise without a future yet. */
  function StartPromise(n: nat): State {
    State(false, false, false, false, false, Alive, 0, 0, seq(n, _ => Thread(Idle, 0, 0)))
  }

  /** A deferred call, whose one future the first thread holds. */
  function StartDeferred(n: nat): State
    requires n > 0
  {
    State(false, false, true, false, true, Gone, 0, 0,
          [Thread(Idle, 1, 0)] + seq(n - 1, _ => Thread(Idle, 0, 0)))
  }

  predicate LegalRun(s: State, run: seq<Action>)
    decreases |run|
  {
    run == [] || (Enabled(s, run[0]) && LegalRun(Apply(s, run[0]), run[1..]))
  }

  function After(s: State, run: seq<Action>): State
    requires LegalRun(s, run)
    decreases |run|
  {
    if run == [] then s else After(Apply(s, run[0]), run[1..])
  }

  // ---- what every step keeps ----

  datatype Totals = Totals(futures: nat, entries: nat, executing: nat)

  function TotalsOf(s: State): Totals {
    Totals(Sum(s.threads, FuturesOf), Sum(s.threads, EntriesOf), Sum(s.threads, ExecutingOf))
  }

  ghost predicate InvWith(s: State, k: Totals) {
    && s.wins == One(s.HasValue()) && !(s.constructed && s.exception)
    && (s.ready ==> s.HasValue())
    && k.entries == One(s.HasValue() && !s.ready)
    && s.starts <= 1 && (s.deferred ==> s.starts == 0)
    && k.executing == One(s.starts == 1 && !s.HasValue())
    && (s.deferred || s.starts == 1 ==> s.promise == Gone)
    && (s.promise == Gone && !s.HasValue() && !s.deferred && s.starts == 0 ==> k.futures == 0)
    && (s.deferred ==> !s.HasValue())
    && (s.promise == Breaking ==> !s.HasValue())
    && forall t :: 0 <= t < |s.threads| ==>
      && (s.threads[t].pc == Asleep ==> !s.ready)
      && (s.threads[t].pc == Asleep || s.threads[t].pc == Retesting ==> !s.deferred)
      && (s.threads[t].pc == Exited ==> s.threads[t].entries == 0)
      && (s.threads[t].pc in {Testing, Asleep, Retesting} ==> s.threads[t].futures > 0)
      && (s.threads[t].pc == Got ==> s.ready)
  }

  ghost predicate Inv(s: State) {
    InvWith(s, TotalsOf(s))
  }

  lemma TotalsMove(s: State, t: nat, th: Thread)
    requires t < |s.threads|
    ensures var k, k', was := TotalsOf(s), TotalsOf(s.To(t, th)), s.threads[t];
      && FuturesOf(was) <= k.futures && k'.futures == k.futures - FuturesOf(was) + FuturesOf(th)
      && EntriesOf(was) <= k.entries && k'.entries == k.entries - EntriesOf(was) + EntriesOf(th)
      && ExecutingOf(was) <= k.executing && k'.executing == k.executing - ExecutingOf(was) + ExecutingOf(th)
  {
    Moved(s.threads, t, th, FuturesOf);
    Moved(s.threads, t, th, EntriesOf);
    Moved(s.threads, t, th, ExecutingOf);
  }

  lemma SumSame(ths: seq<Thread>, ths': seq<Thread>, of: Thread -> nat)
    requires |ths| == |ths'| && forall t :: 0 <= t < |ths| ==> of(ths[t]) == of(ths'[t])
    ensures Sum(ths, of) == Sum(ths', of)
  {
  }

  lemma TotalsSame(s: State, s': State)
    requires s'.threads == s.threads || s'.threads == NotifyAll(s.threads)
    ensures TotalsOf(s') == TotalsOf(s)
  {
    SumSame(s.threads, s'.threads, FuturesOf);
    SumSame(s.threads, s'.threads, EntriesOf);
    SumSame(s.threads, s'.threads, ExecutingOf);
  }

  lemma StepInv(s: State, a: Action)
    requires Inv(s) && Enabled(s, a)
    ensures Inv(Apply(s, a))
  {
    match a {
      case Set(_, _) => WinInv(s, a);
      case Break(_) => WinInv(s, a);
      case Finish(_, _) => FinishInv(s, a);
      case ExitStep(_) => ExitInv(s, a);
      case SetAtExit(_, _) => OwnersInv(s, a, a.t);
      case GetFuture(_) => OwnersInv(s, a, a.t);
      case CopyFuture(_, _) => OwnersInv(s, a, a.to);
      case DropFuture(_) => OwnersInv(s, a, a.t);
      case DestroyPromise(_) => DestroyInv(s, a.t);
      case _ => MoveInv(s, a);
    }
  }

  lemma WinInv(s: State, a: Action)
    requires Inv(s) && Enabled(s, a) && (a.Set? || a.Break?)
    ensures Inv(Apply(s, a))
  {
    hide TotalsOf;
    TotalsSame(s, Apply(s, a));
  }

  lemma FinishInv(s: State, a: Action)
    requires Inv(s) && Enabled(s, a) && a.Finish?
    ensures Inv(Apply(s, a))
  {
    hide TotalsOf;
    var mid := if s.HasValue() then s else Ready(Store(s, a.value));
    TotalsSame(s, mid);
    TotalsMove(s, a.t, s.threads[a.t].(pc := Got));
    TotalsMove(mid, a.t, mid.threads[a.t].(pc := Got));
  }

  lemma ExitInv(s: State, a: Action)
    requires Inv(s) && Enabled(s, a) && a.ExitStep?
    ensures Inv(Apply(s, a))
  {
    hide TotalsOf;
    var th := s.threads[a.t];
    var th' := if th.entries > 0 then th.(entries := th.entries - 1) else th.(pc := Exited);
    TotalsMove(s, a.t, th');
    TotalsSame(s.To(a.t, th'), Apply(s, a));
  }

  lemma OwnersInv(s: State, a: Action, t: nat)
    requires Inv(s) && Enabled(s, a) && (a.SetAtExit? || a.GetFuture? || a.CopyFuture? || a.DropFuture?)
    requires t == if a.CopyFuture? then a.to else a.t
    ensures Inv(Apply(s, a))
  {
    hide TotalsOf;
    var s' := Apply(s, a);
    TotalsMove(s, a.t, s.threads[a.t]);
    TotalsMove(s, t, s'.threads[t]);
    TotalsSame(s.To(t, s'.threads[t]), s');
  }

  lemma DestroyInv(s: State, t: nat)
    requires Inv(s) && Enabled(s, DestroyPromise(t))
    ensures Inv(Apply(s, DestroyPromise(t)))
  {
  }

  lemma MoveInv(s: State, a: Action)
    requires Inv(s) && Enabled(s, a) && (a.Wait? || a.Test? || a.Retest? || a.WakeUp? || a.Exit?)
    ensures Inv(Apply(s, a))
  {
    hide TotalsOf;
    var s' := Apply(s, a);
    TotalsMove(s, a.t, s'.threads[a.t]);
    TotalsSame(s.To(a.t, s'.threads[a.t]), s');
  }

  lemma StartInv(n: nat)
    requires n > 0
    ensures Inv(StartPromise(n)) && Inv(StartDeferred(n))
  {
    hide TotalsOf;
    var s, d := StartPromise(n), StartDeferred(n);
    NoTotals(s);
    var nobody := d.(threads := s.threads);
    TotalsSame(s, nobody);
    TotalsMove(nobody, 0, Thread(Idle, 1, 0));
    assert d.threads == nobody.threads[0 := Thread(Idle, 1, 0)];
    TotalsSame(nobody.To(0, Thread(Idle, 1, 0)), d);
  }

  lemma NoTotals(s: State)
    requires forall t :: 0 <= t < |s.threads| ==> s.threads[t] == Thread(Idle, 0, 0)
    ensures TotalsOf(s) == Totals(0, 0, 0)
  {
    SumNothing(s.threads, FuturesOf);
    SumNothing(s.threads, EntriesOf);
    SumNothing(s.threads, ExecutingOf);
  }

  ghost predicate Initial(s: State) {
    exists n: nat :: n > 0 && (s == StartPromise(n) || s == StartDeferred(n))
  }

  /** A state that a promise or a deferred call can come to. */
  ghost predicate Reachable(s: State) {
    exists start: State, run: seq<Action> :: Initial(start) && LegalRun(start, run) && After(start, run) == s
  }

  lemma {:induction false} RunInv(s: State, run: seq<Action>)
    requires Inv(s) && LegalRun(s, run)
    ensures Inv(After(s, run))
    decreases |run|
  {
    if run != [] {
      StepInv(s, run[0]);
      RunInv(Apply(s, run[0]), run[1..]);
    }
  }

  lemma ReachableInv(s: State)
    requires Reachable(s)
    ensures Inv(s)
  {
    hide Inv;
    var start: State, run: seq<Action> :| Initial(start) && LegalRun(start, run) && After(start, run) == s;
    var n: nat :| n > 0 && (start == StartPromise(n) || start == StartDeferred(n));
    StartInv(n);
    RunInv(start, run);
  }

  // ---- what every run keeps ----

  /** One setter wins, ready means there is an outcome, and a deferred call starts at most once. */
  lemma OneOutcome(s: State)
    requires Reachable(s)
    ensures s.wins == One(s.HasValue()) && !(s.constructed && s.exception)
    ensures s.ready ==> s.HasValue()
    ensures s.starts <= 1
    ensures forall t :: 0 <= t < |s.threads| && s.threads[t].pc == Got ==> s.ready
  {
    ReachableInv(s);
  }

  lemma OutcomeStaysOnce(s: State, a: Action)
    requires Enabled(s, a)
    ensures var s' := Apply(s, a);
      && (s.HasValue() ==> s'.constructed == s.constructed && s'.exception == s.exception && s'.wins == s.wins)
      && (s.ready ==> s'.ready)
  {
  }

  /** Once there is an outcome it stays, and a ready state stays ready. */
  lemma {:induction false} OutcomeStays(s: State, run: seq<Action>)
    requires LegalRun(s, run)
    ensures var s' := After(s, run);
      && (s.HasValue() ==> s'.HasValue() && s'.constructed == s.constructed && s'.exception == s.exception && s'.wins == s.wins)
      && (s.ready ==> s'.ready)
    decreases |run|
  {
    if run != [] {
      OutcomeStaysOnce(s, run[0]);
      OutcomeStays(Apply(s, run[0]), run[1..]);
    }
  }

  /** The state is once in the list of thread t and in no other. */
  predicate OnlyEntry(ths: seq<Thread>, t: nat)
    requires t < |ths|
  {
    ths[t].entries == 1 && forall u :: 0 <= u < |ths| && u != t ==> ths[u].entries == 0
  }

  lemma EntryAlone(s: State, t: nat)
    requires Inv(s) && t < |s.threads| && s.threads[t].entries > 0
    ensures OnlyEntry(s.threads, t) && s.HasValue() && !s.ready && s.threads[t].pc != Exited
  {
    var rest := s.threads[t := s.threads[t].(entries := 0)];
    Moved(s.threads, t, rest[t], EntriesOf);
    SumNothing(rest, EntriesOf);
    forall u | 0 <= u < |s.threads| && u != t
      ensures s.threads[u].entries == 0
    {
      assert EntriesOf(rest[u]) == 0;
    }
  }

  /** An outcome that is not ready yet is in the list of exactly one thread, which has not exited. */
  lemma PendingOutcome(s: State)
    requires Reachable(s) && s.HasValue() && !s.ready
    ensures exists t :: 0 <= t < |s.threads| && OnlyEntry(s.threads, t) && s.threads[t].pc != Exited
  {
    ReachableInv(s);
    SumNothing(s.threads, EntriesOf);
    var t :| 0 <= t < |s.threads| && EntriesOf(s.threads[t]) != 0;
    EntryAlone(s, t);
  }

  /** The deferred call runs in one thread, which is to give the outcome. */
  lemma ExecutingAlone(s: State, t: nat)
    requires Inv(s) && t < |s.threads| && s.threads[t].pc == Executing
    ensures !s.HasValue() && s.starts == 1 && forall u :: 0 <= u < |s.threads| && u != t ==> s.threads[u].pc != Executing
  {
    SumPart(s.threads, t, ExecutingOf);
    var rest := s.threads[t := s.threads[t].(pc := Idle)];
    Moved(s.threads, t, rest[t], ExecutingOf);
    SumNothing(rest, ExecutingOf);
    forall u | 0 <= u < |s.threads| && u != t
      ensures s.threads[u].pc != Executing
    {
      assert ExecutingOf(rest[u]) == 0;
    }
  }

  /** Beside a promise without an outcome only futures own the state. */
  lemma SomeFuture(s: State)
    requires Inv(s) && s.promise == Alive && !s.HasValue()
    ensures s.UseCount() > 1 <==> exists t :: 0 <= t < |s.threads| && s.threads[t].futures > 0
  {
    hide Sum;
    UseCountIs(s);
    SumNothing(s.threads, FuturesOf);
    assert forall t :: 0 <= t < |s.threads| ==> FuturesOf(s.threads[t]) == s.threads[t].futures;
  }

  // ---- which outcome it is ----

  datatype Offer = Nothing | Value | Exception

  /** What an action offers as the outcome. */
  function OfferOf(a: Action): Offer {
    match a
    case Set(_, value) => if value then Value else Exception
    case SetAtExit(_, value) => if value then Value else Exception
    case Finish(_, value) => if value then Value else Exception
    case Break(_) => Exception
    case _ => Nothing
  }

  /** The first thing offered in a run. */
  function FirstOffer(run: seq<Action>): Offer {
    if run == [] then Nothing
    else if OfferOf(run[0]) != Nothing then OfferOf(run[0])
    else FirstOffer(run[1..])
  }

  lemma OfferTaken(s: State, a: Action)
    requires Enabled(s, a) && !s.HasValue()
    ensures Apply(s, a).constructed <==> OfferOf(a) == Value
    ensures Apply(s, a).exception <==> OfferOf(a) == Exception
  {
  }

  /** In a run without an outcome yet the first offer is the outcome, as it was made, and later ones change nothing. */
  lemma {:induction false} FirstOfferWins(s: State, run: seq<Action>)
    requires LegalRun(s, run) && !s.HasValue()
    ensures After(s, run).constructed <==> FirstOffer(run) == Value
    ensures After(s, run).exception <==> FirstOffer(run) == Exception
    decreases |run|
  {
    if run != [] {
      OfferTaken(s, run[0]);
      if OfferOf(run[0]) == Nothing {
        FirstOfferWins(Apply(s, run[0]), run[1..]);
      } else {
        OutcomeStays(Apply(s, run[0]), run[1..]);
      }
    }
  }

  // ---- the count of owners ----

  /** How an action changes the number of owners. */
  function Joins(s: State, a: Action): int
    requires Enabled(s, a)
  {
    match a
    case SetAtExit(_, _) => One(!s.HasValue())
    case GetFuture(_) => One(!s.attached)
    case CopyFuture(_, _) => 1
    case DropFuture(_) => -1
    case DestroyPromise(_) => if s.HasValue() || s.UseCount() <= 1 then -1 else 0
    case Break(_) => -1
    case ExitStep(t) => if s.threads[t].entries > 0 then -1 else 0
    case _ => 0
  }

  lemma UseCountIs(s: State)
    ensures s.UseCount() == One(s.promise != Gone) + TotalsOf(s).futures + TotalsOf(s).entries
  {
  }

  lemma UseCountMoves(s: State, a: Action)
    requires Enabled(s, a)
    ensures Apply(s, a).UseCount() == s.UseCount() + Joins(s, a)
  {
    match a {
      case Set(_, _) => UseCountNotified(s, a);
      case Break(_) => UseCountNotified(s, a);
      case Finish(_, _) => UseCountFinished(s, a);
      case ExitStep(_) => UseCountExited(s, a);
      case CopyFuture(_, _) => UseCountOfMove(s, a, a.to);
      case _ => UseCountOfMove(s, a, a.t);
    }
  }

  lemma UseCountNotified(s: State, a: Action)
    requires Enabled(s, a) && (a.Set? || a.Break?)
    ensures Apply(s, a).UseCount() == s.UseCount() + Joins(s, a)
  {
    hide TotalsOf, Sum;
    UseCountIs(s);
    UseCountIs(Apply(s, a));
    TotalsSame(s, Apply(s, a));
  }

  lemma UseCountFinished(s: State, a: Action)
    requires Enabled(s, a) && a.Finish?
    ensures Apply(s, a).UseCount() == s.UseCount()
  {
    hide TotalsOf, Sum;
    UseCountIs(s);
    UseCountIs(Apply(s, a));
    var mid := if s.HasValue() then s else Ready(Store(s, a.value));
    TotalsSame(s, mid);
    TotalsMove(mid, a.t, mid.threads[a.t].(pc := Got));
  }

  lemma UseCountExited(s: State, a: Action)
    requires Enabled(s, a) && a.ExitStep?
    ensures Apply(s, a).UseCount() == s.UseCount() + Joins(s, a)
  {
    hide TotalsOf, Sum;
    UseCountIs(s);
    UseCountIs(Apply(s, a));
    var th := s.threads[a.t];
    var th' := if th.entries > 0 then th.(entries := th.entries - 1) else th.(pc := Exited);
    TotalsMove(s, a.t, th');
    TotalsSame(s.To(a.t, th'), Apply(s, a));
  }

  lemma UseCountOfMove(s: State, a: Action, t: nat)
    requires Enabled(s, a) && !a.Set? && !a.Break? && !a.Finish? && !a.ExitStep?
    requires t == if a.CopyFuture? then a.to else a.t
    ensures Apply(s, a).UseCount() == s.UseCount() + Joins(s, a)
  {
    hide TotalsOf, Sum;
    var s' := Apply(s, a);
    UseCountIs(s);
    UseCountIs(s');
    TotalsMove(s, t, s'.threads[t]);
    TotalsSame(s.To(t, s'.threads[t]), s');
  }

  /** With the promise gone, no thread left that promised an outcome for its exit and no deferred call running, none sleeps. */
  lemma NobodySleepsForever(s: State, t: nat)
    requires Reachable(s) && t < |s.threads|
    requires s.promise == Gone
    requires forall u :: 0 <= u < |s.threads| ==>
      s.threads[u].pc != Executing && (s.threads[u].entries > 0 ==> s.threads[u].pc == Exited)
    ensures s.threads[t].pc != Asleep
  {
    ReachableInv(s);
    SumNothing(s.threads, EntriesOf);
    SumNothing(s.threads, ExecutingOf);
    SumPart(s.threads, t, FuturesOf);
  }
}
