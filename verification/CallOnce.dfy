/**
 * call_once over any number of flags that share one mutex and one condition variable. Each critical section is an
 * action; the broadcast after the mutex is released is an action of its own. A thread here is one activation: a
 * function that calls call_once again is two of them.
 */
module CallOnce {

  import opened Threads

  /** The values 0, 1 and ~0 of a flag. */
  datatype Flag = NotRun | Running | Done

  datatype Pc =
    | Idle | Testing(f: nat) | Asleep(f: nat) | InFunc(f: nat) | Broadcasting(f: nat, normal: bool)
    | Returned(f: nat) | Threw(f: nat)

  predicate AtRest(p: Pc) { p.Idle? || p.Returned? || p.Threw? }

  predicate IsBroadcasting(p: Pc) { p.Broadcasting? }

  /** The flags, how often the function of each has returned, and the threads. */
  datatype State = State(flags: seq<Flag>, completed: seq<nat>, pc: seq<Pc>) {
    function To(t: nat, p: Pc): State
      requires t < |pc|
    {
      this.(pc := pc[t := p])
    }
  }

  datatype Action =
    | Call(t: nat, f: nat) | Test(t: nat) | Complete(t: nat) | Throw(t: nat) | Broadcast(t: nat) | WakeUp(t: nat)

  predicate Enabled(s: State, a: Action) {
    && |s.completed| == |s.flags| && a.t < |s.pc|
    && var p := s.pc[a.t];
      match a
      case Call(t, f) => AtRest(p) && f < |s.flags|
      case Test(t) => p.Testing? && p.f < |s.flags|
      case Complete(t) => p.InFunc? && p.f < |s.flags|
      case Throw(t) => p.InFunc? && p.f < |s.flags|
      case Broadcast(t) => p.Broadcasting?
      case WakeUp(t) => p.Asleep?
  }

  /** A broadcast wakes every sleeper, whatever its flag. */
  function WakeAll(pc: seq<Pc>): (r: seq<Pc>)
    ensures |r| == |pc| && forall t :: 0 <= t < |pc| ==> r[t] == if pc[t].Asleep? then Testing(pc[t].f) else pc[t]
  {
    seq(|pc|, t requires 0 <= t < |pc| => if pc[t].Asleep? then Testing(pc[t].f) else pc[t])
  }

  function Apply(s: State, a: Action): (s': State)
    requires Enabled(s, a)
    ensures |s'.pc| == |s.pc|
  {
    var p := s.pc[a.t];
    match a
    case Call(t, f) => s.To(t, if s.flags[f] == Done then Returned(f) else Testing(f))
    case Test(t) =>
      if s.flags[p.f] == Running then s.To(t, Asleep(p.f))
      else if s.flags[p.f] == NotRun then s.(flags := s.flags[p.f := Running]).To(t, InFunc(p.f))
      else s.To(t, Returned(p.f))
    case Complete(t) =>
      s.(flags := s.flags[p.f := Done], completed := s.completed[p.f := s.completed[p.f] + 1]).To(t, Broadcasting(p.f, true))
    case Throw(t) => s.(flags := s.flags[p.f := NotRun]).To(t, Broadcasting(p.f, false))
    case Broadcast(t) => s.(pc := WakeAll(s.pc)[t := if p.normal then Returned(p.f) else Threw(p.f)])
    case WakeUp(t) => s.To(t, Testing(p.f))
  }

  function Start(flags: nat, threads: nat): State {
    State(seq(flags, _ => NotRun), seq(flags, _ => 0), seq(threads, _ => Idle))
  }

  predicate LegalRun(s: State, run: seq<Action>)
    decreases |run|
  {
    run == [] || (Enabled(s, run[0]) && LegalRun(Apply(s, run[0]), run[1..]))
  }

  function After(s: State, run: seq<Action>): State
    requires LegalRun(s, run)
    decreases |run|
  {
    if run == [] then s else After(Apply(s, run[0]), run[1..])
  }

  // ---- safety ----

  /** Threads in the function of flag f. */
  function Runners(pc: seq<Pc>, f: nat): nat {
    Count(pc, p => p == InFunc(f))
  }

  ghost predicate Inv(s: State) {
    && |s.completed| == |s.flags|
    && (forall t :: 0 <= t < |s.pc| && !s.pc[t].Idle? ==> s.pc[t].f < |s.flags|)
    && (forall f :: 0 <= f < |s.flags| ==> Runners(s.pc, f) == One(s.flags[f] == Running))
    && (forall f :: 0 <= f < |s.flags| ==> s.completed[f] == One(s.flags[f] == Done))
    && (forall t :: 0 <= t < |s.pc| && (s.pc[t].Returned? || (s.pc[t].Broadcasting? && s.pc[t].normal)) ==>
          s.flags[s.pc[t].f] == Done)
    && (forall t :: 0 <= t < |s.pc| && s.pc[t].Asleep? && s.flags[s.pc[t].f] != Running ==>
          exists u :: 0 <= u < |s.pc| && IsBroadcasting(s.pc[u]))
  }

  lemma RunnersMove(pc: seq<Pc>, t: nat, p: Pc, f: nat)
    requires t < |pc|
    ensures Runners(pc[t := p], f) + One(pc[t] == InFunc(f)) == Runners(pc, f) + One(p == InFunc(f))
  {
    CountMove(pc, t, p, p => p == InFunc(f));
  }

  /** The thread in a function is the only one, and nobody has completed that function. */
  lemma OneRunner(s: State, t: nat, u: nat)
    requires Inv(s) && t < |s.pc| && u < |s.pc| && s.pc[t].InFunc? && s.pc[u] == s.pc[t]
    ensures t == u && s.flags[s.pc[t].f] == Running && s.completed[s.pc[t].f] == 0
  {
    var f := s.pc[t].f;
    CountSome(s.pc, p => p == InFunc(f));
    if t < u {
      CountTwo(s.pc, t, u, p => p == InFunc(f));
    } else if u < t {
      CountTwo(s.pc, u, t, p => p == InFunc(f));
    }
  }

  lemma StepInv(s: State, a: Action)
    requires Inv(s) && Enabled(s, a)
    ensures Inv(Apply(s, a))
  {
    match a {
      case Broadcast(t) => BroadcastInv(s, t);
      case Complete(t) => EndInv(s, a);
      case Throw(t) => EndInv(s, a);
      case _ => MoveInv(s, a);
    }
  }

  lemma BroadcastInv(s: State, t: nat)
    requires Inv(s) && Enabled(s, Broadcast(t))
    ensures Inv(Apply(s, Broadcast(t)))
  {
    var s' := Apply(s, Broadcast(t));
    forall f | 0 <= f < |s.flags|
      ensures Runners(s'.pc, f) == Runners(s.pc, f)
    {
      CountSame(s.pc, s'.pc, p => p == InFunc(f));
    }
  }

  lemma EndInv(s: State, a: Action)
    requires Inv(s) && Enabled(s, a) && (a.Complete? || a.Throw?)
    ensures Inv(Apply(s, a))
  {
    hide Runners;
    var s' := Apply(s, a);
    OneRunner(s, a.t, a.t);
    forall f | 0 <= f < |s.flags|
      ensures Runners(s'.pc, f) == One(s'.flags[f] == Running)
    {
      RunnersMove(s.pc, a.t, s'.pc[a.t], f);
    }
    assert IsBroadcasting(s'.pc[a.t]);
  }

  lemma MoveInv(s: State, a: Action)
    requires Inv(s) && Enabled(s, a) && (a.Call? || a.Test? || a.WakeUp?)
    ensures Inv(Apply(s, a))
  {
    hide Runners;
    var s' := Apply(s, a);
    forall f | 0 <= f < |s.flags|
      ensures Runners(s'.pc, f) == One(s'.flags[f] == Running)
    {
      RunnersMove(s.pc, a.t, s'.pc[a.t], f);
    }
    if u :| 0 <= u < |s.pc| && IsBroadcasting(s.pc[u]) {
      assert IsBroadcasting(s'.pc[u]);
    }
  }

  lemma StartInv(flags: nat, threads: nat)
    ensures Inv(Start(flags, threads))
  {
    var s := Start(flags, threads);
    forall f | 0 <= f < flags
      ensures Runners(s.pc, f) == 0
    {
      CountSome(s.pc, p => p == InFunc(f));
    }
  }

  lemma {:induction false} RunInv(s: State, run: seq<Action>)
    requires Inv(s) && LegalRun(s, run)
    ensures Inv(After(s, run))
    decreases |run|
  {
    if run != [] {
      StepInv(s, run[0]);
      RunInv(Apply(s, run[0]), run[1..]);
    }
  }

  /** At most one thread runs the function of a flag, and none after it has returned once. */
  lemma RunsAlone(flags: nat, threads: nat, run: seq<Action>, t: nat, u: nat)
    requires LegalRun(Start(flags, threads), run)
    requires var s := After(Start(flags, threads), run);
      t < |s.pc| && u < |s.pc| && s.pc[t].InFunc? && s.pc[u].InFunc? && s.pc[t].f == s.pc[u].f
    ensures var s := After(Start(flags, threads), run);
      t == u && s.pc[t].f < |s.completed| && s.completed[s.pc[t].f] == 0
  {
    StartInv(flags, threads);
    RunInv(Start(flags, threads), run);
    OneRunner(After(Start(flags, threads), run), t, u);
  }

  /** call_once returns normally only when the function has returned, exactly once. */
  lemma ReturnsAfterCompletion(flags: nat, threads: nat, run: seq<Action>, t: nat)
    requires LegalRun(Start(flags, threads), run)
    requires var s := After(Start(flags, threads), run); t < |s.pc| && s.pc[t].Returned?
    ensures var s := After(Start(flags, threads), run);
      s.pc[t].f < |s.completed| == |s.flags| && s.completed[s.pc[t].f] == 1 && s.flags[s.pc[t].f] == Done
  {
    hide After, LegalRun, Runners;
    StartInv(flags, threads);
    RunInv(Start(flags, threads), run);
  }

  /** Once a function has returned, nothing changes its flag, and it is not started again. */
  lemma {:induction false} DoneForGood(s: State, run: seq<Action>, f: nat)
    requires Inv(s) && LegalRun(s, run) && f < |s.flags| && s.flags[f] == Done
    ensures var s' := After(s, run);
      && |s'.flags| == |s'.completed| == |s.flags| && s'.flags[f] == Done && s'.completed[f] == 1
      && forall t :: 0 <= t < |s'.pc| ==> s'.pc[t] != InFunc(f)
    decreases |run|
  {
    if run == [] {
      NobodyRuns(s, f);
    } else {
      StepInv(s, run[0]);
      StaysDone(s, run[0], f);
      DoneForGood(Apply(s, run[0]), run[1..], f);
    }
  }

  lemma NobodyRuns(s: State, f: nat)
    requires Inv(s) && f < |s.flags| && s.flags[f] == Done
    ensures forall t :: 0 <= t < |s.pc| ==> s.pc[t] != InFunc(f)
  {
    CountSome(s.pc, p => p == InFunc(f));
  }

  /** The flag of a function says whether somebody is in it. */
  lemma RunnerExists(s: State, f: nat)
    requires Inv(s) && f < |s.flags|
    ensures s.flags[f] == Running <==> exists u :: 0 <= u < |s.pc| && s.pc[u] == InFunc(f)
  {
    CountSome(s.pc, p => p == InFunc(f));
  }

  lemma StaysDone(s: State, a: Action, f: nat)
    requires Inv(s) && Enabled(s, a) && f < |s.flags| && s.flags[f] == Done
    ensures var s' := Apply(s, a); |s'.flags| == |s.flags| && s'.flags[f] == Done
  {
    if s.pc[a.t].InFunc? {
      OneRunner(s, a.t, a.t);
    }
  }

  /** Behind every sleeper stands a thread that runs the function it waits for, or one about to broadcast. */
  lemma NoSleeperForgotten(flags: nat, threads: nat, run: seq<Action>, t: nat)
    requires LegalRun(Start(flags, threads), run)
    requires var s := After(Start(flags, threads), run); t < |s.pc| && s.pc[t].Asleep?
    ensures var s := After(Start(flags, threads), run);
      exists u :: 0 <= u < |s.pc| && (s.pc[u] == InFunc(s.pc[t].f) || IsBroadcasting(s.pc[u]))
  {
    hide After, LegalRun, Runners;
    StartInv(flags, threads);
    RunInv(Start(flags, threads), run);
    SomeoneBehind(After(Start(flags, threads), run), t);
  }

  lemma SomeoneBehind(s: State, t: nat)
    requires Inv(s) && t < |s.pc| && s.pc[t].Asleep?
    ensures exists u :: 0 <= u < |s.pc| && (s.pc[u] == InFunc(s.pc[t].f) || IsBroadcasting(s.pc[u]))
  {
    if s.flags[s.pc[t].f] == Running {
      CountSome(s.pc, p => p == InFunc(s.pc[t].f));
    }
  }
}
