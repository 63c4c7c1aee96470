/**
 * The benchmark library's barrier, from which threads may be removed, as a step system. Each critical section is an
 * action, split where it waits; the notification of the thread that closes a phase is an action of its own.
 */
module BarrierProtocol {

  import opened Threads

  /** Blocked and Rechecking threads remember the phase that they entered. */
  datatype Pc = Outside | Blocked(cp: nat) | Rechecking(cp: nat) | Notifying | Removed

  predicate IsRemoved(p: Pc) { p.Removed? }

  predicate IsNotifying(p: Pc) { p.Notifying? }

  predicate InPhase(p: Pc, phase: nat) { (p.Blocked? || p.Rechecking?) && p.cp == phase }

  /** The barrier's numbers, how many calls of wait have returned true, and the threads. */
  datatype State = State(running: int, phase: nat, entered: int, trues: nat, pc: seq<Pc>) {
    function At(t: nat, p: Pc): State
      requires t < |pc|
    {
      this.(pc := pc[t := p])
    }

    /** The end of createBarrier for the last thread. */
    function Close(t: nat): State
      requires t < |pc|
    {
      this.(phase := phase + 1, entered := 0).At(t, Notifying)
    }
  }

  datatype Action = Enter(t: nat) | Recheck(t: nat) | Notify(t: nat) | Remove(t: nat) | WakeUp(t: nat)

  /** A thread is removed only outside of wait. */
  predicate Enabled(s: State, a: Action) {
    && a.t < |s.pc|
    && var p := s.pc[a.t];
      match a
      case Enter(t) => p.Outside?
      case Recheck(t) => p.Rechecking?
      case Notify(t) => p.Notifying?
      case Remove(t) => p.Outside?
      case WakeUp(t) => p.Blocked?
  }

  function WakeAll(pc: seq<Pc>): (r: seq<Pc>)
    ensures |r| == |pc| && forall t :: 0 <= t < |pc| ==> r[t] == if pc[t].Blocked? then Rechecking(pc[t].cp) else pc[t]
  {
    seq(|pc|, t requires 0 <= t < |pc| => if pc[t].Blocked? then Rechecking(pc[t].cp) else pc[t])
  }

  function Apply(s: State, a: Action): (s': State)
    requires Enabled(s, a)
    ensures |s'.pc| == |s.pc|
  {
    match a
    case Enter(t) =>
      if s.entered + 1 < s.running then s.(entered := s.entered + 1).At(t, Blocked(s.phase)) else s.Close(t)
    case Recheck(t) =>
      var cp := s.pc[t].cp;
      if s.phase > cp then s.At(t, Outside)
      else if s.entered == s.running then s.Close(t)
      else s.At(t, Blocked(cp))
    case Notify(t) => s.(trues := s.trues + 1, pc := WakeAll(s.pc)[t := Outside])
    case Remove(t) =>
      var s' := s.(running := s.running - 1).At(t, Removed);
      if s.entered != 0 then s'.(pc := WakeAll(s'.pc)) else s'
    case WakeUp(t) => s.At(t, Rechecking(s.pc[t].cp))
  }

  function Start(n: nat): State {
    State(n, 0, 0, 0, seq(n, _ => Outside))
  }

  predicate LegalRun(s: State, run: seq<Action>)
    decreases |run|
  {
    run == [] || (Enabled(s, run[0]) && LegalRun(Apply(s, run[0]), run[1..]))
  }

  function After(s: State, run: seq<Action>): State
    requires LegalRun(s, run)
    decreases |run|
  {
    if run == [] then s else After(Apply(s, run[0]), run[1..])
  }

  // ---- what every step keeps ----

  function Waiters(pc: seq<Pc>, phase: nat): nat {
    Count(pc, p => InPhase(p, phase))
  }

  ghost predicate Inv(s: State) {
    && s.running + Count(s.pc, IsRemoved) == |s.pc|
    && s.entered == Waiters(s.pc, s.phase)
    && s.trues + Count(s.pc, IsNotifying) == s.phase
    && (forall t :: 0 <= t < |s.pc| && (s.pc[t].Blocked? || s.pc[t].Rechecking?) ==> s.pc[t].cp <= s.phase)
    && (s.entered == s.running ==> forall t :: 0 <= t < |s.pc| ==> s.pc[t] != Blocked(s.phase))
    && (forall t :: 0 <= t < |s.pc| && s.pc[t].Blocked? && s.pc[t].cp < s.phase ==>
          exists u :: 0 <= u < |s.pc| && IsNotifying(s.pc[u]))
  }

  lemma CountsMove(pc: seq<Pc>, t: nat, p: Pc, phase: nat)
    requires t < |pc|
    ensures Count(pc[t := p], IsRemoved) + One(IsRemoved(pc[t])) == Count(pc, IsRemoved) + One(IsRemoved(p))
    ensures Count(pc[t := p], IsNotifying) + One(IsNotifying(pc[t])) == Count(pc, IsNotifying) + One(IsNotifying(p))
    ensures Waiters(pc[t := p], phase) + One(InPhase(pc[t], phase)) == Waiters(pc, phase) + One(InPhase(p, phase))
  {
    CountMove(pc, t, p, IsRemoved);
    CountMove(pc, t, p, IsNotifying);
    CountMove(pc, t, p, p => InPhase(p, phase));
  }

  lemma CountsWake(pc: seq<Pc>, phase: nat)
    ensures Count(WakeAll(pc), IsRemoved) == Count(pc, IsRemoved)
    ensures Count(WakeAll(pc), IsNotifying) == Count(pc, IsNotifying)
    ensures Waiters(WakeAll(pc), phase) == Waiters(pc, phase)
  {
    CountSame(pc, WakeAll(pc), IsRemoved);
    CountSame(pc, WakeAll(pc), IsNotifying);
    CountSame(pc, WakeAll(pc), p => InPhase(p, phase));
  }

  /** Nobody has entered a phase that is not open yet. */
  lemma NextPhaseEmpty(s: State)
    requires Inv(s)
    ensures Waiters(s.pc, s.phase + 1) == 0
  {
    CountSome(s.pc, p => InPhase(p, s.phase + 1));
  }

  /** A thread outside of wait has not been counted as entered. */
  lemma OneOutside(s: State, t: nat)
    requires Inv(s) && t < |s.pc| && !s.pc[t].Removed? && !InPhase(s.pc[t], s.phase)
    ensures s.entered < s.running
  {
    var rest := s.pc[t := Removed];
    CountsMove(s.pc, t, Removed, s.phase);
    CountApart(rest, IsRemoved, p => InPhase(p, s.phase));
  }

  lemma StepInv(s: State, a: Action)
    requires Inv(s) && Enabled(s, a)
    ensures Inv(Apply(s, a))
  {
    match a {
      case Enter(t) => if s.entered + 1 < s.running { MoveInv(s, a); } else { CloseInv(s, a); }
      case Recheck(t) =>
        if s.phase == s.pc[t].cp && s.entered == s.running { CloseInv(s, a); } else { MoveInv(s, a); }
      case Notify(t) => NotifyInv(s, t);
      case Remove(t) => RemoveInv(s, t);
      case WakeUp(t) => MoveInv(s, a);
    }
  }

  lemma MoveInv(s: State, a: Action)
    requires Inv(s) && Enabled(s, a) && (a.Enter? || a.Recheck? || a.WakeUp?) && Apply(s, a).phase == s.phase
    ensures Inv(Apply(s, a))
  {
    hide Waiters, Count;
    var s' := Apply(s, a);
    CountsMove(s.pc, a.t, s'.pc[a.t], s.phase);
    if u :| 0 <= u < |s.pc| && IsNotifying(s.pc[u]) {
      assert IsNotifying(s'.pc[u]);
    }
  }

  lemma CloseInv(s: State, a: Action)
    requires Inv(s) && Enabled(s, a) && (a.Enter? || a.Recheck?) && Apply(s, a).phase != s.phase
    ensures Inv(Apply(s, a))
  {
    hide Waiters, Count;
    var s' := Apply(s, a);
    CountsMove(s.pc, a.t, Notifying, s.phase + 1);
    NextPhaseEmpty(s);
    assert IsNotifying(s'.pc[a.t]);
    assert forall t :: 0 <= t < |s'.pc| ==> s'.pc[t] == Notifying || s'.pc[t] == s.pc[t];
  }

  lemma NotifyInv(s: State, t: nat)
    requires Inv(s) && Enabled(s, Notify(t))
    ensures Inv(Apply(s, Notify(t)))
  {
    hide Waiters, Count;
    CountsWake(s.pc, s.phase);
    CountsMove(WakeAll(s.pc), t, Outside, s.phase);
  }

  lemma RemoveInv(s: State, t: nat)
    requires Inv(s) && Enabled(s, Remove(t))
    ensures Inv(Apply(s, Remove(t)))
  {
    OneOutside(s, t);
    hide Waiters, Count;
    var s' := Apply(s, Remove(t));
    CountsMove(s.pc, t, Removed, s.phase);
    CountsWake(s.pc[t := Removed], s.phase);
    if s.entered == 0 {
      NobodyBlocked(s);
      if u :| 0 <= u < |s.pc| && IsNotifying(s.pc[u]) {
        assert IsNotifying(s'.pc[u]);
      }
    }
  }

  lemma NobodyBlocked(s: State)
    requires Inv(s) && s.entered == 0
    ensures forall t :: 0 <= t < |s.pc| ==> !InPhase(s.pc[t], s.phase)
  {
    CountSome(s.pc, p => InPhase(p, s.phase));
  }

  lemma StartInv(n: nat)
    ensures Inv(Start(n))
  {
    CountSome(Start(n).pc, IsRemoved);
    CountSome(Start(n).pc, IsNotifying);
    CountSome(Start(n).pc, p => InPhase(p, 0));
  }

  lemma {:induction false} RunInv(s: State, run: seq<Action>)
    requires Inv(s) && LegalRun(s, run)
    ensures Inv(After(s, run))
    decreases |run|
  {
    if run != [] {
      StepInv(s, run[0]);
      RunInv(Apply(s, run[0]), run[1..]);
    }
  }

  ghost predicate Reachable(s: State) {
    exists n: nat, run: seq<Action> :: LegalRun(Start(n), run) && After(Start(n), run) == s
  }

  lemma ReachableInv(s: State)
    requires Reachable(s)
    ensures Inv(s)
  {
    hide Inv;
    var n: nat, run: seq<Action> :| LegalRun(Start(n), run) && After(Start(n), run) == s;
    StartInv(n);
    RunInv(Start(n), run);
  }

  // ---- what every run keeps ----

  /** The check at the entry never fails: whoever is about to enter is a running thread that has not been counted. */
  lemma CheckHolds(s: State, t: nat)
    requires Reachable(s) && Enabled(s, Enter(t))
    ensures s.entered < s.running
  {
    ReachableInv(s);
    OneOutside(s, t);
  }

  /** Every thread but t has been removed or is waiting in the phase. */
  ghost predicate ClosedBy(s: State, t: nat) {
    forall u :: 0 <= u < |s.pc| && u != t ==> s.pc[u] == Removed || InPhase(s.pc[u], s.phase)
  }

  /** A phase is closed only when every thread that has not been removed is waiting in it or closes it. */
  lemma ClosesWhenAllEntered(s: State, a: Action)
    requires Reachable(s) && Enabled(s, a) && Apply(s, a).phase != s.phase
    ensures Apply(s, a).phase == s.phase + 1 && ClosedBy(s, a.t)
  {
    ReachableInv(s);
    if a.Enter? {
      EnteredLast(s, a.t);
    } else {
      AllEntered(s, a.t);
    }
  }

  lemma EnteredLast(s: State, t: nat)
    requires Inv(s) && t < |s.pc| && s.pc[t] == Outside && s.entered + 1 >= s.running
    ensures ClosedBy(s, t)
  {
    forall u | 0 <= u < |s.pc| && u != t
      ensures s.pc[u] == Removed || InPhase(s.pc[u], s.phase)
    {
      if s.pc[u] != Removed && !InPhase(s.pc[u], s.phase) {
        TwoOutside(s, t, u);
      }
    }
  }

  lemma AllEntered(s: State, t: nat)
    requires Inv(s) && s.entered == s.running
    ensures ClosedBy(s, t)
  {
    forall u | 0 <= u < |s.pc| && u != t
      ensures s.pc[u] == Removed || InPhase(s.pc[u], s.phase)
    {
      if s.pc[u] != Removed && !InPhase(s.pc[u], s.phase) {
        OneOutside(s, u);
      }
    }
  }

  /** The number of those that have entered never exceeds that of the running threads. */
  lemma NotAllOut(s: State)
    requires Inv(s)
    ensures s.entered <= s.running
  {
    CountApart(s.pc, IsRemoved, p => InPhase(p, s.phase));
  }

  lemma TwoOutside(s: State, t: nat, u: nat)
    requires Inv(s) && t < |s.pc| && u < |s.pc| && t != u
    requires !s.pc[t].Removed? && !InPhase(s.pc[t], s.phase) && !s.pc[u].Removed? && !InPhase(s.pc[u], s.phase)
    ensures s.entered + 1 < s.running
  {
    var once := s.pc[t := Removed];
    CountsMove(s.pc, t, Removed, s.phase);
    CountsMove(once, u, Removed, s.phase);
    CountApart(once[u := Removed], IsRemoved, p => InPhase(p, s.phase));
  }

  /** As many calls of wait return true, or are about to, as phases have been closed: one each. */
  lemma OneTruePerPhase(s: State)
    requires Reachable(s)
    ensures s.trues + Count(s.pc, IsNotifying) == s.phase
  {
    ReachableInv(s);
  }

  /** A blocked thread waits for a thread that is still outside or already on its way to let it go. */
  lemma NobodyBlockedForever(s: State, t: nat)
    requires Reachable(s) && t < |s.pc| && s.pc[t].Blocked?
    ensures exists u :: 0 <= u < |s.pc| && !s.pc[u].Blocked? && !s.pc[u].Removed?
    ensures s.entered == s.running ==> exists u :: 0 <= u < |s.pc| && (s.pc[u].Notifying? || s.pc[u].Rechecking?)
  {
    ReachableInv(s);
    if forall u :: 0 <= u < |s.pc| ==> IsRemoved(s.pc[u]) || InPhase(s.pc[u], s.phase) {
      CountCovers(s.pc, IsRemoved, p => InPhase(p, s.phase));
      CountApart(s.pc, IsRemoved, p => InPhase(p, s.phase));
    }
  }
}
