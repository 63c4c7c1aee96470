/**
 * call_once itself: flags that are words, 0 before, 1 during and ~0 after the one call of their function. Where each
 * thread stands is ghost; every method is a critical section, or the broadcast after one, with what the thread may
 * conclude from it.
 */
module OnceFlags {

  import opened Threads
  import opened CallOnce

  const COMPLETE: nat := 0xFFFF_FFFF_FFFF_FFFF

  predicate IsFlag(w: nat) {
    w == 0 || w == 1 || w == COMPLETE
  }

  function FlagOf(w: nat): Flag {
    if w == 0 then NotRun else if w == 1 then Running else Done
  }

  function FlagsOf(ws: seq<nat>): (r: seq<Flag>)
    ensures |r| == |ws| && forall f :: 0 <= f < |ws| ==> r[f] == FlagOf(ws[f])
  {
    seq(|ws|, f requires 0 <= f < |ws| => FlagOf(ws[f]))
  }

  /** What a thread does when it has tested a flag. */
  datatype Verdict = Wait | Call | Return

  class Flags {
    var flags: array<nat>
    ghost var completed: seq<nat>
    ghost var pc: seq<Pc>

    ghost function View(): State
      reads this, flags
    {
      State(FlagsOf(flags[..]), completed, pc)
    }

    ghost predicate Valid()
      reads this, flags
    {
      (forall f :: 0 <= f < flags.Length ==> IsFlag(flags[f])) && Inv(View())
    }

    constructor (n: nat, threads: nat)
      ensures Valid() && fresh(flags) && View() == Start(n, threads)
    {
      flags := new nat[n](_ => 0);
      completed := Start(n, threads).completed;
      pc := Start(n, threads).pc;
      new;
      StartInv(n, threads);
      assert FlagsOf(flags[..]) == Start(n, threads).flags;
    }

    /** The ghost half of an operation. */
    ghost method Follow(a: Action, was: State)
      requires Inv(was) && Enabled(was, a) && pc == was.pc && completed == was.completed
      requires FlagsOf(flags[..]) == Apply(was, a).flags && forall f :: 0 <= f < flags.Length ==> IsFlag(flags[f])
      modifies this`pc, this`completed
      ensures Valid() && View() == Apply(was, a)
    {
      StepInv(was, a);
      pc, completed := Apply(was, a).pc, Apply(was, a).completed;
    }

    method Store(f: nat, w: nat)
      requires f < flags.Length && IsFlag(w)
      modifies flags
      ensures forall g :: 0 <= g < flags.Length ==> flags[g] == if g == f then w else old(flags[g])
      ensures FlagsOf(flags[..]) == old(FlagsOf(flags[..]))[f := FlagOf(w)]
    {
      flags[f] := w;
    }

    /** The test before __call_once: a flag that is complete needs no lock. */
    method Enter(ghost t: nat, f: nat) returns (done: bool)
      requires Valid() && Enabled(View(), Action.Call(t, f))
      modifies this`pc, this`completed
      ensures Valid() && View() == Apply(old(View()), Action.Call(t, f))
      ensures done <==> completed[f] == 1
    {
      ghost var was := View();
      done := flags[f] == COMPLETE;
      Follow(Action.Call(t, f), was);
    }

    /**
     * From the lock to the wait, the call or the return. A thread that waits has somebody to wait for, one that calls
     * is alone with a function that has never returned, and one that returns finds it completed.
     */
    method TestSection(ghost t: nat, f: nat) returns (verdict: Verdict)
      requires Valid() && Enabled(View(), Test(t)) && pc[t] == Testing(f)
      modifies this`pc, this`completed, flags
      ensures Valid() && flags == old(flags) && View() == Apply(old(View()), Test(t))
      ensures verdict == Wait <==> exists u :: 0 <= u < |pc| && u != t && pc[u] == InFunc(f)
      ensures verdict == Verdict.Call ==>
        pc[t] == InFunc(f) && completed[f] == 0 && forall u :: 0 <= u < |pc| && u != t ==> pc[u] != InFunc(f)
      ensures verdict == Return ==> pc[t] == Returned(f) && completed[f] == 1
    {
      ghost var was := View();
      RunnerExists(was, f);
      if flags[f] == 1 {
        verdict := Wait;
      } else if flags[f] == 0 {
        Store(f, 1);
        verdict := Verdict.Call;
      } else {
        verdict := Return;
      }
      Follow(Test(t), was);
      assert forall u :: 0 <= u < |pc| && u != t ==> pc[u] == was.pc[u];
      assert was.pc[t] != InFunc(f);
      if verdict == Wait {
        ghost var u :| 0 <= u < |pc| && was.pc[u] == InFunc(f);
        assert pc[u] == InFunc(f);
      }
    }

    /** The function has returned, for the first and only time. */
    method CompleteSection(ghost t: nat, f: nat)
      requires Valid() && Enabled(View(), Complete(t)) && pc[t] == InFunc(f)
      modifies this`pc, this`completed, flags
      ensures Valid() && flags == old(flags) && View() == Apply(old(View()), Complete(t))
      ensures old(completed)[f] == 0 && completed[f] == 1 && forall u :: 0 <= u < |pc| ==> pc[u] != InFunc(f)
    {
      ghost var was := View();
      OneRunner(was, t, t);
      Store(f, COMPLETE);
      Follow(Complete(t), was);
      NobodyRuns(View(), f);
    }

    /** The function has thrown: it has not completed, and nobody is in it. */
    method ThrowSection(ghost t: nat, f: nat)
      requires Valid() && Enabled(View(), Throw(t)) && pc[t] == InFunc(f)
      modifies this`pc, this`completed, flags
      ensures Valid() && flags == old(flags) && View() == Apply(old(View()), Throw(t))
      ensures completed[f] == 0 && forall u :: 0 <= u < |pc| ==> pc[u] != InFunc(f)
    {
      ghost var was := View();
      OneRunner(was, t, t);
      Store(f, 0);
      Follow(Throw(t), was);
      RunnerExists(View(), f);
    }

    /** The broadcast, on whichever flag: nobody sleeps right after it, and a normal return means completion. */
    method BroadcastAndLeave(ghost t: nat, ghost f: nat, ghost normal: bool)
      requires Valid() && Enabled(View(), Broadcast(t)) && pc[t] == Broadcasting(f, normal)
      modifies this`pc, this`completed
      ensures Valid() && View() == Apply(old(View()), Broadcast(t))
      ensures forall u :: 0 <= u < |pc| ==> !pc[u].Asleep?
      ensures normal ==> f < |completed| && completed[f] == 1
    {
      Follow(Broadcast(t), View());
    }
  }
}
