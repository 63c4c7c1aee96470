/**
 * The barrier itself: three numbers. Where each thread stands is ghost; every method is a critical section, or the
 * notification after one, with what the thread may conclude from it.
 */
module BenchmarkBarrier {

  import opened Threads
  import opened BarrierProtocol

  class Barrier {
    var runningThreads: int
    var phaseNumber: nat
    var entered: int
    ghost var pc: seq<Pc>
    ghost var trues: nat

    ghost function View(): State
      reads this
    {
      State(runningThreads, phaseNumber, entered, trues, pc)
    }

    ghost predicate Valid()
      reads this
    {
      Inv(View())
    }

    constructor (numThreads: nat)
      ensures Valid() && View() == Start(numThreads)
    {
      runningThreads := numThreads;
      phaseNumber, entered, trues := 0, 0, 0;
      pc := Start(numThreads).pc;
      new;
      StartInv(numThreads);
    }

    /** The ghost half of an operation. */
    ghost method Follow(a: Action, was: State)
      requires Inv(was) && Enabled(was, a) && pc == was.pc && trues == was.trues
      requires var s' := Apply(was, a); runningThreads == s'.running && phaseNumber == s'.phase && entered == s'.entered
      modifies this`pc, this`trues
      ensures Valid() && View() == Apply(was, a)
    {
      StepInv(was, a);
      pc, trues := Apply(was, a).pc, Apply(was, a).trues;
    }

    /**
     * createBarrier of a thread that has just come. The check at its start holds; a thread that waits remembers the
     * phase, and one that does not is the last of all running threads.
     */
    method EnterSection(ghost t: nat) returns (lastThread: bool, cp: nat)
      requires Valid() && Enabled(View(), Enter(t))
      modifies this
      ensures Valid() && View() == Apply(old(View()), Enter(t))
      ensures old(entered) < old(runningThreads)
      ensures lastThread <==> old(entered) + 1 == old(runningThreads)
      ensures lastThread <==> pc[t] == Notifying
      ensures lastThread ==> phaseNumber == old(phaseNumber) + 1 && ClosedBy(old(View()), t)
      ensures !lastThread ==> pc[t] == Blocked(cp) && cp == phaseNumber == old(phaseNumber)
    {
      ghost var was := View();
      OneOutside(was, t);
      entered := entered + 1;
      lastThread, cp := false, phaseNumber;
      if entered >= runningThreads {
        EnteredLast(was, t);
        phaseNumber := phaseNumber + 1;
        entered := 0;
        lastThread := true;
      }
      Follow(Enter(t), was);
    }

    /**
     * createBarrier of a thread woken in phase cp: the phase is over, or all running threads are in it and this one
     * closes it, or it blocks again.
     */
    method RecheckSection(ghost t: nat, cp: nat) returns (done: bool, lastThread: bool)
      requires Valid() && Enabled(View(), Recheck(t)) && pc[t] == Rechecking(cp)
      modifies this
      ensures Valid() && View() == Apply(old(View()), Recheck(t))
      ensures done && !lastThread <==> cp < old(phaseNumber)
      ensures lastThread ==> done && pc[t] == Notifying && phaseNumber == cp + 1 && ClosedBy(old(View()), t)
      ensures !done ==> pc[t] == Blocked(cp) && entered < runningThreads
    {
      ghost var was := View();
      done, lastThread := false, false;
      if phaseNumber > cp {
        done := true;
      } else if entered == runningThreads {
        AllEntered(was, t);
        phaseNumber := phaseNumber + 1;
        entered := 0;
        done, lastThread := true, true;
      } else {
        NotAllOut(was);
      }
      Follow(Recheck(t), was);
    }

    /** The end of wait for the last thread: nobody of an earlier phase is left blocked. */
    method NotifySection(ghost t: nat)
      requires Valid() && Enabled(View(), Notify(t))
      modifies this
      ensures Valid() && View() == Apply(old(View()), Notify(t))
      ensures forall u :: 0 <= u < |pc| ==> !pc[u].Blocked?
    {
      ghost var was := View();
      Follow(Notify(t), was);
    }

    /** One thread less; if that was the one the others waited for, nobody stays blocked in the phase. */
    method RemoveThread(ghost t: nat)
      requires Valid() && Enabled(View(), Remove(t))
      modifies this
      ensures Valid() && View() == Apply(old(View()), Remove(t))
      ensures runningThreads == old(runningThreads) - 1 >= entered
      ensures entered != 0 ==> forall u :: 0 <= u < |pc| ==> !pc[u].Blocked?
      ensures entered == runningThreads ==> forall u :: 0 <= u < |pc| ==> pc[u] != Blocked(phaseNumber)
    {
      ghost var was := View();
      OneOutside(was, t);
      runningThreads := runningThreads - 1;
      Follow(Remove(t), was);
    }
  }
}
