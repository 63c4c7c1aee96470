/**
 * The shared state itself: a word of flags, an exception pointer and a count of owners. The promise, the threads and
 * the history are ghost; every method is a critical section under the mutex, or a step of the promise's destructor or
 * of a thread's exit, with what the thread may conclude from it.
 */
module AssocSubState {

  import opened Threads
  import opened FutureState

  const CONSTRUCTED: bv8 := 1
  const FUTURE_ATTACHED: bv8 := 2
  const READY: bv8 := 4
  const DEFERRED: bv8 := 8

  datatype Bits = Bits(constructed: bool, attached: bool, ready: bool, deferred: bool)

  function BitsOf(w: bv8): Bits {
    Bits(Has(w, CONSTRUCTED), Has(w, FUTURE_ATTACHED), Has(w, READY), Has(w, DEFERRED))
  }

  predicate Has(w: bv8, bit: bv8) {
    w & bit != 0
  }

  function With(w: bv8, bits: bv8): bv8 {
    w | bits
  }

  function Without(w: bv8, bits: bv8): bv8 {
    w & !bits
  }

  /** Setting and clearing flags leaves the others alone. */
  lemma SettingBits(w: bv8)
    ensures BitsOf(With(w, CONSTRUCTED)) == BitsOf(w).(constructed := true)
    ensures BitsOf(With(w, FUTURE_ATTACHED)) == BitsOf(w).(attached := true)
    ensures BitsOf(With(w, READY)) == BitsOf(w).(ready := true)
    ensures BitsOf(With(With(w, CONSTRUCTED), READY)) == BitsOf(w).(constructed := true, ready := true)
    ensures BitsOf(Without(w, DEFERRED)) == BitsOf(w).(deferred := false)
  {
  }

  /** What a waiter does next. */
  datatype Verdict = GoOn | Execute | Sleep

  class SubState {
    var state: bv8
    /** Whether the exception pointer is set. */
    var exception: bool
    /** One less than the owners, as in every control block. */
    var sharedOwners: int
    ghost var promise: Promise
    ghost var threads: seq<Thread>
    ghost var wins: nat
    ghost var starts: nat

    ghost function View(): State
      reads this
    {
      var b := BitsOf(state);
      State(b.constructed, exception, b.attached, b.ready, b.deferred, promise, wins, starts, threads)
    }

    ghost predicate Valid()
      reads this
    {
      Inv(View()) && sharedOwners + 1 == View().UseCount()
    }

    predicate HasValue()
      reads this
    {
      Has(state, CONSTRUCTED) || exception
    }

    /** The outcome is there, and is a value or an exception as said. */
    predicate Holds(value: bool)
      reads this
    {
      Has(state, CONSTRUCTED) == value && exception == !value
    }

    predicate IsReady()
      reads this
    {
      Has(state, READY)
    }

    /** Nobody sleeps, which is what a notification of all waiters leaves. */
    ghost predicate NobodyAsleep()
      reads this
    {
      forall u :: 0 <= u < |threads| ==> threads[u].pc != Asleep
    }

    constructor (n: nat)
      requires n > 0
      ensures Valid() && View() == StartPromise(n)
    {
      state, exception, sharedOwners := 0, false, 0;
      promise, wins, starts := Alive, 0, 0;
      threads := StartPromise(n).threads;
      new;
      StartInv(n);
      NoTotals(StartPromise(n));
      UseCountIs(StartPromise(n));
    }

    /** The ghost half of an operation. */
    ghost method Follow(a: Action, was: State)
      requires Inv(was) && Enabled(was, a)
      requires threads == was.threads && promise == was.promise && wins == was.wins && starts == was.starts
      requires var s' := Apply(was, a);
        && BitsOf(state) == Bits(s'.constructed, s'.attached, s'.ready, s'.deferred) && exception == s'.exception
        && sharedOwners + 1 == was.UseCount() + Joins(was, a)
      modifies this`threads, this`promise, this`wins, this`starts
      ensures Valid() && View() == Apply(was, a)
    {
      hide BitsOf, Apply, Inv, Joins;
      StepInv(was, a);
      UseCountMoves(was, a);
      var s' := Apply(was, a);
      threads, promise, wins, starts := s'.threads, s'.promise, s'.wins, s'.starts;
      assert View() == s';
    }

    /** set_value and set_exception: the first of them makes the state ready for everybody, all others throw. */
    method SetSection(ghost t: nat, value: bool) returns (threw: bool)
      requires Valid() && Enabled(View(), Set(t, value))
      modifies this
      ensures Valid() && View() == Apply(old(View()), Set(t, value))
      ensures threw <==> old(HasValue())
      ensures if threw then state == old(state) && exception == old(exception) else Holds(value)
      ensures HasValue() && wins == 1 && (!threw ==> IsReady() && NobodyAsleep())
    {
      ghost var was := View();
      hide Has, With, Without;
      SettingBits(state);
      threw := HasValue();
      if !threw {
        if value {
          state := With(With(state, CONSTRUCTED), READY);
        } else {
          exception := true;
          state := With(state, READY);
        }
      }
      Follow(Set(t, value), was);
    }

    /** The forms at thread exit: the outcome is there, and is kept for the exit of this thread alone. */
    method SetAtExitSection(ghost t: nat, value: bool) returns (threw: bool)
      requires Valid() && Enabled(View(), SetAtExit(t, value))
      modifies this
      ensures Valid() && View() == Apply(old(View()), SetAtExit(t, value))
      ensures threw <==> old(HasValue())
      ensures if threw then state == old(state) && exception == old(exception) else Holds(value)
      ensures HasValue() && wins == 1 && (!threw ==> !IsReady() && OnlyEntry(threads, t))
    {
      ghost var was := View();
      hide Has, With, Without;
      SettingBits(state);
      threw := HasValue();
      if !threw {
        if value {
          state := With(state, CONSTRUCTED);
        } else {
          exception := true;
        }
        sharedOwners := sharedOwners + 1;
      }
      Follow(SetAtExit(t, value), was);
      if !threw {
        EntryAlone(View(), t);
      }
    }

    /** The constructor of the future: a second one throws. */
    method AttachFuture(ghost t: nat) returns (threw: bool)
      requires Valid() && Enabled(View(), GetFuture(t))
      modifies this
      ensures Valid() && View() == Apply(old(View()), GetFuture(t))
      ensures threw <==> old(View().attached)
      ensures View().attached && (!threw ==> sharedOwners >= 1 && threads[t].futures == old(threads[t].futures) + 1)
      ensures threw ==> View() == old(View())
    {
      ghost var was := View();
      hide Has, With, Without;
      SettingBits(state);
      threw := Has(state, FUTURE_ATTACHED);
      if !threw {
        sharedOwners := sharedOwners + 1;
        state := With(state, FUTURE_ATTACHED);
      }
      Follow(GetFuture(t), was);
      UseCountIs(View());
      SumPart(threads, t, FuturesOf);
    }

    /** The destructor of the promise looks first: it goes quietly only if there is an outcome or nobody to miss one. */
    method DestroyPromiseStep(ghost t: nat) returns (breaks: bool)
      requires Valid() && Enabled(View(), DestroyPromise(t))
      modifies this
      ensures Valid() && View() == Apply(old(View()), DestroyPromise(t))
      ensures if breaks then promise == Breaking else promise == Gone
      ensures breaks <==> !HasValue() && exists u :: 0 <= u < |threads| && threads[u].futures > 0
    {
      ghost var was := View();
      var useCount := sharedOwners + 1;
      breaks := !HasValue() && useCount > 1;
      if !breaks {
        sharedOwners := sharedOwners - 1;
      }
      Follow(DestroyPromise(t), was);
      if !HasValue() {
        SomeFuture(was);
      }
    }

    /** The broken promise is stored, as the only outcome, and everybody is told. */
    method BreakSection(ghost t: nat)
      requires Valid() && Enabled(View(), Break(t))
      modifies this
      ensures Valid() && View() == Apply(old(View()), Break(t))
      ensures !old(HasValue()) && Holds(false) && IsReady() && wins == 1 && NobodyAsleep()
    {
      ghost var was := View();
      hide Has, With, Without;
      SettingBits(state);
      exception := true;
      state := With(state, READY);
      sharedOwners := sharedOwners - 1;
      Follow(Break(t), was);
    }

    /** __sub_wait up to its wait, its end or the deferred call, which is then started for the only time. */
    method WaitSection(ghost t: nat) returns (verdict: Verdict)
      requires Valid() && Enabled(View(), Test(t))
      modifies this
      ensures Valid() && View() == Apply(old(View()), Test(t))
      ensures verdict == GoOn <==> IsReady()
      ensures verdict == GoOn ==> HasValue()
      ensures verdict == Execute ==> old(starts) == 0 && starts == 1 && !HasValue()
      ensures verdict == Execute ==> forall u :: 0 <= u < |threads| ==> (threads[u].pc == Executing <==> u == t)
      ensures verdict == Sleep <==> threads[t].pc == Asleep
    {
      ghost var was := View();
      hide Has, With, Without;
      SettingBits(state);
      if Has(state, READY) {
        verdict := GoOn;
      } else if Has(state, DEFERRED) {
        state := Without(state, DEFERRED);
        verdict := Execute;
      } else {
        verdict := Sleep;
      }
      Follow(Test(t), was);
      if verdict == Execute {
        ExecutingAlone(View(), t);
      }
    }

    /** The loop in __sub_wait, of a thread that has been woken: it ends on an outcome. */
    method RetestSection(ghost t: nat) returns (goOn: bool)
      requires Valid() && Enabled(View(), Retest(t))
      modifies this
      ensures Valid() && View() == Apply(old(View()), Retest(t))
      ensures goOn <==> IsReady()
      ensures if goOn then HasValue() else threads[t].pc == Asleep
    {
      ghost var was := View();
      goOn := Has(state, READY);
      Follow(Retest(t), was);
    }

    /** The deferred call is over: its outcome is the first, and everybody is told. */
    method FinishSection(ghost t: nat, value: bool)
      requires Valid() && Enabled(View(), Finish(t, value))
      modifies this
      ensures Valid() && View() == Apply(old(View()), Finish(t, value))
      ensures !old(HasValue()) && Holds(value) && IsReady() && wins == 1 && NobodyAsleep()
    {
      ghost var was := View();
      hide Has, With, Without;
      SettingBits(state);
      ExecutingAlone(was, t);
      if value {
        state := With(With(state, CONSTRUCTED), READY);
      } else {
        exception := true;
        state := With(state, READY);
      }
      Follow(Finish(t, value), was);
    }

    /** One entry of a thread's exit list: its outcome, which no other thread keeps, becomes ready. */
    method MakeReady(ghost t: nat)
      requires Valid() && Enabled(View(), ExitStep(t)) && threads[t].entries > 0
      modifies this
      ensures Valid() && View() == Apply(old(View()), ExitStep(t))
      ensures exception == old(exception) && Has(state, CONSTRUCTED) == old(Has(state, CONSTRUCTED))
      ensures HasValue() && IsReady() && NobodyAsleep() && forall u :: 0 <= u < |threads| ==> threads[u].entries == 0
    {
      ghost var was := View();
      hide Has, With, Without;
      SettingBits(state);
      EntryAlone(was, t);
      state := With(state, READY);
      sharedOwners := sharedOwners - 1;
      Follow(ExitStep(t), was);
    }
  }
}
