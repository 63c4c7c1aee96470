/**
 * recursive_timed_mutex as a step system: a count and the id of the owner under a mutex, and a notification of one
 * sleeper after the mutex is released. Thread t has the id t + 1, and 0 is nobody's.
 */
module RecursiveTimedMutex {

  datatype Pc = Idle | Asleep | Retesting | Notifying

  /** A thread and how often it has locked the mutex. */
  datatype Thread = Thread(pc: Pc, depth: nat)

  datatype State = State(count: nat, id: nat, threads: seq<Thread>) {
    function To(t: nat, th: Thread): State
      requires t < |threads|
    {
      this.(threads := threads[t := th])
    }
  }

  datatype Action =
    | Lock(t: nat) | Retest(t: nat) | TryLock(t: nat, mutexFree: bool) | Unlock(t: nat) | Notify(t: nat, woken: nat)
    | WakeUp(t: nat)

  predicate IsAsleep(th: Thread) { th.pc == Asleep }

  predicate IsStirring(th: Thread) { th.pc == Notifying || th.pc == Retesting }

  predicate Enabled(s: State, a: Action) {
    && a.t < |s.threads|
    && var th := s.threads[a.t];
      match a
      case Lock(t) => th.pc == Idle
      case Retest(t) => th.pc == Retesting
      case TryLock(t, mutexFree) => th.pc == Idle
      case Unlock(t) => th.pc == Idle && th.depth > 0 && s.count > 0
      case Notify(t, w) =>
        && th.pc == Notifying
        && ((w < |s.threads| && IsAsleep(s.threads[w]))
            || forall u :: 0 <= u < |s.threads| ==> !IsAsleep(s.threads[u]))
      case WakeUp(t) => th.pc == Asleep
  }

  /** lock throws, and try_lock gives up, when the count is at its maximum. */
  function Apply(s: State, a: Action, max: nat): (s': State)
    requires Enabled(s, a)
    ensures |s'.threads| == |s.threads|
  {
    var t := a.t;
    var th := s.threads[t];
    match a
    case Lock(_) =>
      if s.id == t + 1 then
        if s.count == max then s else s.(count := s.count + 1).To(t, Thread(Idle, th.depth + 1))
      else if s.count != 0 then s.To(t, Thread(Asleep, th.depth))
      else State(1, t + 1, s.threads[t := Thread(Idle, 1)])
    case Retest(_) =>
      if s.count != 0 then s.To(t, Thread(Asleep, th.depth)) else State(1, t + 1, s.threads[t := Thread(Idle, 1)])
    case TryLock(_, mutexFree) =>
      if mutexFree && (s.count == 0 || s.id == t + 1) && s.count != max
      then State(s.count + 1, t + 1, s.threads[t := Thread(Idle, th.depth + 1)])
      else s
    case Unlock(_) =>
      if s.count - 1 == 0 then State(0, 0, s.threads[t := Thread(Notifying, th.depth - 1)])
      else s.(count := s.count - 1).To(t, Thread(Idle, th.depth - 1))
    case Notify(_, w) =>
      var s' := s.To(t, Thread(Idle, th.depth));
      if w < |s'.threads| && IsAsleep(s'.threads[w]) then s'.To(w, Thread(Retesting, s'.threads[w].depth)) else s'
    case WakeUp(_) => s.To(t, Thread(Retesting, th.depth))
  }

  function Start(n: nat): State {
    State(0, 0, seq(n, _ => Thread(Idle, 0)))
  }

  predicate LegalRun(s: State, run: seq<Action>, max: nat)
    decreases |run|
  {
    run == [] || (Enabled(s, run[0]) && LegalRun(Apply(s, run[0], max), run[1..], max))
  }

  function After(s: State, run: seq<Action>, max: nat): State
    requires LegalRun(s, run, max)
    decreases |run|
  {
    if run == [] then s else After(Apply(s, run[0], max), run[1..], max)
  }

  /** The owner has locked as often as the count says and nobody else has; sleepers at a free mutex are being seen to. */
  ghost predicate Inv(s: State, max: nat) {
    && s.count <= max && s.id <= |s.threads| && (s.id == 0 <==> s.count == 0)
    && (forall t :: 0 <= t < |s.threads| ==> s.threads[t].depth == if s.id == t + 1 then s.count else 0)
    && (forall t :: 0 <= t < |s.threads| && s.threads[t].pc in {Asleep, Retesting} ==> s.threads[t].depth == 0)
    && (s.count == 0 ==> forall t :: 0 <= t < |s.threads| && IsAsleep(s.threads[t]) ==>
          exists u :: 0 <= u < |s.threads| && IsStirring(s.threads[u]))
  }

  lemma StepInv(s: State, a: Action, max: nat)
    requires max > 0 && Inv(s, max) && Enabled(s, a)
    ensures Inv(Apply(s, a, max), max)
  {
    var s' := Apply(s, a, max);
    if s'.count == 0 {
      forall t | 0 <= t < |s'.threads| && IsAsleep(s'.threads[t])
        ensures exists u :: 0 <= u < |s'.threads| && IsStirring(s'.threads[u])
      {
        if a.Notify? {
          assert IsAsleep(s.threads[t]) && IsStirring(s'.threads[a.woken]);
        } else if a.Unlock? || a.WakeUp? {
          assert IsStirring(s'.threads[a.t]);
        } else {
          var u :| 0 <= u < |s.threads| && IsStirring(s.threads[u]);
          assert IsStirring(s'.threads[u]);
        }
      }
    }
  }

  lemma {:induction false} RunInv(s: State, run: seq<Action>, max: nat)
    requires max > 0 && Inv(s, max) && LegalRun(s, run, max)
    ensures Inv(After(s, run, max), max)
    decreases |run|
  {
    if run != [] {
      StepInv(s, run[0], max);
      RunInv(Apply(s, run[0], max), run[1..], max);
    }
  }

  /** In every interleaving one thread at most holds the mutex, as often as the count says, and no sleeper is lost. */
  lemma OwnsAlone(n: nat, run: seq<Action>, max: nat, t: nat)
    requires max > 0 && LegalRun(Start(n), run, max) && t < |After(Start(n), run, max).threads|
    ensures var s := After(Start(n), run, max);
      && s.count <= max
      && (s.threads[t].depth > 0 ==> s.threads[t].depth == s.count && s.id == t + 1)
      && (s.threads[t].depth > 0 ==> forall u :: 0 <= u < |s.threads| && u != t ==> s.threads[u].depth == 0)
      && (s.threads[t].pc == Asleep ==>
            exists u :: 0 <= u < |s.threads| && (s.threads[u].depth > 0 || IsStirring(s.threads[u])))
  {
    hide LegalRun, After;
    RunInv(Start(n), run, max);
    var s := After(Start(n), run, max);
    if s.threads[t].pc == Asleep && s.count > 0 {
      assert s.threads[s.id - 1].depth > 0;
    }
  }

  // ---- the mutex itself ----

  /** t has the mutex, and nobody else. */
  ghost predicate OwnedBy(s: State, t: nat) {
    forall u :: 0 <= u < |s.threads| ==> (s.threads[u].depth > 0 <==> u == t)
  }

  /** What a thread has got from lock, so far. */
  datatype Verdict = Locked | Throw | Sleep

  /** A count and an id. The threads are ghost; every method is a critical section, or the notification after one. */
  class Mutex {
    const max: nat
    var count: nat
    var id: nat
    ghost var threads: seq<Thread>

    ghost function View(): State
      reads this
    {
      State(count, id, threads)
    }

    ghost predicate Valid()
      reads this
    {
      max > 0 && Inv(View(), max)
    }

    constructor (max: nat, n: nat)
      requires max > 0
      ensures Valid() && this.max == max && View() == Start(n)
    {
      this.max := max;
      count, id := 0, 0;
      threads := Start(n).threads;
    }

    /** The ghost half of an operation. */
    ghost method Follow(a: Action, was: State)
      requires max > 0 && Inv(was, max) && Enabled(was, a) && threads == was.threads
      requires count == Apply(was, a, max).count && id == Apply(was, a, max).id
      modifies this`threads
      ensures Valid() && View() == Apply(was, a, max)
    {
      StepInv(was, a, max);
      threads := Apply(was, a, max).threads;
    }

    /** lock up to its wait: the caller has the mutex, once more than before, or waits for its owner, or has it too often. */
    method LockSection(t: nat) returns (verdict: Verdict)
      requires Valid() && Enabled(View(), Lock(t))
      modifies this
      ensures Valid() && View() == Apply(old(View()), Lock(t), max)
      ensures verdict == Locked ==> OwnedBy(View(), t) && threads[t].depth == old(threads[t].depth) + 1 <= max
      ensures verdict == Throw <==> old(threads[t].depth) == max
      ensures verdict == Throw ==> View() == old(View())
      ensures verdict == Sleep <==> exists u :: 0 <= u < |threads| && u != t && old(threads)[u].depth > 0
    {
      ghost var was := View();
      OwnerIs(was, max);
      verdict := Locked;
      if id == t + 1 {
        if count == max {
          verdict := Throw;
        } else {
          count := count + 1;
        }
      } else if count != 0 {
        verdict := Sleep;
      } else {
        count, id := 1, t + 1;
      }
      Follow(Lock(t), was);
      OwnerIs(View(), max);
    }

    /** lock of a thread that has been woken: it has the mutex, or sleeps again behind another owner. */
    method RetestSection(t: nat) returns (locked: bool)
      requires Valid() && Enabled(View(), Retest(t))
      modifies this
      ensures Valid() && View() == Apply(old(View()), Retest(t), max)
      ensures locked ==> OwnedBy(View(), t) && threads[t].depth == 1
      ensures !locked <==> exists u :: 0 <= u < |threads| && u != t && threads[u].depth > 0
    {
      ghost var was := View();
      OwnerIs(was, max);
      locked := count == 0;
      if locked {
        count, id := 1, t + 1;
      }
      Follow(Retest(t), was);
      OwnerIs(View(), max);
    }

    /** mutexFree says whether the inner mutex could be taken at once. */
    method TryLockSection(t: nat, mutexFree: bool) returns (locked: bool)
      requires Valid() && Enabled(View(), TryLock(t, mutexFree))
      modifies this
      ensures Valid() && View() == Apply(old(View()), TryLock(t, mutexFree), max)
      ensures locked ==> OwnedBy(View(), t) && threads[t].depth == old(threads[t].depth) + 1 <= max
      ensures !locked ==> View() == old(View())
      ensures !locked <==> !mutexFree || old(threads[t].depth) == max
                           || exists u :: 0 <= u < |threads| && u != t && old(threads)[u].depth > 0
    {
      ghost var was := View();
      OwnerIs(was, max);
      locked := false;
      if mutexFree && (count == 0 || id == t + 1) {
        if count != max {
          count := count + 1;
          id := t + 1;
          locked := true;
        }
      }
      Follow(TryLock(t, mutexFree), was);
      OwnerIs(View(), max);
    }

    /** The last unlock leaves the mutex to nobody, and owes a notification; any other keeps it with its owner. */
    method UnlockSection(t: nat) returns (notify: bool)
      requires Valid() && Enabled(View(), Unlock(t))
      modifies this
      ensures Valid() && View() == Apply(old(View()), Unlock(t), max)
      ensures notify <==> forall u :: 0 <= u < |threads| ==> threads[u].depth == 0
      ensures !notify ==> OwnedBy(View(), t)
      ensures threads[t].depth == old(threads[t].depth) - 1
    {
      ghost var was := View();
      count := count - 1;
      notify := count == 0;
      if notify {
        id := 0;
      }
      Follow(Unlock(t), was);
      OwnerIs(View(), max);
    }
  }

  lemma OwnerIs(s: State, max: nat)
    requires Inv(s, max)
    ensures if s.id == 0 then forall u :: 0 <= u < |s.threads| ==> s.threads[u].depth == 0
            else s.id <= |s.threads| && OwnedBy(s, s.id - 1) && s.threads[s.id - 1].depth == s.count > 0
  {
  }
}
