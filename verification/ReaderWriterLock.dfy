/**
 * The two-gate reader/writer lock as a step system. Each critical section under the mutex is one action, split where
 * it waits; a sleeping thread sits at a gate until it is notified or wakes up for no reason.
 */
module ReaderWriterLock {

  import opened Threads

  /** WantWrite, WantRead and Draining are threads on their way to test the lock word, or woken to test it again. */
  datatype Pc =
    | Idle
    | WantWrite | Gate1ForWrite | Draining | Gate2 | Owning
    | WantRead | Gate1ForRead | Sharing

  predicate IsSharing(p: Pc) { p == Sharing }

  predicate IsWriter(p: Pc) { p == Draining || p == Gate2 || p == Owning }

  predicate AtGate1(p: Pc) { p == Gate1ForWrite || p == Gate1ForRead }

  predicate Asleep(p: Pc) { AtGate1(p) || p == Gate2 }

  predicate IsIdle(p: Pc) { p == Idle }

  /** The lock word: the writer bit, and the number of readers in the other bits. */
  datatype State = State(writing: bool, readers: nat, pc: seq<Pc>) {
    function To(t: nat, p: Pc): State
      requires t < |pc|
    {
      this.(pc := pc[t := p])
    }
  }

  datatype Action =
    | CallLock(t: nat) | EnterWrite(t: nat) | Drain(t: nat) | TryLock(t: nat) | Unlock(t: nat)
    | CallLockShared(t: nat) | EnterRead(t: nat) | TryLockShared(t: nat)
    | UnlockShared(t: nat, woken: nat)
    | WakeUp(t: nat)

  function Woken(p: Pc): Pc {
    match p
    case Gate1ForWrite => WantWrite
    case Gate1ForRead => WantRead
    case Gate2 => Draining
    case _ => p
  }

  function WakeGate1(pc: seq<Pc>): (r: seq<Pc>)
    ensures |r| == |pc| && forall t :: 0 <= t < |pc| ==> r[t] == if AtGate1(pc[t]) then Woken(pc[t]) else pc[t]
  {
    seq(|pc|, t requires 0 <= t < |pc| => if AtGate1(pc[t]) then Woken(pc[t]) else pc[t])
  }

  /** notify_one: w is the thread that is woken, if one sleeps there. */
  predicate Notified(pc: seq<Pc>, gate: Pc -> bool, w: nat) {
    (w < |pc| && gate(pc[w])) || forall t :: 0 <= t < |pc| ==> !gate(pc[t])
  }

  predicate AtGate2(p: Pc) { p == Gate2 }

  function NotifyOne(s: State, gate: Pc -> bool, w: nat): State {
    if w < |s.pc| && gate(s.pc[w]) then s.To(w, Woken(s.pc[w])) else s
  }

  /** The gate that unlock_shared notifies once the count is down, if any. */
  predicate FreesWriter(s: State) {
    s.writing && s.readers == 1
  }

  predicate FreesReader(s: State, max: nat) {
    !s.writing && s.readers == max
  }

  predicate Enabled(s: State, a: Action, max: nat) {
    && a.t < |s.pc|
    && match a
       case CallLock(t) => s.pc[t] == Idle
       case EnterWrite(t) => s.pc[t] == WantWrite
       case Drain(t) => s.pc[t] == Draining
       case TryLock(t) => s.pc[t] == Idle
       case Unlock(t) => s.pc[t] == Owning
       case CallLockShared(t) => s.pc[t] == Idle
       case EnterRead(t) => s.pc[t] == WantRead
       case TryLockShared(t) => s.pc[t] == Idle
       case UnlockShared(t, w) =>
         && s.pc[t] == Sharing && s.readers > 0
         && (FreesWriter(s) ==> Notified(s.pc, AtGate2, w))
         && (FreesReader(s, max) ==> Notified(s.pc, AtGate1, w))
       case WakeUp(t) => Asleep(s.pc[t])
  }

  function Apply(s: State, a: Action, max: nat): (s': State)
    requires Enabled(s, a, max)
    ensures |s'.pc| == |s.pc|
  {
    match a
    case CallLock(t) => s.To(t, WantWrite)
    case EnterWrite(t) =>
      if s.writing then s.To(t, Gate1ForWrite)
      else s.(writing := true).To(t, if s.readers != 0 then Gate2 else Owning)
    case Drain(t) => s.To(t, if s.readers != 0 then Gate2 else Owning)
    case TryLock(t) =>
      if !s.writing && s.readers == 0 then s.(writing := true).To(t, Owning) else s
    case Unlock(t) => State(false, 0, WakeGate1(s.pc[t := Idle]))
    case CallLockShared(t) => s.To(t, WantRead)
    case EnterRead(t) =>
      if s.writing || s.readers == max then s.To(t, Gate1ForRead)
      else s.(readers := s.readers + 1).To(t, Sharing)
    case TryLockShared(t) =>
      if !s.writing && s.readers != max then s.(readers := s.readers + 1).To(t, Sharing) else s
    case UnlockShared(t, w) =>
      var s' := s.(readers := s.readers - 1).To(t, Idle);
      if FreesWriter(s) then NotifyOne(s', AtGate2, w)
      else if FreesReader(s, max) then NotifyOne(s', AtGate1, w)
      else s'
    case WakeUp(t) => s.To(t, Woken(s.pc[t]))
  }

  function Start(n: nat): State {
    State(false, 0, seq(n, _ => Idle))
  }

  // ---- runs ----

  predicate LegalRun(s: State, run: seq<Action>, max: nat)
    decreases |run|
  {
    run == [] || (Enabled(s, run[0], max) && LegalRun(Apply(s, run[0], max), run[1..], max))
  }

  function After(s: State, run: seq<Action>, max: nat): State
    requires LegalRun(s, run, max)
    decreases |run|
  {
    if run == [] then s else After(Apply(s, run[0], max), run[1..], max)
  }

  // ---- safety ----

  ghost predicate Inv(s: State, max: nat) {
    && s.readers == Count(s.pc, IsSharing) <= max
    && Count(s.pc, IsWriter) == One(s.writing)
    && (forall t :: 0 <= t < |s.pc| && s.pc[t] == Owning ==> s.readers == 0)
    && (forall t :: 0 <= t < |s.pc| && s.pc[t] == Gate2 ==> s.readers > 0)
    && (forall t :: 0 <= t < |s.pc| && s.pc[t] == Gate1ForWrite ==> s.writing)
  }

  lemma StartInv(n: nat, max: nat)
    ensures Inv(Start(n), max)
  {
    CountSome(Start(n).pc, IsSharing);
    CountSome(Start(n).pc, IsWriter);
  }

  lemma OnlyWriter(s: State, t: nat, max: nat)
    requires Inv(s, max) && t < |s.pc| && IsWriter(s.pc[t])
    ensures s.writing && forall u :: 0 <= u < |s.pc| && IsWriter(s.pc[u]) ==> u == t
  {
    CountSome(s.pc, IsWriter);
    forall u | 0 <= u < |s.pc| && IsWriter(s.pc[u])
      ensures u == t
    {
      if u < t {
        CountTwo(s.pc, u, t, IsWriter);
      } else if t < u {
        CountTwo(s.pc, t, u, IsWriter);
      }
    }
  }

  lemma NoWriter(s: State, max: nat)
    requires Inv(s, max) && !s.writing
    ensures forall u :: 0 <= u < |s.pc| ==> !IsWriter(s.pc[u])
  {
    CountSome(s.pc, IsWriter);
  }

  lemma CountBoth(pc: seq<Pc>, t: nat, p: Pc)
    requires t < |pc|
    ensures Count(pc[t := p], IsSharing) + One(IsSharing(pc[t])) == Count(pc, IsSharing) + One(IsSharing(p))
    ensures Count(pc[t := p], IsWriter) + One(IsWriter(pc[t])) == Count(pc, IsWriter) + One(IsWriter(p))
  {
    CountMove(pc, t, p, IsSharing);
    CountMove(pc, t, p, IsWriter);
  }

  lemma StepInv(s: State, a: Action, max: nat)
    requires Inv(s, max) && Enabled(s, a, max)
    ensures Inv(Apply(s, a, max), max)
  {
    match a {
      case Unlock(t) => UnlockInv(s, t, max);
      case UnlockShared(t, w) => UnlockSharedInv(s, t, w, max);
      case _ => MoveInv(s, a, max);
    }
  }

  lemma MoveInv(s: State, a: Action, max: nat)
    requires Inv(s, max) && Enabled(s, a, max) && !a.Unlock? && !a.UnlockShared?
    ensures Inv(Apply(s, a, max), max)
  {
    hide Count;
    CountBoth(s.pc, a.t, Apply(s, a, max).pc[a.t]);
    if s.writing {
      if IsWriter(s.pc[a.t]) {
        OnlyWriter(s, a.t, max);
      }
    } else {
      NoWriter(s, max);
    }
  }

  lemma UnlockInv(s: State, t: nat, max: nat)
    requires Inv(s, max) && Enabled(s, Unlock(t), max)
    ensures Inv(Apply(s, Unlock(t), max), max)
  {
    hide Count;
    var s' := Apply(s, Unlock(t), max);
    OnlyWriter(s, t, max);
    CountBoth(s.pc, t, Idle);
    CountSame(s.pc[t := Idle], s'.pc, IsSharing);
    CountSame(s.pc[t := Idle], s'.pc, IsWriter);
  }

  lemma UnlockSharedInv(s: State, t: nat, w: nat, max: nat)
    requires Inv(s, max) && Enabled(s, UnlockShared(t, w), max)
    ensures Inv(Apply(s, UnlockShared(t, w), max), max)
  {
    hide Count;
    var s' := Apply(s, UnlockShared(t, w), max);
    CountBoth(s.pc, t, Idle);
    CountSame(s.pc[t := Idle], s'.pc, IsSharing);
    CountSame(s.pc[t := Idle], s'.pc, IsWriter);
    if !s.writing {
      NoWriter(s, max);
    } else if w < |s.pc| && s.pc[w] == Gate2 {
      OnlyWriter(s, w, max);
    }
  }

  lemma {:induction false} RunInv(s: State, run: seq<Action>, max: nat)
    requires Inv(s, max) && LegalRun(s, run, max)
    ensures Inv(After(s, run, max), max)
    decreases |run|
  {
    if run != [] {
      StepInv(s, run[0], max);
      RunInv(Apply(s, run[0], max), run[1..], max);
    }
  }

  /** An owner excludes all others, and the word counts who holds the lock. */
  ghost predicate Exclusive(s: State, max: nat) {
    && s.readers == Count(s.pc, IsSharing) <= max
    && (s.writing <==> Count(s.pc, IsWriter) == 1) && (!s.writing <==> Count(s.pc, IsWriter) == 0)
    && forall t, u :: 0 <= t < |s.pc| && 0 <= u < |s.pc| && t != u && s.pc[t] == Owning ==>
         s.pc[u] != Owning && s.pc[u] != Sharing
  }

  lemma IsExclusive(s: State, max: nat)
    requires Inv(s, max)
    ensures Exclusive(s, max)
  {
    CountSome(s.pc, IsSharing);
    forall t, u | 0 <= t < |s.pc| && 0 <= u < |s.pc| && t != u && s.pc[t] == Owning
      ensures s.pc[u] != Owning && s.pc[u] != Sharing
    {
      OnlyWriter(s, t, max);
    }
  }

  /** So it is in every interleaving. */
  lemma Exclusion(n: nat, run: seq<Action>, max: nat)
    requires LegalRun(Start(n), run, max)
    ensures Exclusive(After(Start(n), run, max), max)
  {
    StartInv(n, max);
    RunInv(Start(n), run, max);
    IsExclusive(After(Start(n), run, max), max);
  }

  // ---- wake-ups ----

  /** A thread sleeps at the first gate only behind a writer or a full count. */
  ghost predicate NoneForgotten(s: State, max: nat) {
    forall t :: 0 <= t < |s.pc| && AtGate1(s.pc[t]) ==> s.writing || s.readers == max
  }

  /** With one thread more than there may be readers, a reader that leaves a full lock wakes the only sleeper. */
  lemma StepRemembers(s: State, a: Action, max: nat)
    requires Inv(s, max) && NoneForgotten(s, max) && Enabled(s, a, max) && |s.pc| <= max + 1
    ensures NoneForgotten(Apply(s, a, max), max)
  {
    if a.UnlockShared? && FreesReader(s, max) {
      var s' := Apply(s, a, max);
      forall t | 0 <= t < |s'.pc|
        ensures !AtGate1(s'.pc[t])
      {
        if AtGate1(s'.pc[t]) {
          assert AtGate1(s.pc[t]) && t != a.woken && AtGate1(s.pc[a.woken]);
          CountApart(s.pc, IsSharing, AtGate1);
          CountTwo(s.pc, if t < a.woken then t else a.woken, if t < a.woken then a.woken else t, AtGate1);
        }
      }
    }
  }

  lemma {:induction false} RunRemembers(s: State, run: seq<Action>, max: nat)
    requires Inv(s, max) && NoneForgotten(s, max) && LegalRun(s, run, max) && |s.pc| <= max + 1
    ensures NoneForgotten(After(s, run, max), max) && |After(s, run, max).pc| == |s.pc|
    decreases |run|
  {
    if run != [] {
      StepInv(s, run[0], max);
      StepRemembers(s, run[0], max);
      RunRemembers(Apply(s, run[0], max), run[1..], max);
    }
  }

  /** The count of readers stays below its maximum all the way. */
  predicate NeverFull(s: State, run: seq<Action>, max: nat)
    requires LegalRun(s, run, max)
    decreases |run|
  {
    s.readers < max && (run == [] || NeverFull(Apply(s, run[0], max), run[1..], max))
  }

  /** Whatever the number of threads: a run that never fills the count forgets nobody. */
  lemma {:induction false} UnfilledRemembers(s: State, run: seq<Action>, max: nat)
    requires Inv(s, max) && NoneForgotten(s, max) && LegalRun(s, run, max) && NeverFull(s, run, max)
    ensures NoneForgotten(After(s, run, max), max) && After(s, run, max).readers < max
    decreases |run|
  {
    if run != [] {
      StepInv(s, run[0], max);
      StepUnfilled(s, run[0], max);
      UnfilledRemembers(Apply(s, run[0], max), run[1..], max);
    }
  }

  lemma StepUnfilled(s: State, a: Action, max: nat)
    requires Inv(s, max) && NoneForgotten(s, max) && Enabled(s, a, max) && s.readers < max
    ensures NoneForgotten(Apply(s, a, max), max)
  {
  }

  /** Then a sleeper at the first gate stands behind the writer bit, one at the second behind a reader. */
  lemma SleepersExplained(n: nat, run: seq<Action>, max: nat, t: nat)
    requires LegalRun(Start(n), run, max) && NeverFull(Start(n), run, max) && t < |After(Start(n), run, max).pc|
    ensures var s := After(Start(n), run, max);
      (AtGate1(s.pc[t]) ==> s.writing) && (s.pc[t] == Gate2 ==> s.readers > 0) && !Stuck(s)
  {
    StartInv(n, max);
    RunInv(Start(n), run, max);
    UnfilledRemembers(Start(n), run, max);
    NotStuck(After(Start(n), run, max), max);
  }

  /** Somebody sleeps, nobody holds the lock and nobody is on the way to it. */
  ghost predicate Stuck(s: State) {
    && (exists t :: 0 <= t < |s.pc| && Asleep(s.pc[t]))
    && forall t :: 0 <= t < |s.pc| ==> IsIdle(s.pc[t]) || Asleep(s.pc[t])
  }

  lemma NotStuck(s: State, max: nat)
    requires Inv(s, max) && NoneForgotten(s, max) && max > 0
    ensures !Stuck(s)
  {
    CountSome(s.pc, IsSharing);
    CountSome(s.pc, IsWriter);
    if t :| 0 <= t < |s.pc| && AtGate1(s.pc[t]) {
      if s.writing {
        var w :| 0 <= w < |s.pc| && IsWriter(s.pc[w]);
      }
    }
  }

  ghost predicate NeverStuck(n: nat, max: nat) {
    forall run: seq<Action> | LegalRun(Start(n), run, max) :: !Stuck(After(Start(n), run, max))
  }

  ghost predicate Reachable(n: nat, s: State, max: nat) {
    exists run: seq<Action> :: LegalRun(Start(n), run, max) && After(Start(n), run, max) == s
  }

  lemma AppendAction(s: State, run: seq<Action>, a: Action, max: nat)
    requires LegalRun(s, run, max) && Enabled(After(s, run, max), a, max)
    ensures LegalRun(s, run + [a], max) && After(s, run + [a], max) == Apply(After(s, run, max), a, max)
    decreases |run|
  {
    if run == [] {
      assert [a][1..] == [];
    } else {
      AppendAction(Apply(s, run[0], max), run[1..], a, max);
      assert (run + [a])[1..] == run[1..] + [a];
    }
  }

  lemma ReachOn(n: nat, s: State, a: Action, max: nat)
    requires Reachable(n, s, max) && Enabled(s, a, max)
    ensures Reachable(n, Apply(s, a, max), max)
  {
    var run :| LegalRun(Start(n), run, max) && After(Start(n), run, max) == s;
    AppendAction(Start(n), run, a, max);
  }

  /** k readers inside. */
  function Filling(n: nat, k: nat): State {
    State(false, k, seq(n, i => if i < k then Sharing else Idle))
  }

  /** The lock was full, two more readers went to sleep, and k of the first readers have left: one was notified. */
  function Emptying(n: nat, k: nat, max: nat): State
    requires k <= max
  {
    State(false, max - k, seq(n, i => if i < k then Idle else if i < max then Sharing else if i == max then WantRead
                                      else if i == max + 1 then Gate1ForRead else Idle))
  }

  lemma {:induction false} ReachFilling(n: nat, k: nat, max: nat)
    requires k <= max <= n
    ensures Reachable(n, Filling(n, k), max)
  {
    if k == 0 {
      assert LegalRun(Start(n), [], max) && After(Start(n), [], max) == Start(n);
      assert Filling(n, 0) == Start(n);
    } else {
      ReachFilling(n, k - 1, max);
      ReachOn(n, Filling(n, k - 1), TryLockShared(k - 1), max);
      assert Apply(Filling(n, k - 1), TryLockShared(k - 1), max) == Filling(n, k);
    }
  }

  lemma {:induction false} ReachEmptying(n: nat, k: nat, max: nat)
    requires 1 <= k <= max && max + 2 <= n
    ensures Reachable(n, Emptying(n, k, max), max)
  {
    if k == 1 {
      ReachFilling(n, max, max);
      var s0 := Filling(n, max);
      var s1 := FallAsleep(n, s0, max, max);
      var s2 := FallAsleep(n, s1, max + 1, max);
      ReachOn(n, s2, UnlockShared(0, max), max);
      assert Apply(s2, UnlockShared(0, max), max) == Emptying(n, 1, max);
    } else {
      ReachEmptying(n, k - 1, max);
      var s := Emptying(n, k - 1, max);
      ReachOn(n, s, UnlockShared(k - 1, 0), max);
      assert Apply(s, UnlockShared(k - 1, 0), max) == Emptying(n, k, max);
    }
  }

  lemma FallAsleep(n: nat, s: State, t: nat, max: nat) returns (s': State)
    requires Reachable(n, s, max) && t < |s.pc| && s.pc[t] == Idle && s.readers == max
    ensures Reachable(n, s', max) && s' == s.To(t, Gate1ForRead)
  {
    ReachOn(n, s, CallLockShared(t), max);
    s' := Apply(s, CallLockShared(t), max);
    ReachOn(n, s', EnterRead(t), max);
    s' := Apply(s', EnterRead(t), max);
    assert s'.pc == s.pc[t := Gate1ForRead];
  }

  /** Of two readers that slept behind a full count, the second is forgotten: the first leaves without notifying. */
  lemma LostWakeUp(n: nat, max: nat)
    requires 2 <= max && max + 2 <= n
    ensures !NeverStuck(n, max)
  {
    ReachEmptying(n, max, max);
    var s := Emptying(n, max, max);
    ReachOn(n, s, EnterRead(max), max);
    var s1 := Apply(s, EnterRead(max), max);
    ReachOn(n, s1, UnlockShared(max, 0), max);
    var s2 := Apply(s1, UnlockShared(max, 0), max);
    assert s2.pc[max + 1] == Gate1ForRead;
    assert Stuck(s2);
  }

  /** No run leaves sleepers behind at a free lock exactly when at most one thread more than max uses the lock. */
  lemma NeverStuckExactly(n: nat, max: nat)
    requires 2 <= max
    ensures NeverStuck(n, max) <==> n <= max + 1
  {
    if n <= max + 1 {
      forall run: seq<Action> | LegalRun(Start(n), run, max)
        ensures !Stuck(After(Start(n), run, max))
      {
        StartInv(n, max);
        RunInv(Start(n), run, max);
        RunRemembers(Start(n), run, max);
        NotStuck(After(Start(n), run, max), max);
      }
    } else {
      LostWakeUp(n, max);
    }
  }
}
