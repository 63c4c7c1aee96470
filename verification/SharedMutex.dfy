/**
 * The lock itself, on its one unsigned word: the top bit is the writer, the bits below it count readers. Where each
 * thread stands is ghost; every method is a critical section, with what the thread may conclude from it.
 */
module SharedMutex {

  import opened Threads
  import opened ReaderWriterLock

  class SharedMutexBase {
    const nReaders: nat
    var word: nat
    ghost var pc: seq<Pc>

    function WriteEntered(): (b: bool)
      reads this
    {
      word > nReaders
    }

    function NumReaders(): (n: nat)
      reads this
      requires word <= 2 * nReaders + 1
      ensures n <= nReaders
    {
      if word > nReaders then word - (nReaders + 1) else word
    }

    ghost function View(): State
      reads this
      requires word <= 2 * nReaders + 1
    {
      State(WriteEntered(), NumReaders(), pc)
    }

    ghost predicate Valid()
      reads this
    {
      word <= 2 * nReaders + 1 && Inv(View(), nReaders)
    }

    constructor (nReaders: nat, threads: nat)
      ensures Valid() && this.nReaders == nReaders && View() == Start(threads)
    {
      this.nReaders := nReaders;
      word := 0;
      pc := Start(threads).pc;
      new;
      ReaderWriterLock.StartInv(threads, nReaders);
    }

    /** The ghost half of an operation: afterwards an owner excludes all others. */
    ghost method Follow(a: Action, was: State)
      requires Inv(was, nReaders) && Enabled(was, a, nReaders) && pc == was.pc && word <= 2 * nReaders + 1
      requires var s' := Apply(was, a, nReaders); WriteEntered() == s'.writing && NumReaders() == s'.readers
      modifies this`pc
      ensures Valid() && View() == Apply(was, a, nReaders) && Exclusive(View(), nReaders)
    {
      StepInv(was, a, nReaders);
      pc := Apply(was, a, nReaders).pc;
      IsExclusive(View(), nReaders);
    }

    method SetReaders(n: nat)
      requires word <= 2 * nReaders + 1 && n <= nReaders
      modifies this`word
      ensures word <= 2 * nReaders + 1 && WriteEntered() == old(WriteEntered()) && NumReaders() == n
    {
      word := word - NumReaders() + n;
    }

    /** lock, up to its next wait or its end, of a thread that has not got past the first gate. */
    method EnterWriteSection(ghost t: nat) returns (locked: bool)
      requires Valid() && Enabled(View(), EnterWrite(t), nReaders)
      modifies this
      ensures Valid() && View() == Apply(old(View()), EnterWrite(t), nReaders)
      ensures locked <==> pc[t] == Owning
      ensures locked <==> old(word) == 0
      ensures locked ==> forall u :: 0 <= u < |pc| && u != t ==> pc[u] != Owning && pc[u] != Sharing
      ensures !locked ==> WriteEntered()
    {
      ghost var was := View();
      locked := false;
      if !WriteEntered() {
        word := word + (nReaders + 1);
        locked := NumReaders() == 0;
      }
      Follow(EnterWrite(t), was);
    }

    /** lock, up to its next wait or its end, of a thread woken at the second gate. */
    method DrainSection(ghost t: nat) returns (locked: bool)
      requires Valid() && Enabled(View(), Drain(t), nReaders)
      modifies this
      ensures Valid() && View() == Apply(old(View()), Drain(t), nReaders) && word == old(word)
      ensures locked <==> pc[t] == Owning
      ensures locked <==> NumReaders() == 0
      ensures locked ==> forall u :: 0 <= u < |pc| && u != t ==> pc[u] != Owning && pc[u] != Sharing
      ensures !locked ==> exists u :: 0 <= u < |pc| && pc[u] == Sharing
    {
      ghost var was := View();
      locked := NumReaders() == 0;
      Follow(Drain(t), was);
      CountSome(pc, IsSharing);
    }

    method TryLockSection(ghost t: nat) returns (locked: bool)
      requires Valid() && Enabled(View(), TryLock(t), nReaders)
      modifies this
      ensures Valid() && View() == Apply(old(View()), TryLock(t), nReaders)
      ensures locked <==> pc[t] == Owning
      ensures locked <==> old(word) == 0
      ensures locked ==> forall u :: 0 <= u < |pc| && u != t ==> pc[u] != Owning && pc[u] != Sharing
      ensures !locked ==> View() == old(View())
    {
      ghost var was := View();
      locked := word == 0;
      if locked {
        word := nReaders + 1;
      }
      Follow(TryLock(t), was);
    }

    /** The word is cleared, nobody holds the lock, and nobody is left at the first gate. */
    method UnlockSection(ghost t: nat)
      requires Valid() && Enabled(View(), Unlock(t), nReaders)
      modifies this
      ensures Valid() && View() == Apply(old(View()), Unlock(t), nReaders)
      ensures forall u :: 0 <= u < |pc| ==> pc[u] != Owning && pc[u] != Sharing && !AtGate1(pc[u])
    {
      ghost var was := View();
      word := 0;
      Follow(Unlock(t), was);
      NoWriter(View(), nReaders);
      CountSome(pc, IsSharing);
      assert forall u :: 0 <= u < |pc| ==> !IsWriter(pc[u]) && !IsSharing(pc[u]);
    }

    /** lock_shared, up to its wait or its end. */
    method EnterReadSection(ghost t: nat) returns (locked: bool)
      requires Valid() && Enabled(View(), EnterRead(t), nReaders)
      modifies this
      ensures Valid() && View() == Apply(old(View()), EnterRead(t), nReaders)
      ensures locked <==> pc[t] == Sharing
      ensures locked <==> !old(WriteEntered()) && old(NumReaders()) < nReaders
      ensures locked ==> forall u :: 0 <= u < |pc| ==> pc[u] != Owning
      ensures !locked ==> word == old(word) && (WriteEntered() || NumReaders() == nReaders)
    {
      ghost var was := View();
      locked := !WriteEntered() && NumReaders() != nReaders;
      if locked {
        SetReaders(NumReaders() + 1);
      }
      Follow(EnterRead(t), was);
    }

    method TryLockSharedSection(ghost t: nat) returns (locked: bool)
      requires Valid() && Enabled(View(), TryLockShared(t), nReaders)
      modifies this
      ensures Valid() && View() == Apply(old(View()), TryLockShared(t), nReaders)
      ensures locked <==> pc[t] == Sharing
      ensures locked <==> !old(WriteEntered()) && old(NumReaders()) < nReaders
      ensures locked ==> forall u :: 0 <= u < |pc| ==> pc[u] != Owning
      ensures !locked ==> View() == old(View())
    {
      ghost var was := View();
      var readers := NumReaders();
      locked := !WriteEntered() && readers != nReaders;
      if locked {
        SetReaders(readers + 1);
      }
      Follow(TryLockShared(t), was);
    }

    /** woken is the sleeper that the condition variable would pick; a writer that waits only for this reader is woken. */
    method UnlockSharedSection(ghost t: nat, ghost woken: nat) returns (gate1: bool, gate2: bool)
      requires Valid() && Enabled(View(), UnlockShared(t, woken), nReaders)
      modifies this
      ensures Valid() && View() == Apply(old(View()), UnlockShared(t, woken), nReaders)
      ensures gate2 <==> WriteEntered() && forall u :: 0 <= u < |pc| ==> pc[u] != Sharing
      ensures gate1 <==> !WriteEntered() && old(NumReaders()) == nReaders
      ensures gate2 ==> forall u :: 0 <= u < |pc| ==> pc[u] != Gate2
    {
      ghost var was := View();
      var readers := NumReaders() - 1;
      SetReaders(readers);
      gate2 := WriteEntered() && readers == 0;
      gate1 := !WriteEntered() && readers == nReaders - 1;
      Follow(UnlockShared(t, woken), was);
      CountSome(pc, IsSharing);
      assert forall u :: 0 <= u < |pc| ==> (IsSharing(pc[u]) <==> pc[u] == Sharing);
    }
  }
}
