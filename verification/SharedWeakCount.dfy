/**
 * The control block itself: two counts, and nothing else that a thread could look at. Who owns what and where each
 * thread stands is ghost, and ties the counts to the step system; every method is one atomic operation with what the
 * thread may conclude from its result.
 */
module SharedWeakCount {

  import opened ControlBlock

  class Block {
    var sharedOwners: int
    var sharedWeakOwners: int
    ghost var owners: seq<Owner>
    ghost var destroyed: nat
    ghost var freed: nat

    ghost function View(): State
      reads this
    {
      State(sharedOwners, sharedWeakOwners, destroyed, freed, owners)
    }

    ghost predicate Valid()
      reads this
    {
      Inv(View())
    }

    constructor (threads: nat)
      requires threads > 0
      ensures Valid() && View() == Start(threads)
    {
      sharedOwners, sharedWeakOwners := 0, 0;
      owners := Start(threads).owners;
      destroyed, freed := 0, 0;
      new;
      StartInv(threads);
    }

    /** The ghost half of an operation of thread t: the others stay where they are. */
    ghost method Follow(a: Action, was: State)
      requires Inv(was) && Enabled(was, a) && owners == was.owners && destroyed == was.destroyed && freed == was.freed
      requires sharedOwners == Apply(was, a).shared && sharedWeakOwners == Apply(was, a).weak
      modifies this`owners, this`destroyed, this`freed
      ensures Valid() && View() == Apply(was, a)
    {
      StepInv(was, a);
      owners, destroyed, freed := Apply(was, a).owners, Apply(was, a).destroyed, Apply(was, a).freed;
    }

    /** __add_shared: the object lives, since its caller owns a shared pointer. */
    method AddShared(ghost t: nat)
      requires Valid() && Enabled(View(), CopyShared(t))
      modifies this
      ensures Valid() && View() == Apply(old(View()), CopyShared(t))
      ensures destroyed == 0 && freed == 0
      ensures owners[t] == old(owners[t]).(shared := old(owners[t].shared) + 1) && owners[t].shared >= 2
    {
      ghost var was := View();
      sharedOwners := sharedOwners + 1;
      Follow(CopyShared(t), was);
      KeepsObject(View());
    }

    /** __add_weak: the block lives, since its caller owns a pointer of one kind. */
    method AddWeak(ghost t: nat)
      requires Valid() && Enabled(View(), CopyWeak(t))
      modifies this
      ensures Valid() && View() == Apply(old(View()), CopyWeak(t))
      ensures freed == 0 && owners[t] == old(owners[t]).(weak := old(owners[t].weak) + 1)
    {
      ghost var was := View();
      KeepsBlock(was);
      sharedWeakOwners := sharedWeakOwners + 1;
      Follow(CopyWeak(t), was);
    }

    /** The decrement in __release_shared; its last caller, and no other, goes on to destroy the object. */
    method ReleaseShared(ghost t: nat) returns (last: bool)
      requires Valid() && Enabled(View(), DropShared(t))
      modifies this
      ensures Valid() && View() == Apply(old(View()), DropShared(t))
      ensures last <==> forall u :: 0 <= u < |owners| ==> owners[u].shared == 0
      ensures last <==> owners[t].pc == Destroying
      ensures destroyed == 0 && owners[t].shared == old(owners[t].shared) - 1
    {
      ghost var was := View();
      KeepsObject(was);
      sharedOwners := sharedOwners - 1;
      last := sharedOwners == -1;
      Follow(DropShared(t), was);
      KeepsObject(View());
    }

    /** __on_zero_shared: for the first and only time. __release_weak comes next. */
    method OnZeroShared(ghost t: nat)
      requires Valid() && Enabled(View(), Destroy(t))
      modifies this
      ensures Valid() && View() == Apply(old(View()), Destroy(t))
      ensures old(destroyed) == 0 && destroyed == 1 && sharedOwners == -1
    {
      ghost var was := View();
      Follow(Destroy(t), was);
      KeepsObject(was);
      KeepsObject(View());
    }

    /** The load at the start of __release_weak: who reads 0 is alone with the block. */
    method LoadWeakOwners(ghost t: nat) returns (alone: bool)
      requires Valid() && Enabled(View(), LoadWeak(t))
      modifies this
      ensures Valid() && View() == Apply(old(View()), LoadWeak(t))
      ensures alone <==> owners[t].pc == FreeingUncounted
      ensures alone <==> Last(View(), t)
    {
      ghost var was := View();
      LastRelease(was, t);
      alone := sharedWeakOwners == 0;
      Follow(LoadWeak(t), was);
      StaysLast(was, LoadWeak(t));
    }

    /** The decrement in __release_weak: who gets to -1 is alone with the block. */
    method DecrementWeakOwners(ghost t: nat) returns (alone: bool)
      requires Valid() && Enabled(View(), TakeWeak(t))
      modifies this
      ensures Valid() && View() == Apply(old(View()), TakeWeak(t))
      ensures alone <==> owners[t].pc == Freeing
      ensures alone <==> Last(View(), t)
    {
      ghost var was := View();
      LastRelease(was, t);
      sharedWeakOwners := sharedWeakOwners - 1;
      alone := sharedWeakOwners == -1;
      Follow(TakeWeak(t), was);
      StaysLast(was, TakeWeak(t));
    }

    /** __on_zero_shared_weak: for the first and only time, after the object, and nothing can be done afterwards. */
    method OnZeroSharedWeak(ghost t: nat)
      requires Valid() && Enabled(View(), Free(t))
      modifies this
      ensures Valid() && View() == Apply(old(View()), Free(t))
      ensures old(freed) == 0 && freed == 1 && destroyed == 1 && forall a: Action :: !Enabled(View(), a)
    {
      ghost var was := View();
      Follow(Free(t), was);
      KeepsBlock(was);
      KeepsBlock(View());
    }

    /** The load at the start of lock. */
    method LoadSharedOwners(ghost t: nat) returns (objectOwners: int)
      requires Valid() && Enabled(View(), BeginLock(t))
      modifies this
      ensures Valid() && View() == Apply(old(View()), BeginLock(t))
      ensures owners[t].pc == Locking(objectOwners) && objectOwners == sharedOwners && freed == 0
    {
      ghost var was := View();
      KeepsBlock(was);
      objectOwners := sharedOwners;
      Follow(BeginLock(t), was);
    }

    /**
     * One turn of the loop in lock, from the count last seen: a pointer to a live object, null when the object has no
     * owner any more, or the count to try next.
     */
    method LockTurn(ghost t: nat, objectOwners: int) returns (done: bool, locked: bool, seen: int)
      requires Valid() && Enabled(View(), TryLock(t)) && owners[t].pc == Locking(objectOwners)
      modifies this
      ensures Valid() && View() == Apply(old(View()), TryLock(t))
      ensures locked ==> done && destroyed == 0 && owners[t].shared == old(owners[t].shared) + 1
      ensures done && !locked ==> forall u :: 0 <= u < |owners| ==> owners[u].shared == 0
      ensures old(sharedOwners) == objectOwners != -1 ==> done && locked && sharedOwners == objectOwners + 1
      ensures if done then owners[t].pc == Idle else owners[t].pc == Locking(seen) && seen == sharedOwners != objectOwners
    {
      ghost var was := View();
      LockOutcome(was, t);
      done, locked, seen := false, false, sharedOwners;
      if objectOwners == -1 {
        done := true;
      } else if sharedOwners == objectOwners {
        sharedOwners := objectOwners + 1;
        done, locked := true, true;
      }
      Follow(TryLock(t), was);
      KeepsObject(View());
    }
  }
}
