/** States in which a call fails as the exact conditions say it may. */
module KernelWitnesses {
  import opened KernelSpec
  import opened KernelTheorems
  import opened MutexHandOff
  import opened InversionLimits

  /** A kernel in which no thread is ready. */
  function Alone(threads: map<Tid, Tcb>, current: Tid, lock: int, mutexes: map<Mid, Mutex>): Kernel {
    Kernel(threads, seq(PRIORITIES, _ => []), {}, current, lock, mutexes, multiset{})
  }

  function Thread(stat: Stat, prio: nat, call: Call, base: nat): Tcb { Tcb(stat, false, prio, base, 10, 10, EOK, false, call, base) }

  function Owned(flag: Flag, owner: Tid, origPrio: nat, waiters: seq<Tid>): Mutex { Mutex(flag, 0, By(owner), origPrio, 1, waiters) }

  lemma AloneInv(k: Kernel)
    requires k == Alone(k.threads, k.current, k.lock, k.mutexes)
    requires k.current in k.threads && k.threads[k.current].stat == Running
    requires forall t :: t in k.threads ==> k.threads[t].prio < PRIORITIES && k.threads[t].stat in {Running, Suspended}
    requires forall t :: t in k.threads && k.threads[t].stat == Running ==> t == k.current
    requires MutexInv(k)
    ensures Inv(k)
  {
    forall p: nat | p < PRIORITIES ensures Lane(k, p) {}
  }

  /** Thread 2 owns mutex 0; thread 1 owns mutex 1 and waits for mutex 0; thread 0 is about to take mutex 1. */
  function Chain(): Kernel {
    Alone(map[0 := Thread(Running, 1, App, 1), 1 := Thread(Suspended, 5, Taking(0, true), 5), 2 := Thread(Suspended, 5, App, 9)], 0, 0,
          map[0 := Owned(Prio, 2, 9, [1]), 1 := Owned(Prio, 1, 5, [])])
  }

  lemma ChainInv()
    ensures Inv(Chain()) && TakeInv(Chain())
  {
    var k := Chain();
    AloneInv(k);
    forall t | t in k.threads ensures TakeOk(k, t) {}
  }

  lemma ChainOrder()
    ensures var k := Chain(); NoInversion(k) && Legal(k, DoTake(1, -1)) && !Harmless(k, DoTake(1, -1))
  {
    var k := Chain();
    assert 1 in k.mutexes[0].waiters && !FitsAwaited(k, 1, 1);
  }

  /** The loan of thread 0 stops at thread 1: thread 2 keeps everyone waiting at priority 5. */
  lemma ChainedLoanStops()
    ensures var k := Chain();
      Inv(k) && TakeInv(k) && NoInversion(k) && Legal(k, DoTake(1, -1)) && !Harmless(k, DoTake(1, -1)) && !NoInversion(Apply(k, DoTake(1, -1)))
  {
    ChainInv();
    ChainOrder();
    StepExactly(Chain(), DoTake(1, -1));
  }

  /** Thread 0, of priority 9, owns both mutexes and runs at 1 for the sake of thread 1, which waits for mutex 1. */
  function Nested(): Kernel {
    Alone(map[0 := Thread(Running, 1, App, 9), 1 := Thread(Suspended, 1, Taking(1, true), 1)], 0, 0,
          map[0 := Owned(Prio, 0, 9, []), 1 := Owned(Prio, 0, 9, [1])])
  }

  lemma NestedInv()
    ensures Inv(Nested()) && TakeInv(Nested())
  {
    var k := Nested();
    AloneInv(k);
    forall t | t in k.threads ensures TakeOk(k, t) {}
  }

  lemma NestedOrder()
    ensures var k := Nested(); NoInversion(k) && Legal(k, DoRelease(0)) && !Harmless(k, DoRelease(0))
  {
    var k := Nested();
    assert 1 in k.mutexes && k.mutexes[1].owner == By(0) && 1 in k.mutexes[1].waiters && k.threads[1].prio == 1;
  }

  /** Releasing mutex 0 takes back the loan that mutex 1 still needs. */
  lemma NestedReleaseDropsLoan()
    ensures var k := Nested();
      Inv(k) && TakeInv(k) && NoInversion(k) && Legal(k, DoRelease(0)) && !Harmless(k, DoRelease(0)) && !NoInversion(Apply(k, DoRelease(0)))
  {
    NestedInv();
    NestedOrder();
    StepExactly(Nested(), DoRelease(0));
  }

  /** Thread 0 owns a mutex with a first-in first-out list: thread 1, of priority 7, came before thread 2, of priority 3. */
  function InLine(): Kernel {
    Alone(map[0 := Thread(Running, 3, App, 9), 1 := Thread(Suspended, 7, Taking(0, true), 7), 2 := Thread(Suspended, 3, Taking(0, true), 3)], 0, 0,
          map[0 := Owned(Fifo, 0, 9, [1, 2])])
  }

  lemma InLineInv()
    ensures Inv(InLine()) && TakeInv(InLine())
  {
    var k := InLine();
    AloneInv(k);
    forall t | t in k.threads ensures TakeOk(k, t) {}
  }

  lemma InLineOrder()
    ensures var k := InLine(); NoInversion(k) && Legal(k, DoRelease(0)) && !Harmless(k, DoRelease(0))
  {
    var k := InLine();
    assert k.mutexes[0].waiters[0] == 1 && 2 in k.mutexes[0].waiters;
  }

  /** The new owner borrows nothing from the more urgent thread it got ahead of. */
  lemma FifoHandOverLendsNothing()
    ensures var k := InLine();
      Inv(k) && TakeInv(k) && NoInversion(k) && Legal(k, DoRelease(0)) && !Harmless(k, DoRelease(0)) && !NoInversion(Apply(k, DoRelease(0)))
  {
    InLineInv();
    InLineOrder();
    StepExactly(InLine(), DoRelease(0));
  }

  /** Thread 1 owns the mutex and sleeps; thread 0 has locked the scheduler. */
  function Locked(): Kernel {
    Alone(map[0 := Thread(Running, 5, App, 5), 1 := Thread(Suspended, 5, App, 5)], 0, 1, map[0 := Owned(Prio, 1, 5, [])])
  }

  /** Under rt_enter_critical the take comes back with EOK, its thread on the list, while thread 1 still owns the mutex. */
  lemma LockedTakeSucceedsFalsely()
    ensures var k := Locked();
      && Inv(k) && TakeInv(k) && Legal(k, DoTake(0, -1)) && Blocks(k, 0, -1)
      && var k1 := TakeEnter(k, 0, -1).0;
        && k1.threads[k1.current].call.Taking?
        && var r := TakeSchedule(k1);
          r.current == 0 && WaitsSomewhere(r, 0) && TakeReturn(r).1 == EOK && 0 in r.mutexes && r.mutexes[0].owner == By(1)
  {
    var k := Locked();
    AloneInv(k);
    forall t | t in k.threads ensures TakeOk(k, t) {}
    BlockingNeedsScheduler(k, 0, -1);
    OwnerStays(k);
  }

  lemma OwnerStays(k: Kernel)
    requires Inv(k) && Legal(k, DoTake(0, -1)) && Blocks(k, 0, -1)
    ensures var k1 := TakeEnter(k, 0, -1).0;
      k1.threads[k1.current].call.Taking? ==> TakeSchedule(k1).mutexes[0].owner == k.mutexes[0].owner
  {
    BlockOwner(ResetError(k), 0, -1);
    var k1 := TakeEnter(k, 0, -1).0;
    if k1.threads[k1.current].call.Taking? {
      SameMutexes(Set(k1, k1.current, k1.threads[k1.current].(call := Taking(k1.threads[k1.current].call.mutex, true))));
    }
  }

  lemma BlockOwner(k: Kernel, m: Mid, time: int)
    requires Sane(k) && m in k.mutexes
    ensures Block(k, m, time).mutexes[m].owner == k.mutexes[m].owner
  {
  }

  lemma SameMutexes(k: Kernel)
    requires Sane(k)
    ensures Schedule(k).mutexes == k.mutexes
  {
  }

  /** Thread 2 owns the mutex and runs; thread 1 waits for it, and a call of rt_thread_resume on it is open. */
  function OneWaits(): Kernel {
    Alone(map[1 := Thread(Suspended, 5, Taking(0, true), 5), 2 := Thread(Running, 5, App, 9)], 2, 0, map[0 := Owned(Prio, 2, 9, [1])]).(
      open := multiset{Unlinks(1)})
  }

  lemma OneWaitsInOrder()
    ensures var k := OneWaits(); Inv(k) && TakeInv(k) && Legal(k, DoUnlink(1)) && 0 in k.mutexes && 1 in k.mutexes[0].waiters
  {
    var k := OneWaits();
    AloneInv(k.(open := multiset{}));
    OpenKeeps(k, multiset{});
    forall t | t in k.threads ensures TakeOk(k, t) {}
  }

  /** rt_thread_resume on the waiter: it will return EOK although thread 2 still owns the mutex. */
  lemma StrayResumeSucceedsFalsely()
    ensures var k := OneWaits();
      && Inv(k) && TakeInv(k) && Legal(k, DoUnlink(1)) && !Orderly(k, DoUnlink(1)) && !TakeInv(Apply(k, DoUnlink(1)))
      && var r := Apply(k, DoUnlink(1));
        1 in r.threads && r.threads[1].call == Taking(0, true) && r.threads[1].error == EOK && !WaitsSomewhere(r, 1)
        && 0 in r.mutexes && r.mutexes[0].owner == By(2)
  {
    OneWaitsInOrder();
    StrayResume(OneWaits(), DoUnlink(1), 0);
    assert OneWaits().mutexes[0].owner == By(2);
  }
}
