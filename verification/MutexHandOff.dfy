/** What a blocked rt_mutex_take returns, over every interleaving with interrupts. */
module MutexHandOff {
  import opened KernelSpec
  import opened KernelTheorems
  import opened Sequences

  /** A thread inside a blocked take still waits, or was handed the mutex, or timed out;
      only the mutex it is taking may have it on its list. */
  ghost predicate TakeOk(k: Kernel, t: Tid)
    requires t in k.threads
  {
    var c := k.threads[t];
    && (c.call.Taking? ==>
      && c.call.mutex in k.mutexes
      && var x := k.mutexes[c.call.mutex];
         if t in x.waiters then c.error == EOK
         else if x.owner == By(t) then c.error == EOK && !c.timer
         else c.error == ETIMEOUT)
    && forall m :: m in k.mutexes && t in k.mutexes[m].waiters ==> c.call.Taking? && c.call.mutex == m
  }

  /** Inside a take the current thread runs unless it is still on the wait list. */
  ghost predicate CurrentOk(k: Kernel)
    requires Sane(k)
  {
    var c := k.threads[k.current];
    c.call.Taking? && c.stat != Running ==> WaitsSomewhere(k, k.current)
  }

  ghost predicate TakeInv(k: Kernel) { Sane(k) && CurrentOk(k) && forall t :: t in k.threads ==> TakeOk(k, t) }

  predicate Blocks(k: Kernel, m: Mid, time: int)
    requires m in k.mutexes
  {
    k.mutexes[m].owner != By(k.current) && k.mutexes[m].value == 0 && time != 0
  }

  /** Nobody but the kernel takes a waiter off its list, and no take comes back while its thread is still on it. */
  ghost predicate Orderly(k: Kernel, s: Step)
    requires Sane(k) && Legal(k, s)
  {
    && (s.DoUnlink? || s.DoSuspend? ==> !WaitsSomewhere(k, s.t))
    && (s.DoTakeReturn? ==> !WaitsSomewhere(k, k.current))
  }

  // ----- frames

  predicate SameTake(c: Tcb, d: Tcb) { d.call == c.call && d.error == c.error && (d.timer ==> c.timer) }

  lemma TakeFrame(k: Kernel, r: Kernel)
    requires TakeInv(k) && Same(k, r) && r.mutexes == k.mutexes
    requires forall t :: t in k.threads ==> SameTake(k.threads[t], r.threads[t])
    ensures forall t :: t in r.threads ==> TakeOk(r, t)
  {
    forall t | t in r.threads ensures TakeOk(r, t) { assert TakeOk(k, t) && SameTake(k.threads[t], r.threads[t]); }
  }

  lemma ScheduleTake(k: Kernel)
    requires Inv(k) && TakeInv(k)
    ensures TakeInv(Schedule(k))
  {
    ScheduleKeeps(k);
    TakeFrame(k, Schedule(k));
  }

  /** Changing the entry of one thread. */
  lemma SetTake(k: Kernel, t: Tid, c: Tcb)
    requires TakeInv(k) && t in k.threads && c.prio < PRIORITIES && SameTake(k.threads[t], c)
    requires t == k.current && k.threads[t].stat == Running ==> c.stat == Running
    ensures TakeInv(Set(k, t, c))
  {
    TakeFrame(k, Set(k, t, c));
  }

  /** What waking a thread changes, and that nothing else changes. */
  ghost predicate Wakes(k: Kernel, r: Kernel, t: Tid, c: Tcb)
    requires Sane(k) && Sane(r)
  {
    && Same(k, r) && r.current == k.current && r.lock == k.lock
    && (forall u :: u in k.threads && u != t ==> r.threads[u] == k.threads[u])
    && t in k.threads && r.threads[t] == c.(stat := if t == k.current then Running else Ready)
    && forall m :: m in k.mutexes ==>
         && r.mutexes[m].owner == k.mutexes[m].owner
         && forall u :: u in r.mutexes[m].waiters <==> u in k.mutexes[m].waiters && u != t
  }

  lemma WakeIs(k: Kernel, t: Tid, c: Tcb)
    requires Inv(k) && t in k.threads && k.threads[t].stat == Suspended && c.stat == Suspended && c.prio < PRIORITIES
    ensures var r := InsertThread(Set(Detach(k, t), t, c), t);
            Inv(r) && Wakes(k, r, t, c)
  {
    WakeKeeps(k, t, c);
    var r := InsertThread(Set(Detach(k, t), t, c), t);
    DetachFrame(k, r, t);
  }

  lemma WakeTake(k: Kernel, r: Kernel, t: Tid, c: Tcb)
    requires Inv(k) && TakeInv(k) && Inv(r) && Wakes(k, r, t, c) && k.threads[t].stat == Suspended
    requires c == k.threads[t].(error := c.error, timer := false)
    requires (c.error == ETIMEOUT && k.threads[t].timer) ||
             (c.error == k.threads[t].error && forall m :: m in k.mutexes ==> t !in k.mutexes[m].waiters)
    ensures TakeInv(r)
  {
    forall u | u in r.threads ensures TakeOk(r, u) { assert TakeOk(k, u); }
  }

  // ----- every step

  lemma ChangeTake(k: Kernel, t: Tid, p: nat)
    requires Inv(k) && TakeInv(k) && t in k.threads && p < PRIORITIES
    ensures TakeInv(ChangePriority(k, t, p))
  {
    var r := ChangePriority(k, t, p);
    ChangePriorityKeeps(k, t, p);
    TakeFrame(k, r);
  }

  lemma TickIs(k: Kernel)
    requires Sane(k)
    ensures var c := k.threads[k.current];
            var left := OneLess(c.remTick);
            Tick(k) == if left != 0 then Set(k, k.current, c.(remTick := left))
                       else Schedule(Set(k, k.current, c.(remTick := c.initTick, yielding := true)))
  {
  }

  lemma TickTake(k: Kernel)
    requires Inv(k) && TakeInv(k)
    ensures TakeInv(Tick(k))
  {
    var c := k.threads[k.current];
    var left := OneLess(c.remTick);
    TickIs(k);
    if left != 0 {
      SetTake(k, k.current, c.(remTick := left));
    } else {
      TurnTake(k, c.(remTick := c.initTick, yielding := true));
    }
  }

  lemma TurnTake(k: Kernel, d: Tcb)
    requires Inv(k) && TakeInv(k) && d == k.threads[k.current].(remTick := d.remTick, yielding := d.yielding)
    ensures TakeInv(Schedule(Set(k, k.current, d)))
  {
    SetTake(k, k.current, d);
    SetKeeps(k, k.current, d);
    ScheduleTake(Set(k, k.current, d));
  }

  lemma PrepareTake(k: Kernel, t: Tid)
    requires Inv(k) && TakeInv(k) && Legal(k, DoPrepare(t))
    ensures TakeInv(Prepare(k, t))
  {
    TakeFrame(k, Prepare(k, t));
  }

  /** Unlinking a thread that waits nowhere stops its timer. */
  lemma DetachNothing(k: Kernel, t: Tid)
    requires !WaitsSomewhere(k, t)
    ensures Detach(k, t) == k
  {
    forall m | m in k.mutexes ensures Remove(k.mutexes[m].waiters, t) == k.mutexes[m].waiters { RemoveAbsent(k.mutexes[m].waiters, t); }
    assert Detach(k, t).mutexes == k.mutexes;
  }

  lemma UnlinkTake(k: Kernel, t: Tid)
    requires Inv(k) && TakeInv(k) && t in k.threads && k.threads[t].stat != Ready && !WaitsSomewhere(k, t)
    ensures TakeInv(Unlink(k, t))
  {
    UnlinkKeeps(k, t);
    DetachNothing(k, t);
    SetTake(k, t, k.threads[t].(timer := false));
  }

  lemma WithdrawTake(k: Kernel, t: Tid)
    requires Inv(k) && TakeInv(k) && AppRuns(k) && t in k.threads && !WaitsSomewhere(k, t)
    ensures TakeInv(Withdraw(k, t))
  {
    DetachNothing(k, t);
    TakeFrame(k, Withdraw(k, t));
  }

  lemma InsertTake(k: Kernel, t: Tid)
    requires Inv(k) && TakeInv(k) && t in k.threads && k.threads[t].stat != Ready && !WaitsSomewhere(k, t)
    ensures TakeInv(InsertThread(k, t))
  {
    TakeFrame(k, InsertThread(k, t));
  }

  lemma OpenTake(k: Kernel, open: multiset<Gap>)
    ensures TakeInv(k.(open := open)) <==> TakeInv(k)
  {
    var r := k.(open := open);
    if TakeInv(k) { TakeFrame(k, r); }
    if TakeInv(r) { TakeFrame(r, k); }
  }

  lemma ExitTake(k: Kernel)
    requires Inv(k) && TakeInv(k) && AppRuns(k)
    ensures TakeInv(Exit(k))
  {
    var d := k.threads[k.current].(stat := Closed, yielding := false, timer := false);
    var k1 := Set(RemoveThread(k, k.current), k.current, d);
    RemoveInv(k, k.current, d);
    MutexFrame(k, k1);
    TakeFrame(k, k1);
    ScheduleTake(k1);
  }

  /** What blocking changes in takes and wait lists. */
  ghost predicate Joins(k: Kernel, r: Kernel, m: Mid)
    requires Sane(k) && Sane(r) && m in k.mutexes
  {
    && Same(k, r) && r.current == k.current && r.lock == k.lock
    && (forall u :: u in k.threads && u != k.current ==> SameTake(k.threads[u], r.threads[u]))
    && r.threads[k.current].call == Taking(m, false) && r.threads[k.current].error == k.threads[k.current].error
    && forall n :: n in k.mutexes ==>
         && r.mutexes[n].owner == k.mutexes[n].owner
         && forall u :: u in r.mutexes[n].waiters <==> u in k.mutexes[n].waiters || (u == k.current && n == m)
  }

  lemma BlockIs(k: Kernel, m: Mid, time: int)
    requires Inv(k) && AppRuns(k) && m in k.mutexes && Blocks(k, m, time)
    ensures Joins(Inherit(k, m), Block(k, m, time), m)
    ensures Inv(Inherit(k, m)) && AppRuns(Inherit(k, m)) && Inherit(k, m).threads[k.current] == k.threads[k.current]
  {
    var t, x := k.current, k.mutexes[m];
    var k1, r := Inherit(k, m), Block(k, m, time);
    assert MutexOk(k, x);
    NoWaiter(k, t);
    InheritKeeps(k, m);
    RemoveInv(k1, t, k1.threads[t].(stat := Suspended));
    var k2 := Suspend(k1, t);
    assert k2 == Set(k1, t, k1.threads[t].(stat := Suspended, timer := false));
    EnqueueSpec(k2, x.waiters, t, k.threads[t].prio, x.flag);
    BlockParts(k1, k2, r, m, time);
  }

  lemma BlockParts(k1: Kernel, k2: Kernel, r: Kernel, m: Mid, time: int)
    requires Sane(k1) && k1.current in k1.threads && m in k1.mutexes
    requires k2 == Set(k1, k1.current, k1.threads[k1.current].(stat := Suspended, timer := false))
    requires r == SetMutex(Set(k2, k1.current, k2.threads[k1.current].(timer := time > 0, call := Taking(m, false))), m,
                           k1.mutexes[m].(waiters := Enqueue(k2, k1.mutexes[m].waiters, k1.current, k1.threads[k1.current].prio, k1.mutexes[m].flag)))
    requires forall u :: u in r.mutexes[m].waiters <==> u in k1.mutexes[m].waiters || u == k1.current
    ensures Joins(k1, r, m)
  {
  }

  lemma JoinTake(k: Kernel, r: Kernel, m: Mid)
    requires Inv(k) && TakeInv(k) && AppRuns(k) && m in k.mutexes && Sane(r) && Joins(k, r, m)
    requires k.threads[k.current].error == EOK
    ensures TakeInv(r)
  {
    NoWaiter(k, k.current);
    forall u | u in r.threads ensures TakeOk(r, u) { assert TakeOk(k, u); }
  }

  lemma BlockTake(k: Kernel, m: Mid, time: int)
    requires Inv(k) && TakeInv(k) && AppRuns(k) && m in k.mutexes && Blocks(k, m, time)
    requires k.threads[k.current].error == EOK
    ensures TakeInv(Block(k, m, time))
  {
    BlockIs(k, m, time);
    InheritTake(k, m);
    JoinTake(Inherit(k, m), Block(k, m, time), m);
  }

  lemma InheritTake(k: Kernel, m: Mid)
    requires Inv(k) && TakeInv(k) && m in k.mutexes
    ensures TakeInv(Inherit(k, m))
  {
    var o := k.mutexes[m].owner;
    if o.By? && o.thread in k.threads { ChangeTake(k, o.thread, k.threads[k.current].prio); }
  }

  lemma ResetTake(k: Kernel, error: Error)
    requires Inv(k) && TakeInv(k) && AppRuns(k)
    ensures var r := Set(k, k.current, k.threads[k.current].(error := error));
            Inv(r) && TakeInv(r)
  {
    var r := Set(k, k.current, k.threads[k.current].(error := error));
    SetKeeps(k, k.current, k.threads[k.current].(error := error));
    forall u | u in k.threads ensures TakeOk(r, u) { assert TakeOk(k, u); }
  }

  /** The current thread becomes or stays the owner, and nobody else is concerned. */
  lemma OwnTake(k: Kernel, m: Mid, x: Mutex)
    requires Inv(k) && TakeInv(k) && AppRuns(k) && m in k.mutexes && x.waiters == k.mutexes[m].waiters
    requires k.mutexes[m].owner == Nobody || k.mutexes[m].owner == By(k.current)
    requires x.owner == Nobody || x.owner == By(k.current)
    ensures TakeInv(SetMutex(k, m, x))
  {
    var r := SetMutex(k, m, x);
    forall u | u in r.threads ensures TakeOk(r, u) { assert TakeOk(k, u); }
  }

  lemma TakeTake(k: Kernel, m: Mid, time: int)
    requires Inv(k) && TakeInv(k) && Legal(k, DoTake(m, time))
    ensures TakeInv(TakeEnter(k, m, time).0)
  {
    assert MutexOk(k, k.mutexes[m]);
    ResetTake(k, EOK);
    if Blocks(k, m, time) {
      BlockTake(ResetError(k), m, time);
    } else {
      DirectTake(ResetError(k), m, time);
    }
  }

  lemma DirectTake(k: Kernel, m: Mid, time: int)
    requires m in k.mutexes && MutexOk(k, k.mutexes[m]) && Inv(k) && TakeInv(k) && AppRuns(k) && !Blocks(k, m, time)
    ensures TakeInv(TryTake(k, m, time).0)
  {
    var x, r := k.mutexes[m], TryTake(k, m, time).0;
    if x.owner == By(k.current) {
      assert r == SetMutex(k, m, x.(hold := x.hold + 1));
      OwnTake(k, m, x.(hold := x.hold + 1));
    } else if x.value > 0 {
      assert r == Acquire(k, m);
      AcquireTake(k, m);
    } else {
      assert r == Set(k, k.current, k.threads[k.current].(error := ETIMEOUT));
      ResetTake(k, ETIMEOUT);
    }
  }

  lemma AcquireTake(k: Kernel, m: Mid)
    requires Inv(k) && TakeInv(k) && AppRuns(k) && m in k.mutexes && k.mutexes[m].value > 0 && k.mutexes[m].owner == Nobody
    ensures TakeInv(Acquire(k, m))
  {
    OwnTake(k, m, Acquire(k, m).mutexes[m]);
  }

  lemma HandOverTake(k: Kernel, r: Kernel, m: Mid, t: Tid, x: Mutex)
    requires Inv(k) && TakeInv(k) && AppRuns(k) && m in k.mutexes && t in k.mutexes[m].waiters && k.mutexes[m].owner == By(k.current)
    requires Sane(r) && t in k.threads && Wakes(k, r, t, k.threads[t].(timer := false))
    requires x.owner == By(t) && x.waiters == r.mutexes[m].waiters
    ensures TakeInv(SetMutex(r, m, x))
  {
    var h := SetMutex(r, m, x);
    assert MutexOk(k, k.mutexes[m]);
    forall u | u in h.threads ensures TakeOk(h, u) { HandOverOne(k, r, m, t, x, u); }
  }

  lemma HandOverOne(k: Kernel, r: Kernel, m: Mid, t: Tid, x: Mutex, u: Tid)
    requires Sane(k) && Sane(r) && m in k.mutexes && t in k.mutexes[m].waiters && k.mutexes[m].owner == By(k.current)
    requires k.threads[k.current].call == App && t in k.threads && Wakes(k, r, t, k.threads[t].(timer := false))
    requires x.owner == By(t) && x.waiters == r.mutexes[m].waiters && u in k.threads && TakeOk(k, u) && t != k.current
    ensures TakeOk(SetMutex(r, m, x), u)
  {
  }

  lemma HandOverKeepsTake(k: Kernel, m: Mid)
    requires Inv(k) && TakeInv(k) && AppRuns(k) && m in k.mutexes && k.mutexes[m].waiters != [] && k.mutexes[m].owner == By(k.current)
    ensures k.mutexes[m].waiters[0] in k.threads
    ensures TakeInv(HandOver(k, m, k.mutexes[m].waiters[0]))
  {
    var x := k.mutexes[m];
    var t := x.waiters[0];
    assert MutexOk(k, x) && t in x.waiters;
    WakeIs(k, t, k.threads[t].(timer := false));
    HandOverIs(k, m, t);
    HandOverTake(k, Woken(k, t), m, t, HandOver(k, m, t).mutexes[m]);
  }

  lemma ReleaseTake(k: Kernel, m: Mid)
    requires Inv(k) && TakeInv(k) && Legal(k, DoRelease(m))
    ensures TakeInv(Release(k, m).0)
  {
    var x := k.mutexes[m];
    assert MutexOk(k, x);
    if x.owner == By(k.current) && x.hold == 1 { GiveUpTake(k, m); } else { HoldTake(k, m); }
  }

  /** A release that is refused, or is not the last. */
  lemma HoldTake(k: Kernel, m: Mid)
    requires Inv(k) && TakeInv(k) && Legal(k, DoRelease(m)) && MutexOk(k, k.mutexes[m])
    requires k.mutexes[m].owner != By(k.current) || k.mutexes[m].hold != 1
    ensures TakeInv(Release(k, m).0)
  {
    var x := k.mutexes[m];
    if x.owner != By(k.current) { ResetTake(k, ERROR); } else { OwnTake(k, m, x.(hold := x.hold - 1)); }
  }

  lemma GiveUpTake(k: Kernel, m: Mid)
    requires Inv(k) && TakeInv(k) && AppRuns(k) && m in k.mutexes && MutexOk(k, k.mutexes[m]) && k.mutexes[m].owner == By(k.current)
    ensures TakeInv(GiveUp(k, m).0)
  {
    var x := k.mutexes[m];
    var k1 := Restored(k, x.origPrio);
    RestoreTake(k, x.origPrio);
    if x.waiters != [] {
      HandOverKeepsTake(k1, m);
    } else {
      OwnTake(k1, m, GiveUp(k, m).0.mutexes[m]);
    }
  }

  lemma RestoreTake(k: Kernel, p: nat)
    requires Inv(k) && TakeInv(k) && AppRuns(k) && p < PRIORITIES
    ensures Inv(Restored(k, p)) && TakeInv(Restored(k, p)) && AppRuns(Restored(k, p)) && Restored(k, p).mutexes == k.mutexes
  {
    ChangeTake(k, k.current, p);
    ChangePriorityKeeps(k, k.current, p);
  }

  lemma LockTake(k: Kernel, n: int)
    requires Inv(k) && TakeInv(k) && k.threads[k.current].call == App
    ensures Inv(k.(lock := n)) && TakeInv(k.(lock := n))
  {
    LockKeeps(k, n);
    TakeFrame(k, k.(lock := n));
  }

  lemma UnlockTake(k: Kernel)
    requires Inv(k) && TakeInv(k) && k.threads[k.current].call == App
    ensures TakeInv(ExitCritical(k))
  {
    LockTake(k, k.lock - 1);
    LockTake(k, 0);
    if k.lock - 1 <= 0 { ScheduleTake(k.(lock := 0)); }
  }

  lemma SleepTake(k: Kernel)
    requires Inv(k) && TakeInv(k) && AppRuns(k)
    ensures TakeInv(Apply(k, DoSleep))
  {
    NoWaiter(k, k.current);
    var r := Apply(k, DoSleep);
    forall t | t in k.threads ensures TakeOk(r, t) { assert TakeOk(k, t); }
  }

  lemma RebaseTake(k: Kernel, t: Tid, p: nat)
    requires Inv(k) && TakeInv(k) && t in k.threads && p < PRIORITIES
    ensures TakeInv(Apply(k, DoChangePriority(t, p)))
  {
    ChangeTake(k, t, p);
    var r := ChangePriority(k, t, p);
    SetTake(r, t, r.threads[t].(base := p));
  }

  lemma ReturnTake(k: Kernel)
    requires Inv(k) && TakeInv(k) && Legal(k, DoTakeReturn) && !WaitsSomewhere(k, k.current)
    ensures TakeInv(TakeReturn(k).0)
  {
    var r := TakeReturn(k).0;
    forall t | t in k.threads ensures TakeOk(r, t) { assert TakeOk(k, t); }
  }

  lemma TimeoutTake(k: Kernel, t: Tid)
    requires Inv(k) && TakeInv(k) && Legal(k, DoTimeout(t))
    ensures TakeInv(Timeout(k, t))
  {
    var c := k.threads[t].(error := ETIMEOUT, timer := false);
    WakeIs(k, t, c);
    WakeTake(k, Timeout(k, t), t, c);
  }

  /** The regions of rt_thread_resume and rt_thread_suspend. */
  lemma RegionTake(k: Kernel, s: Step)
    requires Inv(k) && TakeInv(k) && Legal(k, s) && Undisturbed(k, s) && Orderly(k, s)
    requires s.DoSuspendTest? || s.DoSuspend? || s.DoResumeTest? || s.DoUnlink? || s.DoInsert?
    ensures TakeInv(Apply(k, s))
  {
    match s
    case DoSuspendTest(t) => OpenTake(k, SuspendTest(k, t).open);
    case DoSuspend(t) =>
      WithdrawTake(k, t);
      OpenTake(Withdraw(k, t), Apply(k, s).open);
    case DoResumeTest(t) => OpenTake(k, ResumeTest(k, t).open);
    case DoUnlink(t) =>
      UnlinkTake(k, t);
      OpenTake(Unlink(k, t), Apply(k, s).open);
    case DoInsert(t) =>
      InsertTake(k, t);
      OpenTake(InsertThread(k, t), Apply(k, s).open);
  }

  /** Every orderly step keeps each blocked take in one of its three states. */
  lemma StepTake(k: Kernel, s: Step)
    requires Inv(k) && TakeInv(k) && Legal(k, s) && Undisturbed(k, s) && Orderly(k, s)
    ensures TakeInv(Apply(k, s))
  {
    match s
    case DoPrepare(t) => PrepareTake(k, t);
    case DoSchedule => ScheduleTake(k);
    case DoTick => TickTake(k);
    case DoEnterCritical => LockTake(k, k.lock + 1);
    case DoExitCritical => UnlockTake(k);
    case DoSleep => SleepTake(k);
    case DoTimeout(t) => TimeoutTake(k, t);
    case DoChangePriority(t, p) => RebaseTake(k, t, p);
    case DoExit => ExitTake(k);
    case DoTake(m, time) => TakeTake(k, m, time);
    case DoTakeSchedule => TakeScheduleTake(k);
    case DoTakeReturn => ReturnTake(k);
    case DoRelease(m) => ReleaseTake(k, m);
    case _ => RegionTake(k, s);
  }

  /** A waiter taken off its list by rt_thread_resume or rt_thread_suspend is left without an error and
      without the mutex: once it runs, its take returns EOK. */
  lemma StrayResume(k: Kernel, s: Step, m: Mid)
    requires Inv(k) && TakeInv(k) && Legal(k, s) && (s.DoUnlink? || s.DoSuspend?) && m in k.mutexes && s.t in k.mutexes[m].waiters
    ensures var r, t := Apply(k, s), s.t;
      && !TakeInv(r) && r.threads[t].call == Taking(m, r.threads[t].call.scheduled) && r.threads[t].error == EOK
      && r.mutexes[m].owner != By(t) && !WaitsSomewhere(r, t)
  {
    var r, t := Apply(k, s), s.t;
    assert TakeOk(k, t) && MutexOk(k, k.mutexes[m]);
    DetachedNowhere(k, r, t);
    assert !TakeOk(r, t);
  }

  lemma DetachedNowhere(k: Kernel, r: Kernel, t: Tid)
    requires MutexInv(k) && r.mutexes == Detach(k, t).mutexes
    ensures !WaitsSomewhere(r, t)
  {
    forall m | m in k.mutexes ensures t !in r.mutexes[m].waiters {
      assert MutexOk(k, k.mutexes[m]);
      RemoveSpec(k.mutexes[m].waiters, t);
    }
  }

  /** A take that comes back while its thread is on the list returns EOK without the mutex. */
  lemma ReturnInVain(k: Kernel)
    requires Inv(k) && TakeInv(k) && Legal(k, DoTakeReturn) && WaitsSomewhere(k, k.current)
    ensures !TakeInv(TakeReturn(k).0)
  {
    var m :| m in k.mutexes && k.current in k.mutexes[m].waiters;
    assert TakeOk(k, k.current) && !TakeOk(TakeReturn(k).0, k.current);
  }

  /** Every step keeps each blocked take in one of its three states exactly when it is orderly. */
  lemma StepTakeExactly(k: Kernel, s: Step)
    requires Inv(k) && TakeInv(k) && Legal(k, s) && Undisturbed(k, s)
    ensures TakeInv(Apply(k, s)) <==> Orderly(k, s)
  {
    if Orderly(k, s) {
      StepTake(k, s);
    } else if s.DoTakeReturn? {
      ReturnInVain(k);
    } else {
      var m :| m in k.mutexes && s.t in k.mutexes[m].waiters;
      StrayResume(k, s, m);
    }
  }

  ghost predicate OrderlyRun(k: Kernel, steps: seq<Step>)
    requires Sane(k) && LegalRun(k, steps)
    decreases |steps|
  {
    steps == [] || (Orderly(k, steps[0]) && OrderlyRun(Apply(k, steps[0]), steps[1..]))
  }

  lemma {:induction false} RunTake(k: Kernel, steps: seq<Step>)
    requires Inv(k) && TakeInv(k) && LegalRun(k, steps) && UndisturbedRun(k, steps) && OrderlyRun(k, steps)
    ensures Inv(Run(k, steps)) && TakeInv(Run(k, steps))
    decreases |steps|
  {
    if steps != [] {
      StepKeeps(k, steps[0]);
      StepTake(k, steps[0]);
      RunTake(Apply(k, steps[0]), steps[1..]);
    }
  }

  /** In every state of the run each blocked take is in one of its three states. */
  ghost predicate TakesOk(k: Kernel, steps: seq<Step>)
    requires Sane(k) && LegalRun(k, steps)
    decreases |steps|
  {
    TakeInv(k) && (steps == [] || TakesOk(Apply(k, steps[0]), steps[1..]))
  }

  lemma {:induction false} RunTakeExactly(k: Kernel, steps: seq<Step>)
    requires Inv(k) && TakeInv(k) && LegalRun(k, steps) && UndisturbedRun(k, steps)
    ensures TakesOk(k, steps) <==> OrderlyRun(k, steps)
    decreases |steps|
  {
    if steps != [] {
      StepKeeps(k, steps[0]);
      StepTakeExactly(k, steps[0]);
      if Orderly(k, steps[0]) { RunTakeExactly(Apply(k, steps[0]), steps[1..]); }
    }
  }

  lemma TakeScheduleTake(k: Kernel)
    requires Inv(k) && TakeInv(k) && Legal(k, DoTakeSchedule)
    ensures TakeInv(TakeSchedule(k))
  {
    var c := k.threads[k.current];
    var k1 := Set(k, k.current, c.(call := Taking(c.call.mutex, true)));
    SetKeeps(k, k.current, c.(call := Taking(c.call.mutex, true)));
    ScheduleKeeps(k1);
    forall t | t in k.threads ensures TakeOk(Schedule(k1), t) {
      assert TakeOk(k, t);
      TurnedTake(k, k1, Schedule(k1), t);
    }
  }

  lemma TurnedTake(k: Kernel, k1: Kernel, r: Kernel, t: Tid)
    requires Sane(k) && t in k.threads && TakeOk(k, t) && k.threads[k.current].call.Taking?
    requires k1 == Set(k, k.current, k.threads[k.current].(call := Taking(k.threads[k.current].call.mutex, true)))
    requires OnlyTurns(k1, r)
    ensures TakeOk(r, t)
  {
  }

  /** A take that comes back once its thread is off the wait list reports success exactly when it leaves the
      caller the owner, and otherwise a timeout; the caller then runs. One that comes back while its thread is
      on the list reports success without the mutex. */
  lemma TakeReturns(k: Kernel)
    requires Inv(k) && TakeInv(k) && Legal(k, DoTakeReturn)
    ensures var (r, e) := TakeReturn(k);
            var owner := r.mutexes[k.threads[k.current].call.mutex].owner == By(r.current);
            if WaitsSomewhere(k, k.current) then e == EOK && !owner
            else e == (if owner then EOK else ETIMEOUT) && r.threads[r.current].stat == Running
  {
    assert TakeOk(k, k.current);
    assert MutexOk(k, k.mutexes[k.threads[k.current].call.mutex]);
  }

  /** A take that has to wait gives up the processor exactly when the scheduler is unlocked and
      some thread is ready. Otherwise it comes back with its thread on the wait list, and reports success. */
  lemma BlockingNeedsScheduler(k: Kernel, m: Mid, time: int)
    requires Inv(k) && Legal(k, DoTake(m, time)) && Blocks(k, m, time)
    ensures var k1 := TakeEnter(k, m, time).0;
      && Sane(k1) && k1.current == k.current && k1.threads[k.current].call.Taking?
      && var r := TakeSchedule(k1);
        && (r.current != k.current <==> k.lock == 0 && k.group != {})
        && (r.current == k.current ==>
              WaitsSomewhere(r, k.current) && TakeReturn(r).1 == EOK && m in r.mutexes && r.mutexes[m].owner != By(k.current))
  {
    var k0 := ResetError(k);
    SetKeeps(k, k.current, k.threads[k.current].(error := EOK));
    assert MutexOk(k, k.mutexes[m]);
    TakeKeeps(k, m, time);
    var k1 := Block(k0, m, time);
    BlockIs(k0, m, time);
    BlockedState(k0, m, time);
    SameReady(k0, k1);
    var d := k1.threads[k1.current].(call := Taking(m, true));
    SetKeeps(k1, k1.current, d);
    BlockedSchedule(Set(k1, k1.current, d));
  }

  lemma SomeReady(k: Kernel)
    requires Queues(k)
    ensures k.group != {} <==> exists t :: t in k.threads && k.threads[t].stat == Ready
  {
    if k.group != {} {
      var p :| p in k.group;
      assert Lane(k, p) && k.ready[p][0] in k.ready[p];
    }
    forall t | t in k.threads && k.threads[t].stat == Ready ensures k.group != {} { assert Lane(k, k.threads[t].prio); }
  }

  lemma InheritReady(k: Kernel, m: Mid)
    requires Sane(k) && m in k.mutexes && k.threads[k.current].stat != Ready
    ensures forall t :: t in k.threads && k.threads[t].stat == Ready ==> Inherit(k, m).threads[t].stat == Ready
  {
  }

  lemma BlockedState(k: Kernel, m: Mid, time: int)
    requires Inv(k) && AppRuns(k) && m in k.mutexes && Blocks(k, m, time) && k.threads[k.current].error == EOK
    ensures var r := Block(k, m, time); var c := r.threads[k.current];
      && Same(k, r) && r.lock == k.lock && r.current == k.current && r.mutexes[m].owner == k.mutexes[m].owner
      && c.call == Taking(m, false) && c.error == EOK && c.stat == Suspended
      && forall t :: t in k.threads ==> (r.threads[t].stat == Ready <==> k.threads[t].stat == Ready)
  {
    InheritKeeps(k, m);
    InheritReady(k, m);
    forall t | t in k.threads ensures Block(k, m, time).threads[t].stat == Ready <==> k.threads[t].stat == Ready {
      BlockReady(k, m, time, t);
    }
  }

  lemma BlockReady(k: Kernel, m: Mid, time: int, t: Tid)
    requires Sane(k) && m in k.mutexes && k.threads[k.current].stat == Running && t in k.threads
    requires Inherit(k, m).threads[k.current] == k.threads[k.current]
    ensures Block(k, m, time).threads[t].stat == Ready <==> k.threads[t].stat == Ready
  {
    InheritStats(k, m, t);
  }

  lemma InheritStats(k: Kernel, m: Mid, t: Tid)
    requires Sane(k) && m in k.mutexes && t in k.threads && k.threads[k.current].stat == Running
    ensures Inherit(k, m).threads[t].stat == k.threads[t].stat
  {
  }

  lemma SameReady(k: Kernel, r: Kernel)
    requires Queues(k) && Queues(r) && Same(k, r)
    requires forall t :: t in k.threads ==> (r.threads[t].stat == Ready <==> k.threads[t].stat == Ready)
    ensures k.group == {} <==> r.group == {}
  {
    SomeReady(k);
    SomeReady(r);
  }

  lemma BlockedSchedule(k: Kernel)
    requires Inv(k) && k.threads[k.current].stat == Suspended
    ensures Schedule(k).current != k.current <==> k.lock == 0 && k.group != {}
    ensures Schedule(k).current == k.current ==> Schedule(k) == k
  {
    if k.lock == 0 { ScheduleRunsMostUrgent(k); }
    ScheduleTurns(k);
    HighestSpec(k.group, 0);
    assert Turn(k.threads[k.current], Schedule(k).threads[k.current]);
  }
}
