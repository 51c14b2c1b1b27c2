/** What `hold` counts: an account of takes and releases, kept from their results alone. */
module MutexAccount {
  import opened KernelSpec
  import opened KernelTheorems
  import opened MutexHandOff
  import opened Sequences

  /** For each thread and mutex, takes that returned RT_EOK less releases that did. */
  type Account = map<(Tid, Mid), int>

  function Count(a: Account, t: Tid, m: Mid): int { if (t, m) in a then a[(t, m)] else 0 }

  function Add(a: Account, t: Tid, m: Mid, n: int): Account { a[(t, m) := Count(a, t, m) + n] }

  /** What the caller of a step sees of it. */
  function Booked(a: Account, k: Kernel, s: Step): Account
    requires Sane(k) && Legal(k, s)
  {
    match s
    case DoTake(m, time) => if TakeEnter(k, m, time).1 == Returns(EOK) then Add(a, k.current, m, 1) else a
    case DoTakeReturn => if TakeReturn(k).1 == EOK then Add(a, k.current, k.threads[k.current].call.mutex, 1) else a
    case DoRelease(m) => if Release(k, m).1 == EOK then Add(a, k.current, m, -1) else a
    case _ => a
  }

  /** The owner of `m` was handed it, and its take is still to return. */
  predicate Owed(k: Kernel, m: Mid)
    requires m in k.mutexes
  {
    var o := k.mutexes[m].owner;
    o.By? && o.thread in k.threads && k.threads[o.thread].call.Taking? && k.threads[o.thread].call.mutex == m
  }

  function Held(k: Kernel, t: Tid, m: Mid): int
    requires m in k.mutexes
  {
    if k.mutexes[m].owner == By(t) then k.mutexes[m].hold - (if Owed(k, m) then 1 else 0) else 0
  }

  /** `hold` is the balance of the owner, its hand-over counted once; all others have none. */
  ghost predicate Balanced(k: Kernel, a: Account) { forall m, t :: m in k.mutexes ==> Count(a, t, m) == Held(k, t, m) }

  // ----- steps that the account does not notice

  /** Owners, hold counts and calls are as before. */
  ghost predicate Unmoved(k: Kernel, r: Kernel) {
    && r.mutexes.Keys == k.mutexes.Keys && r.threads.Keys == k.threads.Keys
    && (forall m :: m in k.mutexes ==> r.mutexes[m].owner == k.mutexes[m].owner && r.mutexes[m].hold == k.mutexes[m].hold)
    && (forall t :: t in k.threads ==> SameCall(k.threads[t].call, r.threads[t].call))
  }

  predicate SameCall(c: Call, d: Call) { (c.Taking? <==> d.Taking?) && (c.Taking? ==> d.mutex == c.mutex) }

  lemma UnmovedKeeps(k: Kernel, r: Kernel, a: Account)
    requires Unmoved(k, r)
    ensures Balanced(r, a) <==> Balanced(k, a)
  {
    forall m, t | m in k.mutexes ensures Held(r, t, m) == Held(k, t, m) {}
    if Balanced(r, a) { forall m, t | m in k.mutexes ensures Count(a, t, m) == Held(k, t, m) { assert m in r.mutexes; } }
  }

  lemma TurnsUnmoved(k: Kernel)
    requires SchedInv(k)
    ensures Unmoved(k, Schedule(k))
  {
    ScheduleTurns(k);
    forall t | t in k.threads ensures SameCall(k.threads[t].call, Schedule(k).threads[t].call) { assert Turn(k.threads[t], Schedule(k).threads[t]); }
  }

  lemma Through(k: Kernel, k1: Kernel)
    requires Unmoved(k, k1) && SchedInv(k1)
    ensures Unmoved(k, Schedule(k1))
  {
    TurnsUnmoved(k1);
  }

  predicate Calls(s: Step) { s.DoTake? || s.DoTakeReturn? || s.DoRelease? }

  lemma InsertUnmoved(k: Kernel, k1: Kernel, t: Tid)
    requires Unmoved(k, k1) && Sane(k1) && t in k1.threads
    ensures Unmoved(k, InsertThread(k1, t))
  {
  }

  lemma DetachUnmoved(k: Kernel, t: Tid, c: Tcb)
    requires Sane(k) && t in k.threads && SameCall(k.threads[t].call, c.call)
    ensures Unmoved(k, Set(Detach(k, t), t, c))
  {
  }

  lemma ReadyUnmoved(k: Kernel, k1: Kernel, r: Kernel)
    requires Unmoved(k, k1) && r.mutexes == k1.mutexes && r.threads == k1.threads
    ensures Unmoved(k, r)
  {
  }

  lemma WithdrawUnmoved(k: Kernel, t: Tid)
    requires Sane(k) && t in k.threads
    ensures Unmoved(k, Withdraw(k, t))
  {
    var c := k.threads[t].(stat := Suspended, timer := false);
    DetachUnmoved(k, t, c);
    ReadyUnmoved(k, Set(Detach(k, t), t, c), Withdraw(k, t));
  }

  lemma UnlinkUnmoved(k: Kernel, t: Tid)
    requires Sane(k) && t in k.threads
    ensures Unmoved(k, Unlink(k, t))
  {
    var c := k.threads[t].(timer := false);
    DetachUnmoved(k, t, c);
    ReadyUnmoved(k, Set(Detach(k, t), t, c), Unlink(k, t));
  }

  lemma RegionUnmoved(k: Kernel, s: Step)
    requires Sane(k) && Legal(k, s) && Regions(s)
    ensures Unmoved(k, Apply(k, s))
  {
    match s
    case DoSuspendTest(t) => OpenUnmoved(k, k, SuspendTest(k, t).open);
    case DoSuspend(t) =>
      WithdrawUnmoved(k, t);
      OpenUnmoved(k, Withdraw(k, t), Apply(k, s).open);
    case DoResumeTest(t) => OpenUnmoved(k, k, ResumeTest(k, t).open);
    case DoUnlink(t) =>
      UnlinkUnmoved(k, t);
      OpenUnmoved(k, Unlink(k, t), Apply(k, s).open);
    case DoInsert(t) =>
      InsertUnmoved(k, k, t);
      OpenUnmoved(k, InsertThread(k, t), Apply(k, s).open);
  }

  lemma OpenUnmoved(k: Kernel, r: Kernel, open: multiset<Gap>)
    requires Unmoved(k, r)
    ensures Unmoved(k, r.(open := open))
  {
  }

  /** The steps that run the scheduler last. */
  lemma ThroughUnmoved(k: Kernel, s: Step)
    requires Inv(k) && Legal(k, s) && Schedules(s)
    ensures Unmoved(k, Apply(k, s))
  {
    var c := k.threads[k.current];
    match s
    case DoSchedule => TurnsUnmoved(k);
    case DoTick =>
      var left := OneLess(c.remTick);
      var d := if left != 0 then c.(remTick := left) else c.(remTick := c.initTick, yielding := true);
      SetKeeps(k, k.current, d);
      Through(k, Set(k, k.current, d));
    case DoExitCritical =>
      LockKeeps(k, 0);
      Through(k, k.(lock := 0));
    case DoExit =>
      var d := c.(stat := Closed, yielding := false, timer := false);
      RemoveInv(k, k.current, d);
      Through(k, Set(RemoveThread(k, k.current), k.current, d));
    case DoTakeSchedule =>
      var d := c.(call := Taking(c.call.mutex, true));
      SetKeeps(k, k.current, d);
      Through(k, Set(k, k.current, d));
  }

  lemma SleepUnmoved(k: Kernel)
    requires Sane(k)
    ensures Unmoved(k, Sleep(k))
  {
  }

  lemma TimeoutUnmoved(k: Kernel, t: Tid)
    requires Sane(k) && t in k.threads
    ensures Unmoved(k, Timeout(k, t))
  {
    var c := k.threads[t].(error := ETIMEOUT, timer := false);
    DetachUnmoved(k, t, c);
    InsertUnmoved(k, Set(Detach(k, t), t, c), t);
  }

  lemma ChangeUnmoved(k: Kernel, t: Tid, p: nat)
    requires Sane(k) && t in k.threads && p < PRIORITIES
    ensures Unmoved(k, ChangePriority(k, t, p)) && Unmoved(k, Rebase(ChangePriority(k, t, p), t, p))
  {
  }

  lemma QuietUnmoved(k: Kernel, s: Step)
    requires Sane(k) && Legal(k, s) && (s.DoPrepare? || s.DoEnterCritical? || s.DoSleep? || s.DoTimeout? || s.DoChangePriority?)
    ensures Unmoved(k, Apply(k, s))
  {
    match s
    case DoSleep => SleepUnmoved(k);
    case DoTimeout(t) => TimeoutUnmoved(k, t);
    case DoChangePriority(t, p) => ChangeUnmoved(k, t, p);
    case _ =>
  }

  predicate Schedules(s: Step) { s.DoSchedule? || s.DoTick? || s.DoExitCritical? || s.DoExit? || s.DoTakeSchedule? }

  predicate Regions(s: Step) { s.DoSuspendTest? || s.DoSuspend? || s.DoResumeTest? || s.DoUnlink? || s.DoInsert? }

  lemma PlainUnmoved(k: Kernel, s: Step)
    requires Inv(k) && Legal(k, s) && !Calls(s)
    ensures Unmoved(k, Apply(k, s))
  {
    if Schedules(s) { ThroughUnmoved(k, s); } else if Regions(s) { RegionUnmoved(k, s); } else { QuietUnmoved(k, s); }
  }

  // ----- takes and releases

  /** Only mutex `m` and thread `t` count differently. */
  lemma OneCounts(k: Kernel, r: Kernel, a: Account, m: Mid, t: Tid, n: int)
    requires Balanced(k, a) && r.mutexes.Keys == k.mutexes.Keys && m in k.mutexes
    requires forall u, i :: i in k.mutexes && (u != t || i != m) ==> Held(r, u, i) == Held(k, u, i)
    requires Held(r, t, m) == Held(k, t, m) + n
    ensures Balanced(r, Add(a, t, m, n))
  {
  }

  /** A take returns RT_EOK at once exactly for the owner or if nobody owns the mutex, and a timeout exactly if it
      must not wait for another. */
  lemma TakeOutcome(k: Kernel, m: Mid, time: int)
    requires Inv(k) && Legal(k, DoTake(m, time))
    ensures var o := TakeEnter(k, m, time).1;
      && (o == Returns(EOK) <==> k.mutexes[m].owner == By(k.current) || k.mutexes[m].owner == Nobody)
      && (o == Returns(ETIMEOUT) <==> k.mutexes[m].owner != By(k.current) && k.mutexes[m].owner != Nobody && time == 0)
      && (o == Waits <==> k.mutexes[m].owner != By(k.current) && k.mutexes[m].owner != Nobody && time != 0)
  {
    assert MutexOk(k, k.mutexes[m]);
  }

  lemma TakeBalances(k: Kernel, a: Account, m: Mid, time: int)
    requires Inv(k) && Legal(k, DoTake(m, time)) && Balanced(k, a)
    ensures Balanced(TakeEnter(k, m, time).0, Booked(a, k, DoTake(m, time)))
  {
    TakeOutcome(k, m, time);
    assert MutexOk(k, k.mutexes[m]);
    if k.mutexes[m].owner == By(k.current) || k.mutexes[m].owner == Nobody {
      OwnBalances(k, a, m, time);
    } else if time == 0 {
      RefusedUnmoved(k, m);
      UnmovedKeeps(k, TakeEnter(k, m, time).0, a);
    } else {
      WaitBalances(k, a, m, time);
    }
  }

  lemma WaitBalances(k: Kernel, a: Account, m: Mid, time: int)
    requires Inv(k) && AppRuns(k) && m in k.mutexes && Blocks(k, m, time) && Balanced(k, a)
    ensures Balanced(Block(ResetError(k), m, time), a)
  {
    SetKeeps(k, k.current, k.threads[k.current].(error := EOK));
    UnmovedKeeps(k, ResetError(k), a);
    BlockBalances(ResetError(k), a, m, time);
  }

  lemma RefusedUnmoved(k: Kernel, m: Mid)
    requires Sane(k) && m in k.mutexes && k.mutexes[m].owner != By(k.current) && k.mutexes[m].value == 0
    ensures Unmoved(k, TakeEnter(k, m, 0).0)
  {
  }

  lemma OwnBalances(k: Kernel, a: Account, m: Mid, time: int)
    requires Inv(k) && Legal(k, DoTake(m, time)) && Balanced(k, a) && MutexOk(k, k.mutexes[m])
    requires k.mutexes[m].owner == By(k.current) || k.mutexes[m].owner == Nobody
    ensures Balanced(TakeEnter(k, m, time).0, Add(a, k.current, m, 1))
  {
    OwnCounts(k, m, time);
    OneCounts(k, TakeEnter(k, m, time).0, a, m, k.current, 1);
  }

  lemma OwnCounts(k: Kernel, m: Mid, time: int)
    requires Sane(k) && AppRuns(k) && m in k.mutexes && MutexOk(k, k.mutexes[m])
    requires k.mutexes[m].owner == By(k.current) || k.mutexes[m].owner == Nobody
    ensures var r := TakeEnter(k, m, time).0;
      && r.mutexes.Keys == k.mutexes.Keys && r.mutexes == k.mutexes[m := r.mutexes[m]] && r.threads.Keys == k.threads.Keys
      && r.mutexes[m].owner == By(k.current) && r.mutexes[m].hold == k.mutexes[m].hold + 1
      && (forall t :: t in k.threads ==> r.threads[t].call == k.threads[t].call)
  {
  }

  lemma BlockBalances(k: Kernel, a: Account, m: Mid, time: int)
    requires Inv(k) && AppRuns(k) && m in k.mutexes && Blocks(k, m, time) && Balanced(k, a)
    ensures Balanced(Block(k, m, time), a)
  {
    var r := Block(k, m, time);
    BlockUnmoved(k, m, time);
    forall n, t | n in k.mutexes ensures Held(r, t, n) == Held(k, t, n) {}
  }

  lemma BlockUnmoved(k: Kernel, m: Mid, time: int)
    requires Sane(k) && m in k.mutexes
    ensures var r := Block(k, m, time);
      && r.mutexes.Keys == k.mutexes.Keys && r.threads.Keys == k.threads.Keys
      && (forall n :: n in k.mutexes ==> r.mutexes[n].owner == k.mutexes[n].owner && r.mutexes[n].hold == k.mutexes[n].hold)
      && r.threads[k.current].call == Taking(m, false)
      && forall t :: t in k.threads && t != k.current ==> r.threads[t].call == k.threads[t].call
  {
    var k1 := Suspend(Inherit(k, m), k.current);
    SameCalls(k, m);
    assert k1.mutexes == k.mutexes && forall t :: t in k.threads ==> k1.threads[t].call == k.threads[t].call;
  }

  lemma SameCalls(k: Kernel, m: Mid)
    requires Sane(k) && m in k.mutexes
    ensures Inherit(k, m).mutexes == k.mutexes && forall t :: t in k.threads ==> Inherit(k, m).threads[t].call == k.threads[t].call
  {
  }

  /** A take that had to wait is booked when it returns; one that returns in vain is booked without a hold. */
  lemma ReturnBalances(k: Kernel, a: Account)
    requires Inv(k) && TakeInv(k) && Legal(k, DoTakeReturn) && Balanced(k, a)
    ensures Balanced(TakeReturn(k).0, Booked(a, k, DoTakeReturn)) <==> !WaitsSomewhere(k, k.current)
  {
    var r, c := TakeReturn(k).0, k.threads[k.current];
    var m := c.call.mutex;
    assert TakeOk(k, k.current) && MutexOk(k, k.mutexes[m]);
    TakeReturns(k);
    if WaitsSomewhere(k, k.current) {
      assert Count(Booked(a, k, DoTakeReturn), k.current, m) == 1 && Held(r, k.current, m) == 0;
    } else if c.error == EOK {
      OneCounts(k, r, a, m, k.current, 1);
    } else {
      forall n, t | n in k.mutexes ensures Held(r, t, n) == Held(k, t, n) {}
    }
  }

  lemma ReleaseBalances(k: Kernel, a: Account, m: Mid)
    requires Inv(k) && TakeInv(k) && Legal(k, DoRelease(m)) && Balanced(k, a)
    ensures Balanced(Release(k, m).0, Booked(a, k, DoRelease(m)))
  {
    var x, r := k.mutexes[m], Release(k, m).0;
    assert MutexOk(k, x);
    if x.owner != By(k.current) {
      UnmovedKeeps(k, r, a);
    } else {
      if x.hold == 1 { GiveUpHolds(k, m); }
      OneCounts(k, r, a, m, k.current, -1);
    }
  }

  /** The last release leaves nobody, or the first waiter, whose take is still to return. */
  lemma GiveUpHolds(k: Kernel, m: Mid)
    requires Inv(k) && TakeInv(k) && Legal(k, DoRelease(m)) && k.mutexes[m].owner == By(k.current) && k.mutexes[m].hold == 1
    ensures Passed(k, Release(k, m).0, m)
  {
    var x := k.mutexes[m];
    assert MutexOk(k, x);
    RestoreIs(k, x.origPrio);
    var k1 := Set(k, k.current, k.threads[k.current].(prio := x.origPrio));
    if x.waiters != [] { HandedPasses(k, k1, m); } else { FreedHolds(k, k1, m); }
  }

  lemma HandedPasses(k: Kernel, k1: Kernel, m: Mid)
    requires Inv(k) && TakeInv(k) && AppRuns(k) && m in k.mutexes && k.mutexes[m].owner == By(k.current) && k.mutexes[m].waiters != []
    requires k.mutexes[m].origPrio < PRIORITIES && k1 == Set(k, k.current, k.threads[k.current].(prio := k.mutexes[m].origPrio))
    ensures k.mutexes[m].waiters[0] in k.threads && Passed(k, HandOver(k1, m, k.mutexes[m].waiters[0]), m)
  {
    var t := k.mutexes[m].waiters[0];
    assert MutexOk(k, k.mutexes[m]) && t in k.mutexes[m].waiters && TakeOk(k, t);
    WokenUnmoved(k, k1, t);
    HandedHolds(k, Woken(k1, t), m, t);
    HandOverPasses(k, k1, HandOver(k1, m, t), m, t);
  }

  lemma HandOverPasses(k: Kernel, k1: Kernel, r: Kernel, m: Mid, t: Tid)
    requires Sane(k1) && m in k.mutexes && k1.mutexes == k.mutexes && t in k1.threads && k1.threads[t].stat == Suspended
    requires t in k.threads && k1.threads[t] == k.threads[t] && r == HandOver(k1, m, t)
    requires Passed(k, SetMutex(Woken(k1, t), m, k.mutexes[m].(owner := By(t), origPrio := k.threads[t].prio, hold := 1,
                                                            waiters := Remove(k.mutexes[m].waiters, t))), m)
    ensures Passed(k, r, m)
  {
    HandOverIs(k1, m, t);
  }

  ghost predicate Passed(k: Kernel, r: Kernel, m: Mid)
    requires m in k.mutexes
  {
    && r.mutexes.Keys == k.mutexes.Keys && Held(r, k.current, m) == 0
    && forall u, n :: n in k.mutexes && (u != k.current || n != m) ==> Held(r, u, n) == Held(k, u, n)
  }

  lemma WokenUnmoved(k: Kernel, k1: Kernel, t: Tid)
    requires Sane(k) && Sane(k1) && t in k.threads && Unmoved(k, k1)
    ensures Unmoved(k, Woken(k1, t))
  {
    var c := k1.threads[t].(timer := false);
    DetachUnmoved(k1, t, c);
    InsertUnmoved(k1, Set(Detach(k1, t), t, c), t);
    Further(k, k1, Woken(k1, t));
  }

  lemma Further(k: Kernel, k1: Kernel, r: Kernel)
    requires Unmoved(k, k1) && Unmoved(k1, r)
    ensures Unmoved(k, r)
  {
  }

  lemma FreedHolds(k: Kernel, k1: Kernel, m: Mid)
    requires m in k.mutexes && k.mutexes[m].owner == By(k.current) && Unmoved(k, k1)
    ensures Passed(k, SetMutex(k1, m, k.mutexes[m].(hold := 0, value := k.mutexes[m].value + 1, owner := Nobody, origPrio := NO_PRIORITY)), m)
  {
  }

  lemma HandedHolds(k: Kernel, w: Kernel, m: Mid, t: Tid)
    requires m in k.mutexes && k.mutexes[m].owner == By(k.current) && t != k.current && t in k.threads
    requires k.threads[t].call.Taking? && k.threads[t].call.mutex == m && Unmoved(k, w)
    ensures var r := SetMutex(w, m, k.mutexes[m].(owner := By(t), origPrio := k.threads[t].prio, hold := 1, waiters := Remove(k.mutexes[m].waiters, t)));
            Passed(k, r, m)
  {
  }

  /** A release returns RT_EOK exactly for the owner, and else an error, and then changes no mutex. */
  lemma ReleaseOutcome(k: Kernel, m: Mid)
    requires Inv(k) && Legal(k, DoRelease(m))
    ensures Release(k, m).1 == (if k.mutexes[m].owner == By(k.current) then EOK else ERROR)
    ensures k.mutexes[m].owner != By(k.current) ==> Release(k, m).0.mutexes == k.mutexes && Release(k, m).0.threads[k.current].error == ERROR
  {
    assert MutexOk(k, k.mutexes[m]);
  }

  // ----- what takes and releases leave behind

  /** A free mutex records the priority of its taker as it is now; one already owned keeps what is recorded. */
  lemma TakeRecords(k: Kernel, m: Mid, time: int)
    requires Inv(k) && Legal(k, DoTake(m, time)) && TakeEnter(k, m, time).1 == Returns(EOK)
    ensures var x, y := k.mutexes[m], TakeEnter(k, m, time).0.mutexes[m];
      && y.owner == By(k.current) && y.waiters == x.waiters && y.value == 0
      && y.origPrio == (if x.owner == Nobody then k.threads[k.current].prio else x.origPrio)
  {
    assert MutexOk(k, k.mutexes[m]);
  }

  /** A take that has to wait leaves its caller suspended, in no ready list and among the waiters, its timer running
      exactly if it waits for a limited time. */
  lemma TakeWaits(k: Kernel, m: Mid, time: int)
    requires Inv(k) && Legal(k, DoTake(m, time)) && TakeEnter(k, m, time).1 == Waits
    ensures var r, t := TakeEnter(k, m, time).0, k.current;
      && r.threads[t].stat == Suspended && (r.threads[t].timer <==> time > 0) && r.threads[t].call == Taking(m, false)
      && (forall p: nat :: p < PRIORITIES ==> t !in r.ready[p])
      && (forall u :: u in r.mutexes[m].waiters <==> u in k.mutexes[m].waiters || u == t)
  {
    TakeOutcome(k, m, time);
    assert MutexOk(k, k.mutexes[m]);
    SetKeeps(k, k.current, k.threads[k.current].(error := EOK));
    BlockLeaves(ResetError(k), m, time);
  }

  lemma BlockLeaves(k: Kernel, m: Mid, time: int)
    requires Inv(k) && AppRuns(k) && m in k.mutexes && Blocks(k, m, time)
    ensures var r, t := Block(k, m, time), k.current;
      && r.threads[t].stat == Suspended && (r.threads[t].timer <==> time > 0) && r.threads[t].call == Taking(m, false)
      && (forall p: nat :: p < PRIORITIES ==> t !in r.ready[p])
      && (forall u :: u in r.mutexes[m].waiters <==> u in k.mutexes[m].waiters || u == t)
  {
    BlockIs(k, m, time);
    assert MutexOk(k, k.mutexes[m]);
    BlockKeeps(k, m, time);
    BlockTimer(k, m, time);
    JoinedLeaves(Inherit(k, m), Block(k, m, time), m);
    SameCalls(k, m);
  }

  lemma JoinedLeaves(k: Kernel, r: Kernel, m: Mid)
    requires Sane(k) && Inv(r) && m in k.mutexes && Joins(k, r, m)
    ensures r.current == k.current && m in r.mutexes && r.threads[k.current].stat == Suspended && r.threads[k.current].call == Taking(m, false)
    ensures forall u :: u in r.mutexes[m].waiters <==> u in k.mutexes[m].waiters || u == k.current
    ensures forall p: nat :: p < PRIORITIES ==> k.current !in r.ready[p]
  {
    assert k.current in r.mutexes[m].waiters && MutexOk(r, r.mutexes[m]);
    forall p: nat | p < PRIORITIES ensures k.current !in r.ready[p] { assert Lane(r, p); }
  }

  lemma BlockTimer(k: Kernel, m: Mid, time: int)
    requires Sane(k) && m in k.mutexes
    ensures Block(k, m, time).threads[k.current].timer <==> time > 0
  {
  }

  /** The last release puts the recorded priority back. The first waiter, if any, becomes the owner, held once, with
      its own priority on record, and is ready; otherwise the mutex is free as rt_mutex_init left it. A schedule is due
      exactly if there was a waiter. */
  lemma ReleaseLeaves(k: Kernel, m: Mid)
    requires Inv(k) && Legal(k, DoRelease(m)) && k.mutexes[m].owner == By(k.current) && k.mutexes[m].hold == 1
    ensures var (r, e, due) := Release(k, m); var x, y := k.mutexes[m], r.mutexes[m];
      && e == EOK && (due <==> x.waiters != []) && r.threads[k.current].prio == x.origPrio
      && (if x.waiters == [] then y == Mutex(x.flag, 1, Nobody, NO_PRIORITY, 0, [])
          else
            var t := x.waiters[0];
            t in k.threads && y == Mutex(x.flag, 0, By(t), k.threads[t].prio, 1, x.waiters[1..]) && r.threads[t].stat == Ready)
  {
    var x := k.mutexes[m];
    assert MutexOk(k, x);
    RestoreIs(k, x.origPrio);
    var k1 := Set(k, k.current, k.threads[k.current].(prio := x.origPrio));
    if x.waiters != [] {
      assert x.waiters[0] in x.waiters;
      HandOverIs(k1, m, x.waiters[0]);
      WokenLeaves(k1, x.waiters[0]);
    }
  }

  lemma WokenLeaves(k: Kernel, t: Tid)
    requires Sane(k) && t in k.threads && t != k.current
    ensures Woken(k, t).threads[t].stat == Ready && Woken(k, t).threads[k.current] == k.threads[k.current]
  {
  }

  // ----- every step, every run

  /** From a state in which takes are in order the account goes on exactly unless a take returns in vain. */
  lemma StepBalances(k: Kernel, a: Account, s: Step)
    requires Inv(k) && TakeInv(k) && Legal(k, s) && Balanced(k, a)
    ensures Balanced(Apply(k, s), Booked(a, k, s)) <==> !(s.DoTakeReturn? && WaitsSomewhere(k, k.current))
  {
    match s
    case DoTake(m, time) => TakeBalances(k, a, m, time);
    case DoTakeReturn => ReturnBalances(k, a);
    case DoRelease(m) => ReleaseBalances(k, a, m);
    case _ =>
      PlainUnmoved(k, s);
      UnmovedKeeps(k, Apply(k, s), a);
  }

  function RunAccount(k: Kernel, a: Account, steps: seq<Step>): Account
    requires Sane(k) && LegalRun(k, steps)
    decreases |steps|
  {
    if steps == [] then a else RunAccount(Apply(k, steps[0]), Booked(a, k, steps[0]), steps[1..])
  }

  /** Over every orderly run `hold` is what the results of takes and releases say. */
  lemma {:induction false} RunBalances(k: Kernel, a: Account, steps: seq<Step>)
    requires Inv(k) && TakeInv(k) && Balanced(k, a) && LegalRun(k, steps) && UndisturbedRun(k, steps) && OrderlyRun(k, steps)
    ensures Balanced(Run(k, steps), RunAccount(k, a, steps))
    decreases |steps|
  {
    if steps != [] {
      StepBalances(k, a, steps[0]);
      StepKeeps(k, steps[0]);
      StepTake(k, steps[0]);
      RunBalances(Apply(k, steps[0]), Booked(a, k, steps[0]), steps[1..]);
    }
  }

  /** The owner keeps the mutex until the release that matches its first take, and that release takes it away. */
  lemma OwnerKeeps(k: Kernel, a: Account, s: Step, m: Mid, t: Tid)
    requires Inv(k) && TakeInv(k) && Legal(k, s) && Balanced(k, a) && m in k.mutexes && k.mutexes[m].owner == By(t)
    ensures m in Apply(k, s).mutexes
    ensures Apply(k, s).mutexes[m].owner != By(t) <==> s == DoRelease(m) && k.current == t && Count(a, t, m) == 1
  {
    assert Count(a, t, m) == Held(k, t, m);
    OwnerAfter(k, s, m);
  }

  lemma OwnerAfter(k: Kernel, s: Step, m: Mid)
    requires Inv(k) && TakeInv(k) && Legal(k, s) && m in k.mutexes && k.mutexes[m].owner.By?
    ensures m in Apply(k, s).mutexes
    ensures Apply(k, s).mutexes[m].owner != k.mutexes[m].owner <==>
              s == DoRelease(m) && k.mutexes[m].owner == By(k.current) && k.mutexes[m].hold == 1
  {
    if Calls(s) { CallOwner(k, s, m); } else { PlainUnmoved(k, s); }
  }

  lemma CallOwner(k: Kernel, s: Step, m: Mid)
    requires Inv(k) && TakeInv(k) && Legal(k, s) && Calls(s) && m in k.mutexes && k.mutexes[m].owner.By?
    ensures m in Apply(k, s).mutexes
    ensures Apply(k, s).mutexes[m].owner != k.mutexes[m].owner <==>
              s == DoRelease(m) && k.mutexes[m].owner == By(k.current) && k.mutexes[m].hold == 1
  {
    match s
    case DoRelease(n) => ReleaseOwner(k, n, m);
    case DoTake(n, time) => TakeOwner(k, n, time, m);
    case DoTakeReturn => assert TakeReturn(k).0.mutexes == k.mutexes;
  }

  lemma ReleaseOwner(k: Kernel, n: Mid, m: Mid)
    requires Inv(k) && TakeInv(k) && Legal(k, DoRelease(n)) && m in k.mutexes
    ensures m in Release(k, n).0.mutexes
    ensures var o := Release(k, n).0.mutexes[m].owner;
            if n == m && k.mutexes[m].owner == By(k.current) && k.mutexes[m].hold == 1 then o != By(k.current)
            else o == k.mutexes[m].owner
  {
    var x := k.mutexes[n];
    assert MutexOk(k, x);
    if x.owner == By(k.current) && x.hold == 1 { GiveUpOwner(k, n, m); }
  }

  lemma GiveUpOwner(k: Kernel, n: Mid, m: Mid)
    requires Inv(k) && Legal(k, DoRelease(n)) && MutexOk(k, k.mutexes[n]) && m in k.mutexes && k.mutexes[n].owner == By(k.current)
    ensures m in GiveUp(k, n).0.mutexes
    ensures var o := GiveUp(k, n).0.mutexes[m].owner;
            if n == m then o == Nobody || (k.mutexes[n].waiters != [] && o == By(k.mutexes[n].waiters[0])) else o == k.mutexes[m].owner
    ensures k.mutexes[n].waiters != [] ==> k.mutexes[n].waiters[0] != k.current
  {
    var x := k.mutexes[n];
    RestoreIs(k, x.origPrio);
    if x.waiters != [] {
      assert x.waiters[0] in x.waiters;
      HandOverIs(Set(k, k.current, k.threads[k.current].(prio := x.origPrio)), n, x.waiters[0]);
    }
  }

  lemma TakeOwner(k: Kernel, n: Mid, time: int, m: Mid)
    requires Inv(k) && Legal(k, DoTake(n, time)) && m in k.mutexes && k.mutexes[m].owner.By?
    ensures var r := TakeEnter(k, n, time).0; m in r.mutexes && r.mutexes[m].owner == k.mutexes[m].owner
  {
    TakeOutcome(k, n, time);
    assert MutexOk(k, k.mutexes[n]);
    if k.mutexes[n].owner == By(k.current) || k.mutexes[n].owner == Nobody {
      OwnCounts(k, n, time);
    } else if time == 0 {
      RefusedUnmoved(k, n);
    } else {
      BlockUnmoved(ResetError(k), n, time);
    }
  }
}
