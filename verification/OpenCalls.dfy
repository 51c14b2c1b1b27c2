/** rt_thread_resume opens the interrupts between its test, the unlinking and the insertion. What a
    second call on the same thread in between does, and what keeps it out. */
module OpenCalls {
  import opened KernelSpec
  import opened KernelTheorems
  import opened Sequences

  /** How many calls of rt_thread_resume on `t` are open. */
  function Pending(open: multiset<Gap>, t: Tid): nat { open[Unlinks(t)] + open[Inserts(t)] }

  /** Suspended for nothing in particular: only rt_thread_resume can make the thread ready. */
  ghost predicate Parked(k: Kernel, t: Tid) {
    t in k.threads && k.threads[t].stat == Suspended && !k.threads[t].timer && !WaitsSomewhere(k, t)
  }

  ghost predicate OpenOk(k: Kernel) {
    forall t :: Pending(k.open, t) > 0 ==> Parked(k, t) && Pending(k.open, t) == 1
  }

  /** Only parked threads are resumed from outside, and no thread by two at a time. */
  ghost predicate Careful(k: Kernel, s: Step)
    requires Sane(k) && Legal(k, s)
  {
    s.DoResumeTest? && k.threads[s.t].stat == Suspended ==> Parked(k, s.t) && Pending(k.open, s.t) == 0
  }

  // ----- a parked thread stays where it is

  lemma ParkedTurns(k: Kernel, t: Tid)
    requires Inv(k) && Parked(k, t)
    ensures Parked(Schedule(k), t)
  {
    ScheduleTurns(k);
    assert Turn(k.threads[t], Schedule(k).threads[t]);
  }

  /** Nobody joins a wait list, and `t` is as it was. */
  lemma ParkedFrame(k: Kernel, r: Kernel, t: Tid)
    requires Parked(k, t) && t in r.threads && r.threads[t].stat == Suspended && !r.threads[t].timer && r.mutexes.Keys == k.mutexes.Keys
    requires forall m :: m in k.mutexes && t in r.mutexes[m].waiters ==> t in k.mutexes[m].waiters
    ensures Parked(r, t)
  {
  }

  lemma ParkedDetach(k: Kernel, r: Kernel, t: Tid, u: Tid)
    requires MutexInv(k) && Parked(k, t) && r.mutexes == Detach(k, u).mutexes
    requires t in r.threads && r.threads[t].stat == Suspended && !r.threads[t].timer
    ensures Parked(r, t)
  {
    forall m | m in k.mutexes ensures t !in r.mutexes[m].waiters {
      assert MutexOk(k, k.mutexes[m]) && t !in k.mutexes[m].waiters;
      RemoveSpec(k.mutexes[m].waiters, u);
    }
  }

  lemma ParkedChange(k: Kernel, t: Tid, u: Tid, p: nat)
    requires Sane(k) && Parked(k, t) && u in k.threads && p < PRIORITIES
    ensures Parked(ChangePriority(k, u, p), t)
  {
    ParkedFrame(k, ChangePriority(k, u, p), t);
  }

  lemma ParkedBlock(k: Kernel, m: Mid, time: int, t: Tid)
    requires Inv(k) && AppRuns(k) && m in k.mutexes && Parked(k, t) && k.mutexes[m].owner != By(k.current)
    ensures Parked(Block(k, m, time), t)
  {
    var k1, x := Inherit(k, m), k.mutexes[m];
    InheritKeeps(k, m);
    ParkedBoost(k, m, t);
    NoWaiter(k, k.current);
    assert MutexOk(k, x);
    EnqueueSpec(Suspend(k1, k.current), x.waiters, k.current, k.threads[k.current].prio, x.flag);
    BlockOthers(k, m, time, t);
    ParkedFrame(k1, Block(k, m, time), t);
  }

  lemma ParkedBoost(k: Kernel, m: Mid, t: Tid)
    requires Sane(k) && m in k.mutexes && Parked(k, t)
    ensures Parked(Inherit(k, m), t)
  {
    var o := k.mutexes[m].owner;
    if o.By? && o.thread in k.threads { ParkedChange(k, t, o.thread, k.threads[k.current].prio); }
  }

  /** Of the mutexes only `m` changes, and of the threads none but the caller once the owner has its loan. */
  lemma BlockOthers(k: Kernel, m: Mid, time: int, t: Tid)
    requires Sane(k) && m in k.mutexes && t in k.threads && t != k.current
    ensures var k1, r := Inherit(k, m), Block(k, m, time); var x := k.mutexes[m];
      && r.threads[t] == k1.threads[t] && k1.mutexes == k.mutexes
      && r.mutexes == k.mutexes[m := x.(waiters := Enqueue(Suspend(k1, k.current), x.waiters, k.current, k.threads[k.current].prio, x.flag))]
  {
  }

  lemma ParkedTake(k: Kernel, m: Mid, time: int, t: Tid)
    requires Inv(k) && Legal(k, DoTake(m, time)) && Parked(k, t)
    ensures Parked(TakeEnter(k, m, time).0, t)
  {
    var k0 := ResetError(k);
    SetKeeps(k, k.current, k.threads[k.current].(error := EOK));
    ParkedFrame(k, k0, t);
    assert MutexOk(k, k.mutexes[m]);
    if k.mutexes[m].owner != By(k.current) && k.mutexes[m].value == 0 && time != 0 {
      ParkedBlock(k0, m, time, t);
    } else {
      ParkedFrame(k0, TryTake(k0, m, time).0, t);
    }
  }

  lemma ParkedHandOver(k: Kernel, m: Mid, t: Tid, u: Tid)
    requires Inv(k) && m in k.mutexes && u in k.mutexes[m].waiters && u in k.threads && Parked(k, t)
    ensures Parked(HandOver(k, m, u), t)
  {
    assert MutexOk(k, k.mutexes[m]);
    HandOverIs(k, m, u);
    ParkedDetach(k, Woken(k, u), t, u);
    RemoveSpec(k.mutexes[m].waiters, u);
    ParkedFrame(Woken(k, u), HandOver(k, m, u), t);
  }

  lemma ParkedRelease(k: Kernel, m: Mid, t: Tid)
    requires Inv(k) && Legal(k, DoRelease(m)) && Parked(k, t)
    ensures Parked(Release(k, m).0, t)
  {
    var x, r := k.mutexes[m], Release(k, m).0;
    assert MutexOk(k, x);
    if x.owner == By(k.current) && x.hold == 1 { ParkedGiveUp(k, m, t); } else { ParkedFrame(k, r, t); }
  }

  lemma ParkedGiveUp(k: Kernel, m: Mid, t: Tid)
    requires Inv(k) && m in k.mutexes && MutexOk(k, k.mutexes[m]) && k.mutexes[m].owner == By(k.current) && Parked(k, t)
    ensures Parked(GiveUp(k, m).0, t)
  {
    var x := k.mutexes[m];
    var k1 := Restored(k, x.origPrio);
    RestoredKeeps(k, x.origPrio);
    ParkedChange(k, t, k.current, x.origPrio);
    if x.waiters != [] {
      assert x.waiters[0] in x.waiters;
      ParkedHandOver(k1, m, t, x.waiters[0]);
    } else {
      ParkedFrame(k1, GiveUp(k, m).0, t);
    }
  }

  /** The steps that run the scheduler last. */
  lemma ParkedThrough(k: Kernel, s: Step, t: Tid)
    requires Inv(k) && Legal(k, s) && Parked(k, t) && (s.DoSchedule? || s.DoTick? || s.DoExitCritical? || s.DoExit? || s.DoTakeSchedule?)
    ensures Parked(Apply(k, s), t)
  {
    var c := k.threads[k.current];
    match s
    case DoSchedule => ParkedTurns(k, t);
    case DoTick =>
      var left := OneLess(c.remTick);
      var d := if left != 0 then c.(remTick := left) else c.(remTick := c.initTick, yielding := true);
      SetKeeps(k, k.current, d);
      ParkedFrame(k, Set(k, k.current, d), t);
      ParkedTurns(Set(k, k.current, d), t);
    case DoExitCritical =>
      LockKeeps(k, 0);
      ParkedFrame(k, k.(lock := 0), t);
      ParkedTurns(k.(lock := 0), t);
      ParkedFrame(k, k.(lock := k.lock - 1), t);
    case DoExit =>
      var d := c.(stat := Closed, yielding := false, timer := false);
      var k1 := Set(RemoveThread(k, k.current), k.current, d);
      RemoveInv(k, k.current, d);
      MutexFrame(k, k1);
      ParkedFrame(k, k1, t);
      ParkedTurns(k1, t);
    case DoTakeSchedule =>
      var d := c.(call := Taking(c.call.mutex, true));
      SetKeeps(k, k.current, d);
      ParkedFrame(k, Set(k, k.current, d), t);
      ParkedTurns(Set(k, k.current, d), t);
  }

  /** The steps that leave every wait list as it is. */
  predicate Slight(s: Step) {
    s.DoPrepare? || s.DoSleep? || s.DoInsert? || s.DoSuspendTest? || s.DoResumeTest? || s.DoEnterCritical? || s.DoTakeReturn?
  }

  lemma ParkedSlight(k: Kernel, s: Step, t: Tid)
    requires Inv(k) && Legal(k, s) && Parked(k, t) && s != DoInsert(t) && Slight(s)
    ensures Parked(Apply(k, s), t)
  {
    match s
    case DoPrepare(u) => ParkedFrame(k, Prepare(k, u), t);
    case DoSleep => ParkedFrame(k, Sleep(k), t);
    case DoInsert(u) => ParkedFrame(k, Finish(InsertThread(k, u), Inserts(u)), t);
    case DoSuspendTest(u) => ParkedFrame(k, SuspendTest(k, u), t);
    case DoResumeTest(u) => ParkedFrame(k, ResumeTest(k, u), t);
    case DoEnterCritical => ParkedFrame(k, EnterCritical(k), t);
    case DoTakeReturn => ParkedFrame(k, TakeReturn(k).0, t);
  }

  /** The steps that take a thread off its wait list. */
  lemma ParkedLeaves(k: Kernel, s: Step, t: Tid)
    requires Inv(k) && Legal(k, s) && Parked(k, t) && (s.DoTimeout? || s.DoSuspend? || s.DoUnlink?)
    ensures Parked(Apply(k, s), t)
  {
    match s
    case DoTimeout(u) => ParkedDetach(k, Timeout(k, u), t, u);
    case DoSuspend(u) =>
      ParkedDetach(k, Withdraw(k, u), t, u);
      ParkedFrame(Withdraw(k, u), Finish(Withdraw(k, u), Suspends(u, k.current)), t);
    case DoUnlink(u) =>
      ParkedDetach(k, Unlink(k, u), t, u);
      ParkedFrame(Unlink(k, u), GoOn(Unlink(k, u), Unlinks(u), Inserts(u)), t);
  }

  lemma StepParked(k: Kernel, s: Step, t: Tid)
    requires Inv(k) && Legal(k, s) && Parked(k, t) && s != DoInsert(t)
    ensures Parked(Apply(k, s), t)
  {
    if Slight(s) {
      ParkedSlight(k, s, t);
    } else if s.DoTimeout? || s.DoSuspend? || s.DoUnlink? {
      ParkedLeaves(k, s, t);
    } else if s.DoChangePriority? {
      ParkedChange(k, t, s.t, s.prio);
      ParkedFrame(ChangePriority(k, s.t, s.prio), Apply(k, s), t);
    } else if s.DoTake? {
      ParkedTake(k, s.m, s.time, t);
    } else if s.DoRelease? {
      ParkedRelease(k, s.m, t);
    } else {
      ParkedThrough(k, s, t);
    }
  }

  // ----- careful runs

  predicate Opens(s: Step) { s.DoSuspendTest? || s.DoSuspend? || s.DoResumeTest? || s.DoUnlink? || s.DoInsert? }

  lemma TakeOpen(k: Kernel, m: Mid, time: int)
    requires Sane(k) && m in k.mutexes
    ensures TakeEnter(k, m, time).0.open == k.open
  {
    assert Block(ResetError(k), m, time).open == k.open;
  }

  lemma ReleaseOpen(k: Kernel, m: Mid)
    requires Sane(k) && Legal(k, DoRelease(m))
    ensures Release(k, m).0.open == k.open
  {
  }

  lemma ScheduleOpen(k: Kernel)
    requires Sane(k)
    ensures Schedule(k).open == k.open
  {
  }

  /** All other steps leave the open calls alone. */
  lemma SameOpen(k: Kernel, s: Step)
    requires Sane(k) && Legal(k, s) && !Opens(s)
    ensures Apply(k, s).open == k.open
  {
    var c := k.threads[k.current];
    match s
    case DoTake(m, time) => TakeOpen(k, m, time);
    case DoRelease(m) => ReleaseOpen(k, m);
    case DoSchedule => ScheduleOpen(k);
    case DoTick => ScheduleOpen(Set(k, k.current, c.(remTick := c.initTick, yielding := true)));
    case DoExitCritical => ScheduleOpen(k.(lock := 0));
    case DoExit => ScheduleOpen(Set(RemoveThread(k, k.current), k.current, c.(stat := Closed, yielding := false, timer := false)));
    case DoTakeSchedule => ScheduleOpen(Set(k, k.current, c.(call := Taking(c.call.mutex, true))));
    case _ => QuietOpen(k, s);
  }

  lemma QuietOpen(k: Kernel, s: Step)
    requires Sane(k) && Legal(k, s)
    requires s.DoPrepare? || s.DoEnterCritical? || s.DoSleep? || s.DoTimeout? || s.DoChangePriority? || s.DoTakeReturn?
    ensures Apply(k, s).open == k.open
  {
    match s
    case DoSleep => assert Sleep(k).open == k.open;
    case DoTimeout(t) => assert Timeout(k, t).open == k.open;
    case DoChangePriority(t, p) => assert ChangePriority(k, t, p).open == k.open;
    case _ =>
  }

  /** What a step does to them. */
  lemma OpenCount(k: Kernel, s: Step, t: Tid)
    requires Sane(k) && Legal(k, s)
    ensures Pending(Apply(k, s).open, t) ==
      Pending(k.open, t) + (if s == DoResumeTest(t) && k.threads[t].stat == Suspended then 1 else if s == DoInsert(t) then -1 else 0)
  {
    if !Opens(s) {
      SameOpen(k, s);
    } else if s.DoSuspendTest? || s.DoSuspend? {
      SuspendOpen(k, s, t);
    } else {
      ResumeOpen(k, s, t);
    }
  }

  lemma Over(open: multiset<Gap>, g: Gap, t: Tid)
    requires g in open
    ensures Pending(open - multiset{g}, t) == Pending(open, t) - if g == Unlinks(t) || g == Inserts(t) then 1 else 0
  {
  }

  lemma Opened(open: multiset<Gap>, h: Gap, t: Tid)
    ensures Pending(open + multiset{h}, t) == Pending(open, t) + if h == Unlinks(t) || h == Inserts(t) then 1 else 0
  {
  }

  lemma SuspendOpen(k: Kernel, s: Step, t: Tid)
    requires Sane(k) && Legal(k, s) && (s.DoSuspendTest? || s.DoSuspend?)
    ensures Pending(Apply(k, s).open, t) == Pending(k.open, t)
  {
    match s
    case DoSuspendTest(u) => Opened(k.open, Suspends(u, k.current), t);
    case DoSuspend(u) =>
      assert Withdraw(k, u).open == k.open;
      Over(k.open, Suspends(u, k.current), t);
  }

  lemma ResumeOpen(k: Kernel, s: Step, t: Tid)
    requires Sane(k) && Legal(k, s) && (s.DoResumeTest? || s.DoUnlink? || s.DoInsert?)
    ensures Pending(Apply(k, s).open, t) ==
      Pending(k.open, t) + (if s == DoResumeTest(t) && k.threads[t].stat == Suspended then 1 else if s == DoInsert(t) then -1 else 0)
  {
    match s
    case DoResumeTest(u) => Opened(k.open, Unlinks(u), t);
    case DoUnlink(u) =>
      assert Unlink(k, u).open == k.open;
      Over(k.open, Unlinks(u), t);
      Opened(k.open - multiset{Unlinks(u)}, Inserts(u), t);
    case DoInsert(u) =>
      assert InsertThread(k, u).open == k.open;
      Over(k.open, Inserts(u), t);
  }

  lemma StepOpen(k: Kernel, s: Step)
    requires Inv(k) && OpenOk(k) && Legal(k, s) && Careful(k, s)
    ensures Undisturbed(k, s) && OpenOk(Apply(k, s))
  {
    assert s.DoUnlink? || s.DoInsert? ==> Pending(k.open, s.t) > 0;
    var r := Apply(k, s);
    forall t | Pending(r.open, t) > 0 ensures Parked(r, t) && Pending(r.open, t) == 1 {
      OpenCount(k, s, t);
      StepParked(k, s, t);
    }
  }

  ghost predicate CarefulRun(k: Kernel, steps: seq<Step>)
    requires Sane(k) && LegalRun(k, steps)
    decreases |steps|
  {
    steps == [] || (Careful(k, steps[0]) && CarefulRun(Apply(k, steps[0]), steps[1..]))
  }

  /** Care is enough: no call is ever disturbed. */
  lemma {:induction false} CarefulIsUndisturbed(k: Kernel, steps: seq<Step>)
    requires Inv(k) && OpenOk(k) && LegalRun(k, steps) && CarefulRun(k, steps)
    ensures UndisturbedRun(k, steps) && Inv(Run(k, steps))
    decreases |steps|
  {
    if steps != [] {
      StepOpen(k, steps[0]);
      StepKeeps(k, steps[0]);
      CarefulIsUndisturbed(Apply(k, steps[0]), steps[1..]);
    }
  }

  // ----- without care

  /** Two calls on a parked thread, both about to insert it: the second puts it into its list once more. */
  lemma InsertedTwice(k: Kernel, t: Tid)
    requires Inv(k) && t in k.threads && t != k.current && k.open[Inserts(t)] >= 2
    ensures Legal(k, DoInsert(t))
    ensures var r := Apply(k, DoInsert(t)); Inv(r) ==> Legal(r, DoInsert(t)) && !Inv(Apply(r, DoInsert(t)))
  {
    var r := Apply(k, DoInsert(t));
    if Inv(r) { StepKeepsExactly(r, DoInsert(t)); }
  }

  /** Two contexts that both tested a parked thread, and then both unlinked it, get there. */
  lemma TwoAboutToInsert(k: Kernel, t: Tid)
    requires Inv(k) && Parked(k, t)
    ensures var test, unlink := DoResumeTest(t), DoUnlink(t);
      && Legal(k, test)
      && var k1 := Apply(k, test);
        && Legal(k1, test)
        && var k2 := Apply(k1, test);
          && Legal(k2, unlink)
          && var k3 := Apply(k2, unlink);
            && Legal(k3, unlink)
            && var k4 := Apply(k3, unlink);
              Inv(k4) && t in k4.threads && k4.current == k.current && k4.open[Inserts(t)] >= 2
  {
    var k1 := ResumeTest(k, t);
    var k2 := ResumeTest(k1, t);
    var k3 := Apply(k2, DoUnlink(t));
    StepKeeps(k, DoResumeTest(t));
    StepKeeps(k1, DoResumeTest(t));
    StepParked(k, DoResumeTest(t), t);
    StepParked(k1, DoResumeTest(t), t);
    StepKeeps(k2, DoUnlink(t));
    StepParked(k2, DoUnlink(t), t);
    StepKeeps(k3, DoUnlink(t));
  }

  /** The tests let a call go on exactly for a thread that is suspended, or one that is ready or runs. */
  lemma TestsExactly(k: Kernel, t: Tid)
    requires Sane(k) && t in k.threads
    ensures ResumeTest(k, t) == k.(open := if k.threads[t].stat == Suspended then k.open + multiset{Unlinks(t)} else k.open)
    ensures SuspendTest(k, t) ==
              k.(open := if k.threads[t].stat in {Ready, Running} then k.open + multiset{Suspends(t, k.current)} else k.open)
  {
  }
}
