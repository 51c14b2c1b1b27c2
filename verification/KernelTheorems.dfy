/** The scheduler invariant over every run of the kernel. */
module KernelTheorems {
  import opened KernelSpec
  import opened Sequences

  // ----- queues

  lemma {:induction false} HighestSpec(group: set<nat>, from: nat)
    requires from <= PRIORITIES
    ensures from <= Highest(group, from) <= PRIORITIES
    ensures Highest(group, from) < PRIORITIES ==> Highest(group, from) in group
    ensures forall p :: from <= p < Highest(group, from) ==> p !in group
    decreases PRIORITIES - from
  {
    if from < PRIORITIES && from !in group { HighestSpec(group, from + 1); }
  }

  lemma {:induction false} HighestIs(g: set<nat>, from: nat, p: nat)
    requires from <= p < PRIORITIES && p in g && forall q :: from <= q < p ==> q !in g
    ensures Highest(g, from) == p
    decreases p - from
  {
    if from < p { HighestIs(g, from + 1, p); }
  }

  // ----- the invariant

  /** The list of priority `p` holds exactly the ready threads of that priority, once each,
      and its group bit is set exactly when there are any. */
  ghost predicate Lane(k: Kernel, p: nat)
    requires p < |k.ready|
  {
    && (forall t :: t in k.ready[p] <==> t in k.threads && k.threads[t].stat == Ready && k.threads[t].prio == p)
    && Distinct(k.ready[p])
    && (p in k.group <==> k.ready[p] != [])
  }

  ghost predicate Queues(k: Kernel) {
    Sane(k) && (forall p: nat :: p < PRIORITIES ==> Lane(k, p)) && (forall p :: p in k.group ==> p < PRIORITIES)
  }

  /** Only the current thread runs, and it is in no list. */
  ghost predicate OneRuns(k: Kernel) {
    && Sane(k)
    && (forall t :: t in k.threads && k.threads[t].stat == Running ==> t == k.current)
    && k.threads[k.current].stat != Ready
  }

  ghost predicate SchedInv(k: Kernel) { Queues(k) && OneRuns(k) }

  /** Another entry for a thread that is on no list before and after, or on the same one. */
  lemma SetInv(k: Kernel, t: Tid, c: Tcb)
    requires Queues(k) && t in k.threads && c.prio < PRIORITIES && (c.stat == Ready <==> k.threads[t].stat == Ready)
    requires c.stat == Ready ==> c.prio == k.threads[t].prio
    ensures Queues(Set(k, t, c))
  {
    forall p: nat | p < PRIORITIES ensures Lane(Set(k, t, c), p) { assert Lane(k, p); }
  }

  lemma RemoveInv(k: Kernel, t: Tid, c: Tcb)
    requires Queues(k) && t in k.threads && c.stat != Ready && c.prio < PRIORITIES
    ensures Queues(Set(RemoveThread(k, t), t, c))
    ensures k.threads[t].stat != Ready ==> RemoveThread(k, t) == k
  {
    var p := k.threads[t].prio;
    assert Lane(k, p);
    RemoveSpec(k.ready[p], t);
    forall q: nat | q < PRIORITIES ensures Lane(Set(RemoveThread(k, t), t, c), q) { assert Lane(k, q); }
    if k.threads[t].stat != Ready {
      RemoveAbsent(k.ready[p], t);
      assert k.ready[p := k.ready[p]] == k.ready;
    }
  }

  lemma InsertInv(k: Kernel, t: Tid)
    requires Queues(k) && t in k.threads && k.threads[t].stat != Ready
    ensures Queues(InsertThread(k, t))
  {
    forall q: nat | q < PRIORITIES ensures Lane(InsertThread(k, t), q) { assert Lane(k, q); }
  }

  lemma SwitchInv(k: Kernel, to: Tid)
    requires SchedInv(k) && to in k.threads && k.threads[to].stat == Ready
    ensures SchedInv(SwitchTo(k, to))
  {
    var c := k.threads[k.current];
    var k1 := k.(current := to);
    CurrentFree(k, to);
    if c.stat == Running {
      var k2 := Set(k1, k.current, c.(yielding := false));
      SetInv(k1, k.current, c.(yielding := false));
      InsertInv(k2, k.current);
      var k3 := InsertThread(k2, k.current);
      RemoveInv(k3, to, k3.threads[to].(stat := Running));
    } else {
      RemoveInv(k1, to, k1.threads[to].(stat := Running));
    }
  }

  lemma CurrentFree(k: Kernel, to: Tid)
    requires Queues(k) && to in k.threads
    ensures Queues(k.(current := to))
  {
    forall p: nat | p < PRIORITIES ensures Lane(k.(current := to), p) { assert Lane(k, p); }
  }

  lemma ScheduleInv(k: Kernel)
    requires SchedInv(k)
    ensures SchedInv(Schedule(k))
  {
    HighestSpec(k.group, 0);
    var p := Highest(k.group, 0);
    if k.lock == 0 && p < PRIORITIES {
      assert Lane(k, p) && k.ready[p][0] in k.ready[p];
      if Stays(k.threads[k.current], p) {
        RemoveInv(k, k.current, k.threads[k.current]);
      } else {
        SwitchInv(k, k.ready[p][0]);
      }
    }
  }

  /** After an unlocked rt_schedule no ready thread is more urgent than the current one, and
      the current one runs unless nothing is ready. */
  lemma ScheduleRunsMostUrgent(k: Kernel)
    requires SchedInv(k) && k.lock == 0
    ensures var r := Schedule(k);
      && (forall t :: t in r.threads && r.threads[t].stat == Ready ==> r.threads[r.current].prio <= r.threads[t].prio)
      && (r.threads[r.current].stat == Running || (r == k && k.group == {}))
  {
    ScheduleInv(k);
    HighestSpec(k.group, 0);
    var p := Highest(k.group, 0);
    var r := Schedule(k);
    if p < PRIORITIES {
      assert Lane(k, p) && k.ready[p][0] in k.ready[p];
      forall t | t in r.threads && r.threads[t].stat == Ready ensures r.threads[r.current].prio <= r.threads[t].prio {
        if k.threads[t].stat == Ready { assert Lane(k, k.threads[t].prio) && k.threads[t].prio in k.group; }
      }
      if Stays(k.threads[k.current], p) { RemoveInv(k, k.current, k.threads[k.current]); }
    } else {
      forall t | t in k.threads ensures k.threads[t].stat != Ready { assert Lane(k, k.threads[t].prio); }
    }
  }

  /** The current thread has to make way for `t`. */
  predicate Outranked(k: Kernel, t: Tid)
    requires k.current in k.threads && t in k.threads
  {
    var c := k.threads[k.current];
    k.threads[t].stat == Ready
    && (c.stat != Running || k.threads[t].prio < c.prio || (k.threads[t].prio == c.prio && c.yielding))
  }

  /** rt_schedule leaves the current thread exactly if it is unlocked and some ready thread is more urgent, or as urgent
      when the current one yields; it goes on with the first thread of a list. */
  lemma ScheduleExactly(k: Kernel)
    requires SchedInv(k)
    ensures var r := Schedule(k);
      && (r.current != k.current <==> k.lock == 0 && exists t :: t in k.threads && Outranked(k, t))
      && (r.current != k.current ==>
            k.threads[r.current].stat == Ready && var q := k.ready[k.threads[r.current].prio]; q != [] && q[0] == r.current)
  {
    HighestSpec(k.group, 0);
    var p := Highest(k.group, 0);
    forall t | t in k.threads && k.threads[t].stat == Ready ensures p <= k.threads[t].prio && p < PRIORITIES {
      assert Lane(k, k.threads[t].prio) && k.threads[t].prio in k.group;
    }
    if p < PRIORITIES {
      assert Lane(k, p) && k.ready[p][0] in k.ready[p];
      assert !Stays(k.threads[k.current], p) ==> Outranked(k, k.ready[p][0]);
    }
  }

  /** A running thread that is left goes to the end of its list, and what it yielded is forgotten. */
  lemma SwitchGoes(k: Kernel)
    requires SchedInv(k) && Schedule(k).current != k.current
    ensures var r, c := Schedule(k), k.threads[k.current];
      && r.threads[k.current] == (if c.stat == Running then c.(stat := Ready, yielding := false) else c)
      && forall p: nat :: p < PRIORITIES ==>
           r.ready[p] == Remove(if c.stat == Running && p == c.prio then k.ready[p] + [k.current] else k.ready[p], r.current)
  {
    HighestSpec(k.group, 0);
    var p := Highest(k.group, 0);
    assert Lane(k, p) && k.ready[p][0] in k.ready[p];
    var to, r := k.ready[p][0], Schedule(k);
    forall q: nat | q < PRIORITIES && q != p ensures to !in k.ready[q] + [k.current] { assert Lane(k, q); }
    forall q: nat | q < PRIORITIES && q != p
      ensures Remove(k.ready[q], to) == k.ready[q] && Remove(k.ready[q] + [k.current], to) == k.ready[q] + [k.current]
    {
      RemoveAbsent(k.ready[q], to);
      RemoveAbsent(k.ready[q] + [k.current], to);
    }
  }

  // ----- mutexes

  /** Exactly one of: free, or owned and held; only an owned mutex has waiters, all suspended. */
  ghost predicate MutexOk(k: Kernel, x: Mutex) {
    && x.value <= 1 && (x.value == 1 <==> x.owner == Nobody) && (x.owner == Nobody <==> x.hold == 0) && x.hold <= 255
    && (x.owner == Nobody ==> x.waiters == [])
    && (x.owner.By? ==> x.owner.thread in k.threads && x.origPrio < PRIORITIES && x.owner.thread !in x.waiters)
    && Distinct(x.waiters)
    && forall t :: t in x.waiters ==> t in k.threads && k.threads[t].stat == Suspended
  }

  ghost predicate OneList(k: Kernel) {
    forall m, n, t :: m in k.mutexes && n in k.mutexes && t in k.mutexes[m].waiters && t in k.mutexes[n].waiters ==> m == n
  }

  ghost predicate MutexInv(k: Kernel) {
    (forall m :: m in k.mutexes ==> MutexOk(k, k.mutexes[m])) && OneList(k)
  }

  ghost predicate Inv(k: Kernel) { SchedInv(k) && MutexInv(k) }

  /** Mutexes do not notice threads that go on waiting. */
  ghost predicate StillWait(k: Kernel, r: Kernel, but: set<Tid>) {
    forall t :: t in k.threads ==> t in r.threads && (k.threads[t].stat == Suspended && t !in but ==> r.threads[t].stat == Suspended)
  }

  lemma MutexFrame(k: Kernel, r: Kernel)
    requires MutexInv(k) && r.mutexes == k.mutexes && StillWait(k, r, {})
    ensures MutexInv(r)
  {
    forall m | m in k.mutexes ensures MutexOk(r, r.mutexes[m]) { assert MutexOk(k, k.mutexes[m]); }
  }

  lemma DetachFrame(k: Kernel, r: Kernel, t: Tid)
    requires MutexInv(k) && r.mutexes == Detach(k, t).mutexes && StillWait(k, r, {t})
    ensures MutexInv(r)
    ensures forall m :: m in r.mutexes ==> forall x :: x in r.mutexes[m].waiters <==> x in k.mutexes[m].waiters && x != t
  {
    forall m | m in k.mutexes
      ensures MutexOk(r, r.mutexes[m]) && forall x :: x in r.mutexes[m].waiters <==> x in k.mutexes[m].waiters && x != t
    {
      assert MutexOk(k, k.mutexes[m]);
      RemoveSpec(k.mutexes[m].waiters, t);
    }
  }

  // ----- every step

  predicate Turn(c: Tcb, d: Tcb) {
    && d == c.(stat := d.stat, yielding := d.yielding)
    && (c.stat == d.stat || (c.stat in {Ready, Running} && d.stat in {Ready, Running}))
  }

  /** Scheduling turns ready threads into running ones and back, and does nothing else to a thread. */
  ghost predicate OnlyTurns(k: Kernel, r: Kernel) {
    r.mutexes == k.mutexes && r.lock == k.lock && forall t :: t in k.threads ==> t in r.threads && Turn(k.threads[t], r.threads[t])
  }

  lemma ScheduleTurns(k: Kernel)
    requires SchedInv(k)
    ensures OnlyTurns(k, Schedule(k))
  {
    HighestSpec(k.group, 0);
    var p := Highest(k.group, 0);
    if k.lock == 0 && p < PRIORITIES {
      assert Lane(k, p) && k.ready[p][0] in k.ready[p];
      if !Stays(k.threads[k.current], p) { SwitchTurns(k, k.ready[p][0]); }
    }
  }

  lemma SwitchTurns(k: Kernel, to: Tid)
    requires Sane(k) && to in k.threads && k.threads[to].stat == Ready && k.threads[k.current].stat != Ready
    ensures OnlyTurns(k, SwitchTo(k, to))
  {
  }

  lemma ScheduleKeeps(k: Kernel)
    requires Inv(k)
    ensures Inv(Schedule(k)) && OnlyTurns(k, Schedule(k))
  {
    ScheduleInv(k);
    ScheduleTurns(k);
    MutexFrame(k, Schedule(k));
  }

  lemma SetKeeps(k: Kernel, t: Tid, c: Tcb)
    requires Inv(k) && t in k.threads && c.prio < PRIORITIES && c.stat == k.threads[t].stat && (c.stat == Ready ==> c.prio == k.threads[t].prio)
    ensures Inv(Set(k, t, c))
  {
    SetInv(k, t, c);
    MutexFrame(k, Set(k, t, c));
  }

  lemma SuspendKeeps(k: Kernel, t: Tid)
    requires Inv(k) && t in k.threads
    ensures Inv(Suspend(k, t))
    ensures Suspend(k, t).mutexes == k.mutexes
  {
    if k.threads[t].stat == Ready || k.threads[t].stat == Running {
      RemoveInv(k, t, k.threads[t].(stat := Suspended, timer := false));
      MutexFrame(k, Suspend(k, t));
    }
  }

  /** A suspended thread leaves its wait list for the ready queue. */
  lemma WakeKeeps(k: Kernel, t: Tid, c: Tcb)
    requires Inv(k) && t in k.threads && k.threads[t].stat == Suspended && c.stat == Suspended && c.prio < PRIORITIES
    ensures Inv(InsertThread(Set(Detach(k, t), t, c), t))
  {
    var k1 := Set(Detach(k, t), t, c);
    SetInv(k, t, c);
    assert Queues(k1) by {
      forall p: nat | p < PRIORITIES ensures Lane(k1, p) { assert Lane(Set(k, t, c), p); }
    }
    InsertInv(k1, t);
    DetachFrame(k, InsertThread(k1, t), t);
  }

  /** It goes to the end of the list of its priority, unless it is the current thread, and waits nowhere. */
  lemma WakeGoes(k: Kernel, t: Tid, c: Tcb)
    requires Inv(k) && t in k.threads && k.threads[t].stat == Suspended && c.stat == Suspended && c.prio < PRIORITIES
    ensures var r := InsertThread(Set(Detach(k, t), t, c), t);
      && r.threads[t] == c.(stat := if t == k.current then Running else Ready)
      && (forall p: nat :: p < PRIORITIES ==> r.ready[p] == if p == c.prio && t != k.current then k.ready[p] + [t] else k.ready[p])
      && (forall p: nat :: p < PRIORITIES ==> t !in k.ready[p])
      && forall m :: m in r.mutexes ==> t !in r.mutexes[m].waiters
  {
    forall p: nat | p < PRIORITIES ensures t !in k.ready[p] { assert Lane(k, p); }
    DetachFrame(k, InsertThread(Set(Detach(k, t), t, c), t), t);
  }

  lemma PrepareKeeps(k: Kernel, t: Tid)
    requires Inv(k) && t in k.threads && k.threads[t].stat == Init && k.threads[t].initPrio < PRIORITIES
    ensures Inv(Prepare(k, t))
  {
    var c := k.threads[t];
    SetInv(k, t, c.(prio := c.initPrio, base := c.initPrio, stat := Suspended));
    MutexFrame(k, Prepare(k, t));
  }

  lemma StartupKeeps(k: Kernel, t: Tid)
    requires Inv(k) && t in k.threads && k.threads[t].stat == Init && k.threads[t].initPrio < PRIORITIES
    ensures Inv(Startup(k, t))
  {
    PrepareKeeps(k, t);
    WakeKeeps(Prepare(k, t), t, Prepare(k, t).threads[t].(timer := false));
  }

  /** A new thread is last in the list of the priority it was created with. */
  lemma StartupGoes(k: Kernel, t: Tid)
    requires Inv(k) && t in k.threads && k.threads[t].stat == Init && k.threads[t].initPrio < PRIORITIES && t != k.current
    ensures var r, p := Startup(k, t), k.threads[t].initPrio;
      && r.threads[t].stat == Ready && r.threads[t].prio == p && r.threads[t].base == p
      && r.ready[p] == k.ready[p] + [t] && forall q: nat :: q < PRIORITIES && q != p ==> r.ready[q] == k.ready[q]
  {
    PrepareKeeps(k, t);
    WakeGoes(Prepare(k, t), t, Prepare(k, t).threads[t].(timer := false));
  }

  /** A thread whose time is over finds out why, waits nowhere, and is last in the list of its priority. */
  lemma TimeoutGoes(k: Kernel, t: Tid)
    requires Inv(k) && t in k.threads && k.threads[t].stat == Suspended && t != k.current
    ensures var r := Timeout(k, t);
      && r.threads[t].error == ETIMEOUT && !r.threads[t].timer && r.threads[t].stat == Ready
      && r.ready[k.threads[t].prio] == k.ready[k.threads[t].prio] + [t] && forall m :: m in r.mutexes ==> t !in r.mutexes[m].waiters
  {
    WakeGoes(k, t, k.threads[t].(error := ETIMEOUT, timer := false));
  }

  /** A tick takes one off the slice; from none at all the count goes round to the largest. */
  lemma TickCounts(k: Kernel)
    requires Sane(k) && k.threads[k.current].remTick != 1 && k.threads[k.current].remTick <= 0xFFFF_FFFF
    ensures var r, left := Tick(k), k.threads[k.current].remTick;
            r == Set(k, k.current, r.threads[k.current]) && r.threads[k.current].remTick == if left == 0 then 0xFFFF_FFFF else left - 1
  {
  }

  /** A thread that is over is closed and in no list. */
  lemma ExitGoes(k: Kernel)
    requires Inv(k) && k.threads[k.current].stat == Running
    ensures var r := Exit(k);
      r.threads[k.current].stat == Closed && !r.threads[k.current].timer && forall p: nat :: p < PRIORITIES ==> k.current !in r.ready[p]
  {
    var d := k.threads[k.current].(stat := Closed, yielding := false, timer := false);
    var k1 := Set(RemoveThread(k, k.current), k.current, d);
    RemoveInv(k, k.current, d);
    MutexFrame(k, k1);
    ScheduleKeeps(k1);
    assert Turn(k1.threads[k.current], Exit(k).threads[k.current]);
    forall p: nat | p < PRIORITIES ensures k.current !in Exit(k).ready[p] { assert Lane(Exit(k), p); }
  }

  /** A thread that sleeps is suspended, in no list, and its timer runs: it is for a timeout to wake it. */
  lemma SleepGoes(k: Kernel)
    requires Inv(k) && k.threads[k.current].stat == Running
    ensures var r := Sleep(k);
      && r.threads[k.current] == k.threads[k.current].(stat := Suspended, timer := true)
      && (forall p: nat :: p < PRIORITIES ==> k.current !in r.ready[p])
      && (forall m :: m in r.mutexes ==> k.current !in r.mutexes[m].waiters)
      && Legal(r, DoTimeout(k.current))
  {
    forall p: nat | p < PRIORITIES ensures k.current !in k.ready[p] && Remove(k.ready[p], k.current) == k.ready[p] {
      assert Lane(k, p);
      RemoveAbsent(k.ready[p], k.current);
    }
    forall m | m in k.mutexes ensures k.current !in k.mutexes[m].waiters { assert MutexOk(k, k.mutexes[m]); }
  }

  /** One that another suspends waits for nothing, and has no timer. */
  lemma SuspendGoes(k: Kernel, t: Tid)
    requires Inv(k) && t in k.threads
    ensures var r := Withdraw(k, t);
      && r.threads[t] == k.threads[t].(stat := Suspended, timer := false)
      && (forall p: nat :: p < PRIORITIES ==> t !in r.ready[p]) && (forall m :: m in r.mutexes ==> t !in r.mutexes[m].waiters)
  {
    WithdrawKeeps(k, t);
    forall p: nat | p < PRIORITIES ensures t !in Withdraw(k, t).ready[p] { assert Lane(Withdraw(k, t), p); }
    forall m | m in k.mutexes ensures t !in Remove(k.mutexes[m].waiters, t) {
      assert MutexOk(k, k.mutexes[m]);
      RemoveSpec(k.mutexes[m].waiters, t);
    }
  }

  /** With interrupts disabled throughout, test and region are one: a thread that is ready or runs is suspended, and any
      other is left alone. */
  lemma SuspendIs(k: Kernel, t: Tid)
    requires Inv(k) && t in k.threads
    ensures Suspend(k, t) == if k.threads[t].stat in {Ready, Running} then Withdraw(k, t) else k
  {
    if k.threads[t].stat in {Ready, Running} {
      forall m | m in k.mutexes ensures k.mutexes[m].(waiters := Remove(k.mutexes[m].waiters, t)) == k.mutexes[m] {
        assert MutexOk(k, k.mutexes[m]);
        RemoveAbsent(k.mutexes[m].waiters, t);
      }
      assert Detach(k, t).mutexes == k.mutexes;
      assert Detach(k, t) == k;
    }
  }

  /** Locks of the scheduler nest: only the outermost unlock schedules. */
  lemma EnterExit(k: Kernel)
    requires Sane(k) && k.lock >= 0
    ensures EnterCritical(k).lock > 0 && Schedule(EnterCritical(k)) == EnterCritical(k)
    ensures ExitCritical(EnterCritical(k)) == if k.lock == 0 then Schedule(k) else k
  {
    assert EnterCritical(k).(lock := 0) == k.(lock := 0);
    assert k.(lock := k.lock) == k;
  }

  // ----- the regions of rt_thread_resume and rt_thread_suspend

  ghost predicate WaitsSomewhere(k: Kernel, t: Tid) { exists m :: m in k.mutexes && t in k.mutexes[m].waiters }

  /** The open calls are no part of the invariant. */
  lemma OpenKeeps(k: Kernel, open: multiset<Gap>)
    ensures Inv(k.(open := open)) <==> Inv(k)
  {
    var r := k.(open := open);
    assert Sane(r) <==> Sane(k);
    if Inv(k) { OpenFrame(k, open); }
    if Inv(r) {
      OpenFrame(r, k.open);
      assert r.(open := k.open) == k;
    }
  }

  lemma OpenFrame(k: Kernel, open: multiset<Gap>)
    requires Inv(k)
    ensures Inv(k.(open := open))
  {
    forall p: nat | p < PRIORITIES ensures Lane(k.(open := open), p) { assert Lane(k, p); }
    MutexFrame(k, k.(open := open));
  }

  lemma DetachQueues(k: Kernel, t: Tid)
    requires SchedInv(k)
    ensures SchedInv(Detach(k, t))
  {
    forall p: nat | p < PRIORITIES ensures Lane(Detach(k, t), p) { assert Lane(k, p); }
  }

  /** Whatever became of the thread since the test, rt_thread_suspend leaves it suspended and in no list. */
  lemma WithdrawKeeps(k: Kernel, t: Tid)
    requires Inv(k) && t in k.threads
    ensures Inv(Withdraw(k, t))
  {
    DetachQueues(k, t);
    RemoveInv(Detach(k, t), t, k.threads[t].(stat := Suspended, timer := false));
    DetachFrame(k, Withdraw(k, t), t);
  }

  lemma UnlinkKeeps(k: Kernel, t: Tid)
    requires Inv(k) && t in k.threads && k.threads[t].stat != Ready
    ensures Unlink(k, t) == Set(Detach(k, t), t, k.threads[t].(timer := false))
    ensures Inv(Unlink(k, t))
  {
    var c := k.threads[t];
    assert Lane(k, c.prio);
    RemoveAbsent(k.ready[c.prio], t);
    assert k.ready[c.prio := k.ready[c.prio]] == k.ready;
    DetachQueues(k, t);
    SetInv(Detach(k, t), t, c.(timer := false));
    DetachFrame(k, Unlink(k, t), t);
  }

  /** A ready thread is lost from its list. */
  lemma UnlinkBreaks(k: Kernel, t: Tid)
    requires Inv(k) && t in k.threads && k.threads[t].stat == Ready
    ensures !Inv(Unlink(k, t))
  {
    var r, p := Unlink(k, t), k.threads[t].prio;
    assert Lane(k, p);
    RemoveSpec(k.ready[p], t);
    assert !Lane(r, p);
  }

  lemma InsertKeeps(k: Kernel, t: Tid)
    requires Inv(k) && t in k.threads && k.threads[t].stat != Ready && !WaitsSomewhere(k, t)
    ensures Inv(InsertThread(k, t))
  {
    var r := InsertThread(k, t);
    InsertInv(k, t);
    forall m | m in k.mutexes ensures MutexOk(r, r.mutexes[m]) { assert MutexOk(k, k.mutexes[m]); }
  }

  /** A ready thread comes into its list twice, and a waiter is ready while it waits. */
  lemma InsertBreaks(k: Kernel, t: Tid)
    requires Inv(k) && t in k.threads && (k.threads[t].stat == Ready || WaitsSomewhere(k, t))
    ensures !Inv(InsertThread(k, t))
  {
    var r, p := InsertThread(k, t), k.threads[t].prio;
    if k.threads[t].stat == Ready {
      assert Lane(k, p);
      var i :| 0 <= i < |k.ready[p]| && k.ready[p][i] == t;
      assert r.ready[p][i] == t && r.ready[p][|k.ready[p]|] == t;
      assert !Lane(r, p);
    } else {
      var m :| m in k.mutexes && t in k.mutexes[m].waiters;
      assert !MutexOk(r, r.mutexes[m]);
    }
  }

  /** Nobody made the thread ready, and it joined no wait list, since the last region of the call on it. */
  ghost predicate Undisturbed(k: Kernel, s: Step)
    requires Sane(k) && Legal(k, s)
  {
    match s
    case DoUnlink(t) => k.threads[t].stat != Ready
    case DoInsert(t) => k.threads[t].stat != Ready && !WaitsSomewhere(k, t)
    case _ => true
  }

  lemma RegionsExactly(k: Kernel, s: Step)
    requires Inv(k) && Legal(k, s) && (s.DoUnlink? || s.DoInsert?)
    ensures Inv(Apply(k, s)) <==> Undisturbed(k, s)
  {
    if s.DoUnlink? {
      OpenKeeps(Unlink(k, s.t), Apply(k, s).open);
      if Undisturbed(k, s) { UnlinkKeeps(k, s.t); } else { UnlinkBreaks(k, s.t); }
    } else {
      OpenKeeps(InsertThread(k, s.t), Apply(k, s).open);
      if Undisturbed(k, s) { InsertKeeps(k, s.t); } else { InsertBreaks(k, s.t); }
    }
  }

  lemma ChangePriorityKeeps(k: Kernel, t: Tid, p: nat)
    requires Inv(k) && t in k.threads && p < PRIORITIES
    ensures Inv(ChangePriority(k, t, p))
  {
    var c := k.threads[t];
    if c.stat == Ready {
      var d := c.(prio := p, stat := Suspended);
      var k1 := Set(RemoveThread(k, t), t, d);
      RemoveInv(k, t, d);
      InsertInv(k1, t);
      assert InsertThread(k1, t) == ChangePriority(k, t, p);
      MutexFrame(k, ChangePriority(k, t, p));
    } else {
      SetKeeps(k, t, c.(prio := p));
    }
  }

  /** A ready thread moves to the end of the list of its new priority; any other thread is in no list. */
  lemma ChangePriorityGoes(k: Kernel, t: Tid, p: nat)
    requires Inv(k) && t in k.threads && p < PRIORITIES
    ensures var r := ChangePriority(k, t, p);
      && r.threads[t] == k.threads[t].(prio := p)
      && (k.threads[t].stat == Ready ==>
            forall q: nat :: q < PRIORITIES ==> r.ready[q] == Remove(k.ready[q], t) + (if q == p then [t] else []))
      && (k.threads[t].stat != Ready ==> r.ready == k.ready && forall q: nat :: q < PRIORITIES ==> t !in r.ready[q])
  {
    forall q: nat | q < PRIORITIES ensures t in k.ready[q] <==> k.threads[t].stat == Ready && q == k.threads[t].prio { assert Lane(k, q); }
    forall q: nat | q < PRIORITIES && q != k.threads[t].prio ensures Remove(k.ready[q], t) == k.ready[q] { RemoveAbsent(k.ready[q], t); }
  }

  lemma ExitKeeps(k: Kernel)
    requires Inv(k) && k.threads[k.current].stat == Running
    ensures Inv(Exit(k))
  {
    var d := k.threads[k.current].(stat := Closed, yielding := false, timer := false);
    var k1 := Set(RemoveThread(k, k.current), k.current, d);
    RemoveInv(k, k.current, d);
    MutexFrame(k, k1);
    ScheduleKeeps(k1);
  }

  lemma TickKeeps(k: Kernel)
    requires Inv(k)
    ensures Inv(Tick(k))
  {
    var c := k.threads[k.current];
    var left := OneLess(c.remTick);
    if left != 0 {
      SetKeeps(k, k.current, c.(remTick := left));
    } else {
      var d := c.(remTick := c.initTick, yielding := true);
      SetKeeps(k, k.current, d);
      ScheduleKeeps(Set(k, k.current, d));
    }
  }

  lemma {:induction false} EnqueueSpec(k: Kernel, q: seq<Tid>, t: Tid, p: nat, flag: Flag)
    requires Distinct(q) && t !in q
    ensures Distinct(Enqueue(k, q, t, p, flag)) && forall x :: x in Enqueue(k, q, t, p, flag) <==> x in q || x == t
    decreases |q|
  {
    if q != [] {
      assert q == [q[0]] + q[1..];
      EnqueueSpec(k, q[1..], t, p, flag);
      assert q[0] !in q[1..];
    }
  }

  lemma SetMutexKeeps(k: Kernel, m: Mid, x: Mutex)
    requires Inv(k) && m in k.mutexes && MutexOk(k, x)
    requires forall t :: t in x.waiters ==> t in k.mutexes[m].waiters || forall n :: n in k.mutexes ==> t !in k.mutexes[n].waiters
    ensures Inv(SetMutex(k, m, x))
  {
    var r := SetMutex(k, m, x);
    forall p: nat | p < PRIORITIES ensures Lane(r, p) { assert Lane(k, p); }
    forall n | n in r.mutexes ensures MutexOk(r, r.mutexes[n]) { assert n == m || MutexOk(k, k.mutexes[n]); }
  }

  lemma AcquireKeeps(k: Kernel, m: Mid)
    requires Inv(k) && m in k.mutexes && k.mutexes[m].value > 0
    ensures Inv(Acquire(k, m))
  {
    assert MutexOk(k, k.mutexes[m]);
    SetMutexKeeps(k, m, Acquire(k, m).mutexes[m]);
  }

  lemma NoWaiter(k: Kernel, t: Tid)
    requires MutexInv(k) && t in k.threads && k.threads[t].stat != Suspended
    ensures forall n :: n in k.mutexes ==> t !in k.mutexes[n].waiters
  {
    forall n | n in k.mutexes ensures t !in k.mutexes[n].waiters { assert MutexOk(k, k.mutexes[n]); }
  }

  lemma InheritKeeps(k: Kernel, m: Mid)
    requires Inv(k) && m in k.mutexes
    ensures Inv(Inherit(k, m)) && Inherit(k, m).mutexes == k.mutexes
    ensures k.mutexes[m].owner != By(k.current) ==> Inherit(k, m).threads[k.current] == k.threads[k.current]
  {
    var o := k.mutexes[m].owner;
    InheritElsewhere(k, m);
    if o.By? && o.thread in k.threads { ChangePriorityKeeps(k, o.thread, k.threads[k.current].prio); }
  }

  lemma InheritElsewhere(k: Kernel, m: Mid)
    requires Sane(k) && m in k.mutexes
    ensures Inherit(k, m).mutexes == k.mutexes
    ensures k.mutexes[m].owner != By(k.current) ==> Inherit(k, m).threads[k.current] == k.threads[k.current]
  {
  }

  lemma BlockKeeps(k: Kernel, m: Mid, time: int)
    requires Inv(k) && m in k.mutexes && k.threads[k.current].stat == Running
    requires k.mutexes[m].value == 0 && k.mutexes[m].owner != By(k.current)
    ensures Inv(Block(k, m, time))
  {
    var t, x := k.current, k.mutexes[m];
    InheritKeeps(k, m);
    NoWaiter(k, t);
    var k1 := Suspend(Inherit(k, m), t);
    SuspendKeeps(Inherit(k, m), t);
    var c := k1.threads[t].(timer := time > 0, call := Taking(m, false));
    SetKeeps(k1, t, c);
    var k2 := Set(k1, t, c);
    assert MutexOk(k2, x);
    EnqueueSpec(k1, x.waiters, t, k.threads[t].prio, x.flag);
    SetMutexKeeps(k2, m, x.(waiters := Enqueue(k1, x.waiters, t, k.threads[t].prio, x.flag)));
  }

  lemma TakeKeeps(k: Kernel, m: Mid, time: int)
    requires Inv(k) && Legal(k, DoTake(m, time))
    ensures Inv(TakeEnter(k, m, time).0)
  {
    SetKeeps(k, k.current, k.threads[k.current].(error := EOK));
    TryKeeps(ResetError(k), m, time);
  }

  lemma TryKeeps(k: Kernel, m: Mid, time: int)
    requires Inv(k) && k.threads[k.current].stat == Running && m in k.mutexes && k.mutexes[m].hold < 255
    ensures Inv(TryTake(k, m, time).0)
  {
    var x := k.mutexes[m];
    assert MutexOk(k, x);
    if x.owner == By(k.current) {
      SetMutexKeeps(k, m, x.(hold := x.hold + 1));
    } else if x.value > 0 {
      AcquireKeeps(k, m);
    } else if time == 0 {
      SetKeeps(k, k.current, k.threads[k.current].(error := ETIMEOUT));
    } else {
      BlockKeeps(k, m, time);
    }
  }

  /** The thread taken off its wait list and made ready. */
  function Woken(k: Kernel, t: Tid): Kernel
    requires Sane(k) && t in k.threads
  {
    InsertThread(Set(Detach(k, t), t, k.threads[t].(timer := false)), t)
  }

  /** Handing over and leaving the list may be seen in either order. */
  lemma HandOverIs(k: Kernel, m: Mid, t: Tid)
    requires Sane(k) && m in k.mutexes && t in k.threads && k.threads[t].stat == Suspended
    ensures var x := k.mutexes[m];
      HandOver(k, m, t) ==
        SetMutex(Woken(k, t), m, x.(owner := By(t), origPrio := k.threads[t].prio, hold := 1, waiters := Remove(x.waiters, t)))
  {
    var x := k.mutexes[m];
    var y := x.(owner := By(t), origPrio := k.threads[t].prio, hold := 1);
    assert Detach(SetMutex(k, m, y), t).mutexes == Detach(k, t).mutexes[m := y.(waiters := Remove(x.waiters, t))];
  }

  predicate SamePriority(c: Tcb, d: Tcb) { d.prio == c.prio && d.base == c.base && (d.stat == Init ==> c.stat == Init) }

  lemma WokenIs(k: Kernel, t: Tid)
    requires Sane(k) && t in k.threads
    ensures Same(k, Woken(k, t)) && forall u :: u in k.threads ==> SamePriority(k.threads[u], Woken(k, t).threads[u])
    ensures Woken(k, t).threads[t].stat != Init
    ensures forall n :: n in k.mutexes ==> Woken(k, t).mutexes[n] == k.mutexes[n].(waiters := Remove(k.mutexes[n].waiters, t))
  {
  }

  lemma RestoreIs(k: Kernel, p: nat)
    requires Sane(k) && k.threads[k.current].stat == Running && p < PRIORITIES
    ensures Restored(k, p) == Set(k, k.current, k.threads[k.current].(prio := p))
  {
    assert k.threads == k.threads[k.current := k.threads[k.current]];
  }

  lemma HandOverKeeps(k: Kernel, m: Mid)
    requires Inv(k) && m in k.mutexes && k.mutexes[m].waiters != []
    ensures k.mutexes[m].waiters[0] in k.threads
    ensures Inv(HandOver(k, m, k.mutexes[m].waiters[0]))
  {
    var x := k.mutexes[m];
    var t := x.waiters[0];
    assert MutexOk(k, x) && t in x.waiters;
    RemoveSpec(x.waiters, t);
    WakeKeeps(k, t, k.threads[t].(timer := false));
    var r := Woken(k, t);
    assert MutexOk(r, r.mutexes[m]);
    SetMutexKeeps(r, m, x.(owner := By(t), origPrio := k.threads[t].prio, hold := 1, waiters := Remove(x.waiters, t)));
    HandOverIs(k, m, t);
  }

  lemma ReleaseKeeps(k: Kernel, m: Mid)
    requires Inv(k) && Legal(k, DoRelease(m))
    ensures Inv(Release(k, m).0)
  {
    var x := k.mutexes[m];
    assert MutexOk(k, x);
    if x.owner != By(k.current) {
      SetKeeps(k, k.current, k.threads[k.current].(error := ERROR));
    } else if x.hold != 1 {
      SetMutexKeeps(k, m, x.(hold := x.hold - 1));
    } else {
      GiveUpKeeps(k, m);
    }
  }

  lemma RestoredKeeps(k: Kernel, p: nat)
    requires Inv(k) && p < PRIORITIES
    ensures Inv(Restored(k, p)) && Restored(k, p).mutexes == k.mutexes && Restored(k, p).threads.Keys == k.threads.Keys
  {
    ChangePriorityKeeps(k, k.current, p);
  }

  lemma GiveUpKeeps(k: Kernel, m: Mid)
    requires Inv(k) && m in k.mutexes && MutexOk(k, k.mutexes[m]) && k.mutexes[m].owner == By(k.current) && k.mutexes[m].hold == 1
    ensures Inv(GiveUp(k, m).0)
  {
    var x := k.mutexes[m];
    var k1 := Restored(k, x.origPrio);
    RestoredKeeps(k, x.origPrio);
    if x.waiters != [] { HandOverKeeps(k1, m); } else { FreedKeeps(k1, m, x); }
  }

  lemma FreedKeeps(k: Kernel, m: Mid, x: Mutex)
    requires Inv(k) && m in k.mutexes && k.mutexes[m] == x && x.owner != Nobody && x.waiters == []
    ensures Inv(SetMutex(k, m, x.(hold := 0, value := x.value + 1, owner := Nobody, origPrio := NO_PRIORITY)))
  {
    assert MutexOk(k, x);
    SetMutexKeeps(k, m, x.(hold := 0, value := x.value + 1, owner := Nobody, origPrio := NO_PRIORITY));
  }

  /** Every step of the kernel, in thread or interrupt, keeps the whole invariant, unless it goes on with
      a call that was disturbed. */
  lemma StepKeeps(k: Kernel, s: Step)
    requires Inv(k) && Legal(k, s) && Undisturbed(k, s)
    ensures Inv(Apply(k, s))
  {
    var c := k.threads[k.current];
    match s
    case DoPrepare(t) => PrepareKeeps(k, t);
    case DoSchedule => ScheduleKeeps(k);
    case DoTick => TickKeeps(k);
    case DoEnterCritical => LockKeeps(k, k.lock + 1);
    case DoExitCritical =>
      LockKeeps(k, k.lock - 1);
      LockKeeps(k, 0);
      if k.lock - 1 <= 0 { ScheduleKeeps(k.(lock := 0)); }
    case DoSleep =>
      SuspendKeeps(k, k.current);
      var r := Suspend(k, k.current);
      SetKeeps(r, k.current, r.threads[k.current].(timer := true));
    case DoSuspendTest(t) => OpenKeeps(k, Apply(k, s).open);
    case DoSuspend(t) =>
      WithdrawKeeps(k, t);
      OpenKeeps(Withdraw(k, t), Apply(k, s).open);
    case DoResumeTest(t) => OpenKeeps(k, Apply(k, s).open);
    case DoUnlink(t) => RegionsExactly(k, s);
    case DoInsert(t) => RegionsExactly(k, s);
    case DoTimeout(t) => WakeKeeps(k, t, k.threads[t].(error := ETIMEOUT, timer := false));
    case DoChangePriority(t, p) =>
      ChangePriorityKeeps(k, t, p);
      var r := ChangePriority(k, t, p);
      SetKeeps(r, t, r.threads[t].(base := p));
    case DoExit => ExitKeeps(k);
    case DoTake(m, time) => TakeKeeps(k, m, time);
    case DoTakeSchedule =>
      var d := c.(call := Taking(c.call.mutex, true));
      SetKeeps(k, k.current, d);
      ScheduleKeeps(Set(k, k.current, d));
    case DoTakeReturn => SetKeeps(k, k.current, c.(call := App));
    case DoRelease(m) => ReleaseKeeps(k, m);
  }

  lemma LockKeeps(k: Kernel, n: int)
    requires Inv(k)
    ensures Inv(k.(lock := n))
  {
    forall p: nat | p < PRIORITIES ensures Lane(k.(lock := n), p) { assert Lane(k, p); }
    MutexFrame(k, k.(lock := n));
  }

  predicate LegalRun(k: Kernel, steps: seq<Step>)
    requires Sane(k)
    decreases |steps|
  {
    steps == [] || (Legal(k, steps[0]) && LegalRun(Apply(k, steps[0]), steps[1..]))
  }

  function Run(k: Kernel, steps: seq<Step>): (r: Kernel)
    requires Sane(k) && LegalRun(k, steps)
    ensures Same(k, r)
    decreases |steps|
  {
    if steps == [] then k else Run(Apply(k, steps[0]), steps[1..])
  }

  ghost predicate UndisturbedRun(k: Kernel, steps: seq<Step>)
    requires Sane(k) && LegalRun(k, steps)
    decreases |steps|
  {
    steps == [] || (Undisturbed(k, steps[0]) && UndisturbedRun(Apply(k, steps[0]), steps[1..]))
  }

  lemma {:induction false} RunKeeps(k: Kernel, steps: seq<Step>)
    requires Inv(k) && LegalRun(k, steps) && UndisturbedRun(k, steps)
    ensures Inv(Run(k, steps))
    decreases |steps|
  {
    if steps != [] {
      StepKeeps(k, steps[0]);
      RunKeeps(Apply(k, steps[0]), steps[1..]);
    }
  }

  /** A step keeps the invariant exactly when it does not go on with a call that was disturbed. */
  lemma StepKeepsExactly(k: Kernel, s: Step)
    requires Inv(k) && Legal(k, s)
    ensures Inv(Apply(k, s)) <==> Undisturbed(k, s)
  {
    if s.DoUnlink? || s.DoInsert? { RegionsExactly(k, s); } else { StepKeeps(k, s); }
  }

  /** The invariant holds in every state of the run. */
  ghost predicate InvThroughout(k: Kernel, steps: seq<Step>)
    requires Sane(k) && LegalRun(k, steps)
    decreases |steps|
  {
    Inv(k) && (steps == [] || InvThroughout(Apply(k, steps[0]), steps[1..]))
  }

  lemma {:induction false} RunKeepsExactly(k: Kernel, steps: seq<Step>)
    requires Inv(k) && LegalRun(k, steps)
    ensures InvThroughout(k, steps) <==> UndisturbedRun(k, steps)
    decreases |steps|
  {
    if steps != [] {
      StepKeepsExactly(k, steps[0]);
      if Undisturbed(k, steps[0]) { RunKeepsExactly(Apply(k, steps[0]), steps[1..]); }
    }
  }
}
