/** The state in which rt_system_scheduler_start leaves the kernel: where every run begins. */
module KernelBoot {
  import opened KernelSpec
  import opened KernelTheorems
  import opened MutexAccount
  import opened MutexHandOff
  import opened PriorityInheritance
  import opened InversionLimits
  import opened OpenCalls
  import opened Sequences

  /** A thread as _rt_thread_init leaves it. */
  predicate Fresh(c: Tcb) {
    c.stat == Init && !c.yielding && c.prio == c.initPrio == c.base < PRIORITIES && c.error == EOK && !c.timer && c.call == App
  }

  /** rt_mutex_init */
  function FreeMutex(flag: Flag): Mutex { Mutex(flag, 1, Nobody, NO_PRIORITY, 0, []) }

  /** The threads of priority `p` in the order in which they were started. */
  function InLane(threads: map<Tid, Tcb>, order: seq<Tid>, p: nat): seq<Tid>
    decreases |order|
  {
    if order == [] then []
    else
      var q := InLane(threads, order[..|order| - 1], p);
      var t := order[|order| - 1];
      if t in threads && threads[t].prio == p then q + [t] else q
  }

  /** Before there is a current thread, rt_thread_startup only queues. The field `current` is still to be set. */
  function Started(threads: map<Tid, Tcb>, order: seq<Tid>, flags: map<Mid, Flag>): Kernel
    requires order != []
  {
    Kernel(map t | t in threads :: threads[t].(stat := if t in order then Ready else Init),
           seq(PRIORITIES, p requires p >= 0 => InLane(threads, order, p)),
           set t | t in order && t in threads :: threads[t].prio,
           order[0], 0, map m | m in flags :: FreeMutex(flags[m]), multiset{})
  }

  /** rt_system_scheduler_start */
  function SchedulerStart(k: Kernel): (r: Kernel)
    requires Sane(k) && (var p := Highest(k.group, 0); p < PRIORITIES && k.ready[p] != [] && k.ready[p][0] in k.threads)
  {
    var to := k.ready[Highest(k.group, 0)][0];
    var k1 := RemoveThread(k.(current := to), to);
    Set(k1, to, k1.threads[to].(stat := Running))
  }

  ghost predicate Startable(threads: map<Tid, Tcb>, order: seq<Tid>) {
    && order != [] && Distinct(order)
    && (forall t :: t in order ==> t in threads)
    && forall t :: t in threads ==> Fresh(threads[t])
  }

  lemma {:induction false} InLaneSpec(threads: map<Tid, Tcb>, order: seq<Tid>, p: nat)
    requires Distinct(order)
    ensures Distinct(InLane(threads, order, p))
    ensures forall t :: t in InLane(threads, order, p) <==> t in order && t in threads && threads[t].prio == p
    decreases |order|
  {
    if order != [] {
      var rest := order[..|order| - 1];
      assert order == rest + [order[|order| - 1]];
      InLaneSpec(threads, rest, p);
    }
  }

  lemma StartedQueues(threads: map<Tid, Tcb>, order: seq<Tid>, flags: map<Mid, Flag>)
    requires Startable(threads, order)
    ensures Queues(Started(threads, order, flags))
    ensures var k := Started(threads, order, flags);
            var p := Highest(k.group, 0);
            p < PRIORITIES && k.ready[p] != [] && k.ready[p][0] in k.threads && k.threads[k.ready[p][0]].stat == Ready
  {
    var k := Started(threads, order, flags);
    assert order[0] in order;
    forall p: nat | p < PRIORITIES ensures Lane(k, p) {
      InLaneSpec(threads, order, p);
      if k.ready[p] != [] { assert k.ready[p][0] in k.ready[p]; }
      if p in k.group {
        var t :| t in order && t in threads && threads[t].prio == p;
        assert t in k.ready[p];
      }
    }
    HighestSpec(k.group, 0);
    assert threads[order[0]].prio in k.group;
    var p := Highest(k.group, 0);
    assert Lane(k, p) && k.ready[p][0] in k.ready[p];
  }

  function Boot(threads: map<Tid, Tcb>, order: seq<Tid>, flags: map<Mid, Flag>): Kernel
    requires Startable(threads, order)
  {
    StartedQueues(threads, order, flags);
    SchedulerStart(Started(threads, order, flags))
  }

  lemma BootSched(threads: map<Tid, Tcb>, order: seq<Tid>, flags: map<Mid, Flag>)
    requires Startable(threads, order)
    ensures SchedInv(Boot(threads, order, flags))
  {
    StartedQueues(threads, order, flags);
    var k := Started(threads, order, flags);
    var to := k.ready[Highest(k.group, 0)][0];
    CurrentFree(k, to);
    RemoveInv(k.(current := to), to, k.threads[to].(stat := Running));
  }

  /** The kernel comes up in order: all invariants hold, and the most urgent thread runs. */
  lemma BootInv(threads: map<Tid, Tcb>, order: seq<Tid>, flags: map<Mid, Flag>)
    requires Startable(threads, order)
    ensures var k := Boot(threads, order, flags);
      && Inv(k) && TakeInv(k) && NoInversion(k) && OpenOk(k) && AppRuns(k)
      && ((forall m :: m in flags ==> flags[m] == Prio) ==> InheritInv(k))
      && forall t :: t in order ==> k.threads[k.current].prio <= k.threads[t].prio
  {
    BootSched(threads, order, flags);
    StartedQueues(threads, order, flags);
    var k0, k := Started(threads, order, flags), Boot(threads, order, flags);
    HighestSpec(k0.group, 0);
    var p := Highest(k0.group, 0);
    assert Lane(k0, p) && k0.ready[p][0] in k0.ready[p];
    forall t | t in order ensures k.threads[k.current].prio <= k.threads[t].prio { assert threads[t].prio in k0.group; }
    forall m | m in k.mutexes ensures MutexOk(k, k.mutexes[m]) && k.mutexes[m] == FreeMutex(flags[m]) {}
    forall t | t in k.threads ensures TakeOk(k, t) {}
  }

  /** Hence a run from there keeps the scheduler and mutex invariant exactly when no open call is disturbed, and
      then the takes come out right exactly when it is orderly. Care with rt_thread_resume is enough for the first. */
  lemma BootRunKeeps(threads: map<Tid, Tcb>, order: seq<Tid>, flags: map<Mid, Flag>, steps: seq<Step>)
    requires Startable(threads, order) && Sane(Boot(threads, order, flags)) && LegalRun(Boot(threads, order, flags), steps)
    ensures var k := Boot(threads, order, flags);
      && (InvThroughout(k, steps) <==> UndisturbedRun(k, steps))
      && (CarefulRun(k, steps) ==> UndisturbedRun(k, steps))
      && (UndisturbedRun(k, steps) ==> (TakesOk(k, steps) <==> OrderlyRun(k, steps)))
  {
    BootInv(threads, order, flags);
    var k := Boot(threads, order, flags);
    RunKeepsExactly(k, steps);
    if CarefulRun(k, steps) { CarefulIsUndisturbed(k, steps); }
    if UndisturbedRun(k, steps) { RunTakeExactly(k, steps); }
  }

  /** ... and `hold` is throughout what the takes and releases since the start have returned. */
  lemma BootBalances(threads: map<Tid, Tcb>, order: seq<Tid>, flags: map<Mid, Flag>, steps: seq<Step>)
    requires Startable(threads, order) && Sane(Boot(threads, order, flags)) && LegalRun(Boot(threads, order, flags), steps)
    requires UndisturbedRun(Boot(threads, order, flags), steps) && OrderlyRun(Boot(threads, order, flags), steps)
    ensures var k := Boot(threads, order, flags); Balanced(Run(k, steps), RunAccount(k, map[], steps))
  {
    BootInv(threads, order, flags);
    var k := Boot(threads, order, flags);
    assert Balanced(k, map[]) by {
      forall m, t | m in k.mutexes ensures Held(k, t, m) == 0 {}
    }
    RunBalances(k, map[], steps);
  }

  /** ... and one that keeps to the locking discipline, with mutexes that wait by priority, bounds inversion. */
  lemma BootBoundedInversion(threads: map<Tid, Tcb>, order: seq<Tid>, flags: map<Mid, Flag>, steps: seq<Step>, m: Mid, w: Tid)
    requires Startable(threads, order) && forall n :: n in flags ==> flags[n] == Prio
    requires Sane(Boot(threads, order, flags)) && LegalRun(Boot(threads, order, flags), steps)
    requires UndisturbedRun(Boot(threads, order, flags), steps) && KeepsRun(Boot(threads, order, flags), steps)
    requires Run(Boot(threads, order, flags), steps).lock == 0
    ensures var r := Schedule(Run(Boot(threads, order, flags), steps));
      m in r.mutexes && r.mutexes[m].owner.By? && w in r.mutexes[m].waiters && r.mutexes[m].owner.thread in r.threads
      && r.threads[r.mutexes[m].owner.thread].stat in {Ready, Running}
      ==> w in r.threads && r.threads[r.current].stat == Running && r.threads[r.current].prio <= r.threads[w].prio
  {
    BootInv(threads, order, flags);
    var k := Boot(threads, order, flags);
    var r := Schedule(Run(k, steps));
    if m in r.mutexes && r.mutexes[m].owner.By? && w in r.mutexes[m].waiters && r.mutexes[m].owner.thread in r.threads
       && r.threads[r.mutexes[m].owner.thread].stat in {Ready, Running} {
      BoundedInversion(k, steps, m, w);
    }
  }
}
