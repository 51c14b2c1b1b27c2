/** Where priority inheritance stops working: for every step, exactly when it keeps each owner at
    least as urgent as its waiters, with no discipline assumed. */
module InversionLimits {
  import opened KernelSpec
  import opened KernelTheorems
  import opened Sequences

  /** The pair of an owner and one of its waiters is in order. */
  ghost predicate InOrder(k: Kernel, m: Mid, w: Tid) {
    m in k.mutexes && w in k.mutexes[m].waiters && w in k.threads && k.mutexes[m].owner.By? && k.mutexes[m].owner.thread in k.threads ==>
      k.threads[k.mutexes[m].owner.thread].prio <= k.threads[w].prio
  }

  ghost predicate NoInversion(k: Kernel) { forall m, w :: InOrder(k, m, w) }

  /** Thread `t` may have priority `p` without being less urgent than a waiter of a mutex it
      owns other than `but`. */
  ghost predicate FitsOwned(k: Kernel, t: Tid, p: nat, but: set<Mid>) {
    forall n, w :: n in k.mutexes && n !in but && k.mutexes[n].owner == By(t) && w in k.mutexes[n].waiters && w in k.threads ==> p <= k.threads[w].prio
  }

  /** Thread `t` may have priority `p` without being more urgent than the owner of what it waits for. */
  ghost predicate FitsAwaited(k: Kernel, t: Tid, p: nat) {
    forall n :: n in k.mutexes && t in k.mutexes[n].waiters && k.mutexes[n].owner.By? && k.mutexes[n].owner.thread in k.threads ==>
      k.threads[k.mutexes[n].owner.thread].prio <= p
  }

  /** The first waiter is at least as urgent as the others. */
  ghost predicate FirstLeads(k: Kernel, x: Mutex) {
    forall w :: w in x.waiters && w in k.threads && x.waiters[0] in k.threads ==> k.threads[x.waiters[0]].prio <= k.threads[w].prio
  }

  predicate Contended(k: Kernel, m: Mid, time: int)
    requires m in k.mutexes
  {
    k.mutexes[m].owner.By? && k.mutexes[m].owner != By(k.current) && k.mutexes[m].value == 0 && time != 0
  }

  /** What can be checked before the step. A loan is not passed on to the owner of what the borrower
      waits for; a release restores one recorded priority whatever else is still held, and the next
      owner borrows nothing from the waiters it gets ahead of. */
  ghost predicate Harmless(k: Kernel, s: Step)
    requires Sane(k) && Legal(k, s)
  {
    var p := k.threads[k.current].prio;
    match s
    case DoPrepare(t) => FitsOwned(k, t, k.threads[t].initPrio, {})
    case DoChangePriority(t, q) => FitsOwned(k, t, q, {}) && FitsAwaited(k, t, q)
    case DoTake(m, time) =>
      (Contended(k, m, time) && k.mutexes[m].owner.thread in k.threads ==>
         k.threads[k.mutexes[m].owner.thread].prio <= p || FitsAwaited(k, k.mutexes[m].owner.thread, p))
    case DoRelease(m) =>
      var x := k.mutexes[m];
      (x.owner == By(k.current) && x.hold == 1 ==> FitsOwned(k, k.current, x.origPrio, {m}) && FirstLeads(k, x))
    case _ => true
  }

  // ----- steps that change no priority and no owner

  ghost predicate Quiet(k: Kernel, r: Kernel) {
    && r.threads.Keys == k.threads.Keys && r.mutexes.Keys == k.mutexes.Keys
    && (forall t :: t in k.threads ==> r.threads[t].prio == k.threads[t].prio)
    && (forall m :: m in k.mutexes ==> r.mutexes[m].owner == k.mutexes[m].owner)
    && (forall m, w :: m in k.mutexes && w in r.mutexes[m].waiters ==> w in k.mutexes[m].waiters)
  }

  lemma QuietKeeps(k: Kernel, r: Kernel)
    requires NoInversion(k) && Quiet(k, r)
    ensures NoInversion(r)
  {
    forall m, w ensures InOrder(r, m, w) { assert InOrder(k, m, w); }
  }

  lemma TurnsQuiet(k: Kernel)
    requires SchedInv(k)
    ensures Quiet(k, Schedule(k))
  {
    ScheduleTurns(k);
  }

  lemma SetTurnsQuiet(k: Kernel, t: Tid, c: Tcb)
    requires Inv(k) && t in k.threads && c == k.threads[t].(remTick := c.remTick, yielding := c.yielding, call := c.call)
    ensures Quiet(k, Schedule(Set(k, t, c)))
  {
    SetKeeps(k, t, c);
    TurnsQuiet(Set(k, t, c));
  }

  lemma DetachQuiet(k: Kernel, r: Kernel, t: Tid)
    requires MutexInv(k) && r.mutexes == Detach(k, t).mutexes && r.threads.Keys == k.threads.Keys
    requires forall u :: u in k.threads ==> r.threads[u].prio == k.threads[u].prio
    ensures Quiet(k, r)
  {
    forall m, w | m in k.mutexes && w in r.mutexes[m].waiters ensures w in k.mutexes[m].waiters {
      assert MutexOk(k, k.mutexes[m]);
      RemoveSpec(k.mutexes[m].waiters, t);
    }
  }

  lemma WakeQuiet(k: Kernel, t: Tid, c: Tcb)
    requires Inv(k) && t in k.threads && k.threads[t].stat == Suspended && c.prio == k.threads[t].prio < PRIORITIES
    ensures Quiet(k, InsertThread(Set(Detach(k, t), t, c), t))
  {
    DetachQuiet(k, InsertThread(Set(Detach(k, t), t, c), t), t);
  }

  lemma ExitQuiet(k: Kernel)
    requires Inv(k) && AppRuns(k)
    ensures Quiet(k, Exit(k))
  {
    var d := k.threads[k.current].(stat := Closed, yielding := false, timer := false);
    var k1 := Set(RemoveThread(k, k.current), k.current, d);
    RemoveInv(k, k.current, d);
    TurnsQuiet(k1);
  }

  /** Calls and interrupts that are quiet whatever the state. */
  predicate Plain(s: Step) { !s.DoPrepare? && !s.DoChangePriority? && !s.DoTake? && !s.DoRelease? }

  lemma PlainQuiet(k: Kernel, s: Step)
    requires Inv(k) && Legal(k, s) && Plain(s)
    ensures Quiet(k, Apply(k, s))
  {
    var c := k.threads[k.current];
    match s
    case DoSchedule => TurnsQuiet(k);
    case DoTick => if OneLess(c.remTick) == 0 { SetTurnsQuiet(k, k.current, c.(remTick := c.initTick, yielding := true)); }
    case DoEnterCritical =>
    case DoExitCritical =>
      LockKeeps(k, 0);
      TurnsQuiet(k.(lock := 0));
    case DoSleep =>
    case DoTimeout(t) => WakeQuiet(k, t, k.threads[t].(error := ETIMEOUT, timer := false));
    case DoExit => ExitQuiet(k);
    case DoTakeSchedule => SetTurnsQuiet(k, k.current, c.(call := Taking(c.call.mutex, true)));
    case DoTakeReturn =>
    case _ => RegionQuiet(k, s);
  }

  lemma RegionQuiet(k: Kernel, s: Step)
    requires Inv(k) && Legal(k, s) && (s.DoSuspendTest? || s.DoSuspend? || s.DoResumeTest? || s.DoUnlink? || s.DoInsert?)
    ensures Quiet(k, Apply(k, s))
  {
    match s
    case DoSuspend(t) =>
      DetachQuiet(k, Withdraw(k, t), t);
      OpenQuiet(k, Withdraw(k, t), Apply(k, s).open);
    case DoUnlink(t) =>
      DetachQuiet(k, Unlink(k, t), t);
      OpenQuiet(k, Unlink(k, t), Apply(k, s).open);
    case DoInsert(t) => OpenQuiet(k, InsertThread(k, t), Apply(k, s).open);
    case DoSuspendTest(t) => OpenQuiet(k, k, SuspendTest(k, t).open);
    case DoResumeTest(t) => OpenQuiet(k, k, ResumeTest(k, t).open);
  }

  lemma OpenQuiet(k: Kernel, r: Kernel, open: multiset<Gap>)
    requires Quiet(k, r)
    ensures Quiet(k, r.(open := open))
  {
  }

  // ----- a new priority

  /** Only the priority of `t` is another one. */
  ghost predicate Reprioritised(k: Kernel, r: Kernel, t: Tid, p: nat) {
    && t in k.threads && r.threads.Keys == k.threads.Keys && r.threads[t].prio == p
    && (forall u :: u in k.threads && u != t ==> r.threads[u].prio == k.threads[u].prio)
    && r.mutexes.Keys == k.mutexes.Keys
    && (forall m :: m in k.mutexes ==> r.mutexes[m].owner == k.mutexes[m].owner)
    && (forall m, w :: m in k.mutexes ==> (w in r.mutexes[m].waiters <==> w in k.mutexes[m].waiters))
  }

  lemma ReprioritisedExactly(k: Kernel, r: Kernel, t: Tid, p: nat)
    requires MutexInv(k) && NoInversion(k) && Reprioritised(k, r, t, p)
    ensures NoInversion(r) <==> FitsOwned(k, t, p, {}) && FitsAwaited(k, t, p)
  {
    if FitsOwned(k, t, p, {}) && FitsAwaited(k, t, p) {
      forall m, w ensures InOrder(r, m, w) { assert InOrder(k, m, w); }
    }
    if NoInversion(r) {
      forall n, w | n in k.mutexes && k.mutexes[n].owner == By(t) && w in k.mutexes[n].waiters && w in k.threads ensures p <= k.threads[w].prio {
        assert InOrder(r, n, w) && MutexOk(k, k.mutexes[n]);
      }
      forall n | n in k.mutexes && t in k.mutexes[n].waiters && k.mutexes[n].owner.By? && k.mutexes[n].owner.thread in k.threads
        ensures k.threads[k.mutexes[n].owner.thread].prio <= p
      {
        assert InOrder(r, n, t) && MutexOk(k, k.mutexes[n]);
      }
    }
  }

  lemma PrepareExactly(k: Kernel, t: Tid)
    requires Inv(k) && NoInversion(k) && Legal(k, DoPrepare(t))
    ensures NoInversion(Prepare(k, t)) <==> FitsOwned(k, t, k.threads[t].initPrio, {})
  {
    NoWaiter(k, t);
    ReprioritisedExactly(k, Prepare(k, t), t, k.threads[t].initPrio);
  }

  lemma ChangeExactly(k: Kernel, t: Tid, p: nat)
    requires Inv(k) && NoInversion(k) && t in k.threads && p < PRIORITIES
    ensures NoInversion(ChangePriority(k, t, p)) <==> FitsOwned(k, t, p, {}) && FitsAwaited(k, t, p)
  {
    ReprioritisedExactly(k, ChangePriority(k, t, p), t, p);
  }

  // ----- taking

  /** Thread `t` joins the waiters of `m`, and nothing else happens. */
  ghost predicate Queued(k: Kernel, r: Kernel, m: Mid, t: Tid) {
    && m in k.mutexes && t in k.threads && r.threads.Keys == k.threads.Keys && r.mutexes.Keys == k.mutexes.Keys
    && (forall u :: u in k.threads ==> r.threads[u].prio == k.threads[u].prio)
    && (forall n :: n in k.mutexes ==> r.mutexes[n].owner == k.mutexes[n].owner)
    && (forall n, w :: n in k.mutexes ==> (w in r.mutexes[n].waiters <==> w in k.mutexes[n].waiters || (n == m && w == t)))
  }

  lemma QueuedExactly(k: Kernel, r: Kernel, m: Mid, t: Tid)
    requires Queued(k, r, m, t) && k.mutexes[m].owner.By? && k.mutexes[m].owner.thread in k.threads
    requires k.threads[k.mutexes[m].owner.thread].prio <= k.threads[t].prio
    ensures NoInversion(r) <==> NoInversion(k)
  {
    if NoInversion(k) { forall n, w ensures InOrder(r, n, w) { assert InOrder(k, n, w); } }
    if NoInversion(r) { forall n, w ensures InOrder(k, n, w) { assert InOrder(r, n, w); } }
  }

  lemma BlockQueued(k: Kernel, m: Mid, time: int)
    requires Inv(k) && AppRuns(k) && m in k.mutexes && Contended(k, m, time)
    ensures Queued(Inherit(k, m), Block(k, m, time), m, k.current)
  {
    var t, x, k1 := k.current, k.mutexes[m], Inherit(k, m);
    InheritKeeps(k, m);
    NoWaiter(k, t);
    assert MutexOk(k, x);
    EnqueueSpec(Suspend(k1, t), x.waiters, t, k.threads[t].prio, x.flag);
  }

  lemma InheritExactly(k: Kernel, m: Mid)
    requires Inv(k) && AppRuns(k) && NoInversion(k) && m in k.mutexes && k.mutexes[m].owner.By? && k.mutexes[m].owner.thread in k.threads
    requires k.mutexes[m].owner != By(k.current)
    ensures var o, p := k.mutexes[m].owner.thread, k.threads[k.current].prio;
            NoInversion(Inherit(k, m)) <==> k.threads[o].prio <= p || FitsAwaited(k, o, p)
  {
    var o, p := k.mutexes[m].owner.thread, k.threads[k.current].prio;
    if p < k.threads[o].prio {
      ChangeExactly(k, o, p);
      forall n, w | n in k.mutexes && k.mutexes[n].owner == By(o) && w in k.mutexes[n].waiters && w in k.threads ensures p <= k.threads[w].prio {
        assert InOrder(k, n, w);
      }
    }
  }

  lemma ResetQuiet(k: Kernel)
    requires Inv(k) && NoInversion(k) && AppRuns(k)
    ensures var r := ResetError(k); Inv(r) && AppRuns(r) && NoInversion(r) && r.mutexes == k.mutexes && r.current == k.current
  {
    var r := ResetError(k);
    SetKeeps(k, k.current, k.threads[k.current].(error := EOK));
    QuietKeeps(k, r);
  }

  /** A take that need not wait changes no pair of an owner and a waiter. */
  lemma UncontendedKeeps(k: Kernel, m: Mid, time: int)
    requires Inv(k) && AppRuns(k) && NoInversion(k) && m in k.mutexes && k.mutexes[m].hold < 255 && !Contended(k, m, time)
    ensures NoInversion(TryTake(k, m, time).0)
  {
    var r := TryTake(k, m, time).0;
    assert MutexOk(k, k.mutexes[m]);
    forall n, w ensures InOrder(r, n, w) { assert InOrder(k, n, w); }
  }

  lemma TakeExactly(k: Kernel, m: Mid, time: int)
    requires Inv(k) && NoInversion(k) && Legal(k, DoTake(m, time))
    ensures NoInversion(TakeEnter(k, m, time).0) <==> Harmless(k, DoTake(m, time))
  {
    ResetQuiet(k);
    if Contended(k, m, time) {
      ContendedExactly(k, m, time);
    } else {
      UncontendedKeeps(ResetError(k), m, time);
    }
  }

  lemma ContendedExactly(k: Kernel, m: Mid, time: int)
    requires Inv(k) && AppRuns(k) && NoInversion(k) && m in k.mutexes && Contended(k, m, time)
    requires Inv(ResetError(k)) && NoInversion(ResetError(k))
    ensures k.mutexes[m].owner.thread in k.threads
    ensures var o, p := k.mutexes[m].owner.thread, k.threads[k.current].prio;
            NoInversion(Block(ResetError(k), m, time)) <==> k.threads[o].prio <= p || FitsAwaited(k, o, p)
  {
    BlockExactly(ResetError(k), m, time);
    SameFits(k, ResetError(k), k.mutexes[m].owner.thread, k.threads[k.current].prio);
  }

  lemma SameFits(k: Kernel, r: Kernel, t: Tid, p: nat)
    requires r.mutexes == k.mutexes && r.threads.Keys == k.threads.Keys && forall u :: u in k.threads ==> r.threads[u].prio == k.threads[u].prio
    ensures FitsAwaited(k, t, p) <==> FitsAwaited(r, t, p)
  {
  }

  lemma BlockExactly(k: Kernel, m: Mid, time: int)
    requires Inv(k) && AppRuns(k) && NoInversion(k) && m in k.mutexes && Contended(k, m, time)
    ensures k.mutexes[m].owner.thread in k.threads
    ensures var o, p := k.mutexes[m].owner.thread, k.threads[k.current].prio;
            NoInversion(Block(k, m, time)) <==> k.threads[o].prio <= p || FitsAwaited(k, o, p)
  {
    assert MutexOk(k, k.mutexes[m]);
    InheritExactly(k, m);
    InheritKeeps(k, m);
    BlockQueued(k, m, time);
    QueuedExactly(Inherit(k, m), Block(k, m, time), m, k.current);
  }

  // ----- releasing

  /** The running owner of `m` goes back to priority `p`; thread `t`, if any, takes over. */
  ghost predicate PassedOn(k: Kernel, r: Kernel, m: Mid, p: nat) {
    && m in k.mutexes && k.current in k.threads && k.mutexes[m].owner == By(k.current)
    && r.threads.Keys == k.threads.Keys && r.mutexes.Keys == k.mutexes.Keys && r.threads[k.current].prio == p
    && (forall u :: u in k.threads && u != k.current ==> r.threads[u].prio == k.threads[u].prio)
    && (forall n :: n in k.mutexes && n != m ==> r.mutexes[n].owner == k.mutexes[n].owner)
    && (forall n, w :: n in k.mutexes && n != m ==> (w in r.mutexes[n].waiters <==> w in k.mutexes[n].waiters))
    && (var x := k.mutexes[m];
        if x.waiters == [] then r.mutexes[m].owner == Nobody && r.mutexes[m].waiters == []
        else r.mutexes[m].owner == By(x.waiters[0]) && forall w :: w in r.mutexes[m].waiters <==> w in x.waiters && w != x.waiters[0])
  }

  lemma PassedOnExactly(k: Kernel, r: Kernel, m: Mid, p: nat)
    requires Inv(k) && AppRuns(k) && NoInversion(k) && PassedOn(k, r, m, p)
    ensures NoInversion(r) <==> FitsOwned(k, k.current, p, {m}) && FirstLeads(k, k.mutexes[m])
  {
    if NoInversion(r) { PassedOnNeeds(k, r, m, p); }
    if FitsOwned(k, k.current, p, {m}) && FirstLeads(k, k.mutexes[m]) { PassedOnKeeps(k, r, m, p); }
  }

  lemma PassedOnNeeds(k: Kernel, r: Kernel, m: Mid, p: nat)
    requires Inv(k) && AppRuns(k) && NoInversion(r) && PassedOn(k, r, m, p)
    ensures FitsOwned(k, k.current, p, {m}) && FirstLeads(k, k.mutexes[m])
  {
    var x, c := k.mutexes[m], k.current;
    NoWaiter(k, c);
    assert MutexOk(k, x) && (x.waiters != [] ==> x.waiters[0] in x.waiters);
    forall n, w | n in k.mutexes && n != m && k.mutexes[n].owner == By(c) && w in k.mutexes[n].waiters && w in k.threads ensures p <= k.threads[w].prio {
      assert InOrder(r, n, w);
    }
    forall w | w in x.waiters ensures k.threads[x.waiters[0]].prio <= k.threads[w].prio { assert InOrder(r, m, w); }
  }

  lemma PassedOnKeeps(k: Kernel, r: Kernel, m: Mid, p: nat)
    requires Inv(k) && AppRuns(k) && NoInversion(k) && PassedOn(k, r, m, p)
    requires FitsOwned(k, k.current, p, {m}) && FirstLeads(k, k.mutexes[m])
    ensures NoInversion(r)
  {
    NoWaiter(k, k.current);
    assert MutexOk(k, k.mutexes[m]);
    forall n, w ensures InOrder(r, n, w) {
      if n != m { PassedOnElsewhere(k, r, m, p, n, w); }
    }
  }

  lemma PassedOnElsewhere(k: Kernel, r: Kernel, m: Mid, p: nat, n: Mid, w: Tid)
    requires NoInversion(k) && PassedOn(k, r, m, p) && FitsOwned(k, k.current, p, {m}) && n != m
    requires n in k.mutexes ==> k.current !in k.mutexes[n].waiters
    ensures InOrder(r, n, w)
  {
    assert InOrder(k, n, w);
  }

  lemma ReleasePassesOn(k: Kernel, m: Mid)
    requires Inv(k) && Legal(k, DoRelease(m)) && k.mutexes[m].owner == By(k.current) && k.mutexes[m].hold == 1
    ensures PassedOn(k, Release(k, m).0, m, k.mutexes[m].origPrio)
  {
    var x := k.mutexes[m];
    assert MutexOk(k, x);
    RestoreIs(k, x.origPrio);
    var k1 := Set(k, k.current, k.threads[k.current].(prio := x.origPrio));
    if x.waiters != [] {
      assert x.waiters[0] in x.waiters;
      HandedOn(k, k1, m, x.waiters[0]);
    }
  }

  lemma HandedOn(k: Kernel, k1: Kernel, m: Mid, t: Tid)
    requires MutexInv(k) && Sane(k) && m in k.mutexes && k.mutexes[m].owner == By(k.current) && k.mutexes[m].waiters != []
    requires t == k.mutexes[m].waiters[0] && t in k.threads && t != k.current && k.threads[t].stat == Suspended && k.mutexes[m].origPrio < PRIORITIES
    requires k1 == Set(k, k.current, k.threads[k.current].(prio := k.mutexes[m].origPrio))
    ensures PassedOn(k, HandOver(k1, m, t), m, k.mutexes[m].origPrio)
  {
    HandOverIs(k1, m, t);
    WokenIs(k1, t);
    HandsOn(k, Woken(k1, t), m, t);
  }

  lemma HandsOn(k: Kernel, w: Kernel, m: Mid, t: Tid)
    requires MutexInv(k) && Sane(k) && m in k.mutexes && k.mutexes[m].owner == By(k.current) && k.mutexes[m].waiters != [] && t == k.mutexes[m].waiters[0]
    requires w.threads.Keys == k.threads.Keys && w.mutexes.Keys == k.mutexes.Keys && t in k.threads && w.threads[k.current].prio == k.mutexes[m].origPrio
    requires forall u :: u in k.threads && u != k.current ==> w.threads[u].prio == k.threads[u].prio
    requires forall n :: n in k.mutexes ==> w.mutexes[n] == k.mutexes[n].(waiters := Remove(k.mutexes[n].waiters, t))
    ensures var x := k.mutexes[m];
            PassedOn(k, SetMutex(w, m, x.(owner := By(t), origPrio := k.threads[t].prio, hold := 1, waiters := Remove(x.waiters, t))), m, x.origPrio)
  {
    assert t in k.mutexes[m].waiters && MutexOk(k, k.mutexes[m]);
    forall n | n in k.mutexes && n != m ensures Remove(k.mutexes[n].waiters, t) == k.mutexes[n].waiters { RemoveAbsent(k.mutexes[n].waiters, t); }
    RemoveSpec(k.mutexes[m].waiters, t);
  }

  lemma ReleaseExactly(k: Kernel, m: Mid)
    requires Inv(k) && NoInversion(k) && Legal(k, DoRelease(m))
    ensures NoInversion(Release(k, m).0) <==> Harmless(k, DoRelease(m))
  {
    var x, r := k.mutexes[m], Release(k, m).0;
    assert MutexOk(k, x) && (x.waiters != [] ==> x.waiters[0] in x.waiters);
    if x.owner == By(k.current) && x.hold == 1 {
      ReleasePassesOn(k, m);
      PassedOnExactly(k, r, m, x.origPrio);
    } else {
      QuietKeeps(k, r);
    }
  }

  lemma RebaseExactly(k: Kernel, t: Tid, p: nat)
    requires Inv(k) && NoInversion(k) && t in k.threads && p < PRIORITIES
    ensures NoInversion(Rebase(ChangePriority(k, t, p), t, p)) <==> FitsOwned(k, t, p, {}) && FitsAwaited(k, t, p)
  {
    ChangeExactly(k, t, p);
    var r := ChangePriority(k, t, p);
    if NoInversion(r) { QuietKeeps(r, Rebase(r, t, p)); }
    if NoInversion(Rebase(r, t, p)) { QuietKeeps(Rebase(r, t, p), r); }
  }

  /** One step, from any state in which no owner is less urgent than its waiters, keeps that
      exactly when it is harmless; and only four of the calls can be anything else. */
  lemma StepExactly(k: Kernel, s: Step)
    requires Inv(k) && NoInversion(k) && Legal(k, s)
    ensures NoInversion(Apply(k, s)) <==> Harmless(k, s)
  {
    match s
    case DoPrepare(t) => PrepareExactly(k, t);
    case DoChangePriority(t, p) => RebaseExactly(k, t, p);
    case DoTake(m, time) => TakeExactly(k, m, time);
    case DoRelease(m) => ReleaseExactly(k, m);
    case _ =>
      PlainQuiet(k, s);
      QuietKeeps(k, Apply(k, s));
  }
}
