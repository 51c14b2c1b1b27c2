/** Bounded priority inversion, over every run that keeps to the locking discipline. */
module PriorityInheritance {
  import opened KernelSpec
  import opened KernelTheorems
  import opened Sequences

  // ----- wait lists in order of priority

  ghost predicate Sorted(k: Kernel, q: seq<Tid>)
    decreases |q|
  {
    q == [] ||
    (q[0] in k.threads && (forall w :: w in q[1..] ==> w in k.threads && k.threads[q[0]].prio <= k.threads[w].prio) && Sorted(k, q[1..]))
  }

  lemma {:induction false} SortedFrame(k: Kernel, r: Kernel, q: seq<Tid>)
    requires Sorted(k, q) && forall w :: w in q && w in k.threads ==> w in r.threads && r.threads[w].prio == k.threads[w].prio
    ensures Sorted(r, q)
    decreases |q|
  {
    if q != [] { SortedFrame(k, r, q[1..]); }
  }

  lemma {:induction false} RemoveSorted(k: Kernel, q: seq<Tid>, t: Tid)
    requires Sorted(k, q) && Distinct(q)
    ensures Sorted(k, Remove(q, t))
    decreases |q|
  {
    if q != [] && q[0] != t {
      RemoveSorted(k, q[1..], t);
      RemoveSpec(q[1..], t);
      assert Remove(q, t)[1..] == Remove(q[1..], t);
    }
  }

  lemma {:induction false} EnqueueSorted(k: Kernel, q: seq<Tid>, t: Tid)
    requires Sorted(k, q) && t in k.threads && t !in q && Distinct(q)
    ensures Sorted(k, Enqueue(k, q, t, k.threads[t].prio, Prio))
    decreases |q|
  {
    var p := k.threads[t].prio;
    if q != [] {
      if p < k.threads[q[0]].prio {
        assert ([t] + q)[1..] == q;
      } else {
        var s := Enqueue(k, q[1..], t, p, Prio);
        EnqueueSorted(k, q[1..], t);
        EnqueueSpec(k, q[1..], t, p, Prio);
        assert ([q[0]] + s)[1..] == s;
      }
    }
  }

  /** How many waiters are at least as urgent as `p`. */
  function Ahead(k: Kernel, q: seq<Tid>, p: nat): (n: nat)
    ensures n <= |q|
    decreases |q|
  {
    if q == [] || (q[0] in k.threads && p < k.threads[q[0]].prio) then 0 else 1 + Ahead(k, q[1..], p)
  }

  /** A priority-ordered list takes a thread behind its equals: those in front are at least as
      urgent, those behind strictly less, and nobody else changes places. */
  lemma {:induction false} EnqueueStable(k: Kernel, q: seq<Tid>, t: Tid, p: nat)
    requires Sorted(k, q)
    ensures var i := Ahead(k, q, p);
      && Enqueue(k, q, t, p, Prio) == q[..i] + [t] + q[i..]
      && (forall j :: 0 <= j < i ==> q[j] in k.threads && k.threads[q[j]].prio <= p)
      && (forall j :: i <= j < |q| ==> q[j] in k.threads && p < k.threads[q[j]].prio)
    decreases |q|
  {
    var i := Ahead(k, q, p);
    if q != [] && i > 0 {
      var s := q[1..];
      EnqueueStable(k, s, t, p);
      assert q[..i] == [q[0]] + s[..i - 1] && q[i..] == s[i - 1..];
      forall j | 0 < j < |q| ensures q[j] == s[j - 1] {}
    } else if q != [] {
      forall j | 0 < j < |q| ensures q[j] in q[1..] { assert q[j] == q[1..][j - 1]; }
    }
  }

  /** A FIFO wait list takes it at the end. */
  lemma {:induction false} EnqueueLast(k: Kernel, q: seq<Tid>, t: Tid, p: nat)
    ensures Enqueue(k, q, t, p, Fifo) == q + [t]
    decreases |q|
  {
    if q != [] {
      EnqueueLast(k, q[1..], t, p);
      assert [q[0]] + (q[1..] + [t]) == q + [t];
    }
  }

  // ----- the invariant

  /** The owner is at least as urgent as every waiter, and its own priority is on record. */
  ghost predicate Bounded(k: Kernel, x: Mutex) {
    && x.flag == Prio && Sorted(k, x.waiters)
    && (x.owner.By? ==>
      && x.owner.thread in k.threads && k.threads[x.owner.thread].stat != Init
      && x.origPrio == k.threads[x.owner.thread].base
      && forall w :: w in x.waiters && w in k.threads ==> k.threads[x.owner.thread].prio <= k.threads[w].prio)
  }

  predicate Owns(k: Kernel, t: Tid, m: Mid) { m in k.mutexes && k.mutexes[m].owner == By(t) }

  /** No thread owns two mutexes, or waits while it owns one; who owns none is at its base priority. */
  ghost predicate Disciplined(k: Kernel) {
    && (forall t, m, n :: Owns(k, t, m) && Owns(k, t, n) ==> m == n)
    && (forall t, m :: Owns(k, t, m) ==> !WaitsSomewhere(k, t))
    && (forall t :: t in k.threads && (forall m :: !Owns(k, t, m)) ==> k.threads[t].prio == k.threads[t].base)
  }

  ghost predicate InheritInv(k: Kernel) { (forall m :: m in k.mutexes ==> Bounded(k, k.mutexes[m])) && Disciplined(k) }

  /** A thread takes a mutex only while it owns no other, and the application leaves the priority
      of owners and waiters alone. */
  ghost predicate Keeps(k: Kernel, s: Step) {
    && (s.DoTake? ==> forall n :: Owns(k, k.current, n) ==> n == s.m)
    && (s.DoChangePriority? ==> !WaitsSomewhere(k, s.t) && forall n :: !Owns(k, s.t, n))
  }

  // ----- frames

  predicate FewerWaiters(x: Mutex, y: Mutex, t: Tid) {
    y.owner == x.owner && y.flag == x.flag && y.origPrio == x.origPrio && (y.waiters == x.waiters || y.waiters == Remove(x.waiters, t))
  }

  /** Steps that leave priorities alone and shorten wait lists at most. */
  ghost predicate Fewer(k: Kernel, r: Kernel, t: Tid) {
    && r.mutexes.Keys == k.mutexes.Keys && r.threads.Keys == k.threads.Keys
    && (forall u :: u in k.threads ==> SamePriority(k.threads[u], r.threads[u]))
    && (forall m :: m in k.mutexes ==> FewerWaiters(k.mutexes[m], r.mutexes[m], t))
  }

  lemma FewerBounded(k: Kernel, r: Kernel, t: Tid, x: Mutex, y: Mutex)
    requires MutexOk(k, x) && Bounded(k, x) && FewerWaiters(x, y, t)
    requires r.threads.Keys == k.threads.Keys && forall u :: u in k.threads ==> SamePriority(k.threads[u], r.threads[u])
    ensures Bounded(r, y) && forall w :: w in y.waiters ==> w in x.waiters
  {
    if y.waiters != x.waiters {
      RemoveSorted(k, x.waiters, t);
      RemoveSpec(x.waiters, t);
    }
    SortedFrame(k, r, y.waiters);
  }

  /** The same ownership, and nobody waits who did not: the discipline goes on. */
  lemma DisciplineFrame(k: Kernel, r: Kernel)
    requires Disciplined(k) && r.mutexes.Keys == k.mutexes.Keys && r.threads.Keys == k.threads.Keys
    requires forall m :: m in k.mutexes ==> r.mutexes[m].owner == k.mutexes[m].owner
    requires forall m, w :: m in k.mutexes && w in r.mutexes[m].waiters ==> w in k.mutexes[m].waiters
    requires forall t :: t in k.threads ==> SamePriority(k.threads[t], r.threads[t])
    ensures Disciplined(r)
  {
    forall t, m ensures Owns(r, t, m) <==> Owns(k, t, m) {}
  }

  lemma FewerKeeps(k: Kernel, r: Kernel, t: Tid)
    requires MutexInv(k) && InheritInv(k) && Fewer(k, r, t)
    ensures InheritInv(r)
  {
    forall m | m in k.mutexes ensures Bounded(r, r.mutexes[m]) && forall w :: w in r.mutexes[m].waiters ==> w in k.mutexes[m].waiters {
      assert MutexOk(k, k.mutexes[m]) && Bounded(k, k.mutexes[m]);
      FewerBounded(k, r, t, k.mutexes[m], r.mutexes[m]);
    }
    DisciplineFrame(k, r);
  }

  /** A thread that neither owns nor waits gets a new priority and base. */
  lemma SettleKeeps(k: Kernel, r: Kernel, t: Tid)
    requires InheritInv(k) && t in k.threads && !WaitsSomewhere(k, t) && forall m :: !Owns(k, t, m)
    requires r.mutexes == k.mutexes && r.threads.Keys == k.threads.Keys && r.threads[t].prio == r.threads[t].base
    requires forall u :: u in k.threads && u != t ==> SamePriority(k.threads[u], r.threads[u])
    ensures InheritInv(r)
  {
    forall m | m in k.mutexes ensures Bounded(r, r.mutexes[m]) {
      assert Bounded(k, k.mutexes[m]) && (k.mutexes[m].owner == By(t) ==> Owns(k, t, m));
      assert t !in k.mutexes[m].waiters;
      SortedFrame(k, r, k.mutexes[m].waiters);
    }
    forall u, m ensures Owns(r, u, m) <==> Owns(k, u, m) {}
    forall u ensures WaitsSomewhere(r, u) <==> WaitsSomewhere(k, u) {}
  }

  /** An uncontended take or the last release: ownership passes between nobody and a thread at
      its base priority. */
  ghost predicate Passes(k: Kernel, r: Kernel, t: Tid, m: Mid) {
    && m in k.mutexes && t in k.threads && k.mutexes[m].waiters == []
    && !WaitsSomewhere(k, t) && (forall n :: Owns(k, t, n) ==> n == m) && (k.mutexes[m].owner == Nobody || k.mutexes[m].owner == By(t))
    && r.threads.Keys == k.threads.Keys && r.threads[t].prio == r.threads[t].base == k.threads[t].base && r.threads[t].stat != Init
    && (forall u :: u in k.threads && u != t ==> SamePriority(k.threads[u], r.threads[u]))
    && m in r.mutexes && r.mutexes == k.mutexes[m := r.mutexes[m]]
    && r.mutexes[m].waiters == [] && (r.mutexes[m].owner == Nobody || r.mutexes[m].owner == By(t)) && r.mutexes[m].flag == k.mutexes[m].flag
    && (r.mutexes[m].owner == By(t) ==> r.mutexes[m].origPrio == r.threads[t].base)
  }

  lemma PassBounded(k: Kernel, r: Kernel, t: Tid, m: Mid, n: Mid)
    requires InheritInv(k) && Passes(k, r, t, m) && n in k.mutexes
    ensures Bounded(r, r.mutexes[n])
  {
    assert Bounded(k, k.mutexes[n]) && (n != m && k.mutexes[n].owner == By(t) ==> Owns(k, t, n));
    if n != m {
      assert t !in k.mutexes[n].waiters;
      SortedFrame(k, r, k.mutexes[n].waiters);
    }
  }

  lemma PassDisciplined(k: Kernel, r: Kernel, t: Tid, m: Mid)
    requires Disciplined(k) && Passes(k, r, t, m)
    ensures Disciplined(r)
  {
    forall u, n | u != t ensures Owns(r, u, n) <==> Owns(k, u, n) {}
    forall n | Owns(r, t, n) ensures n == m { assert n == m || Owns(k, t, n); }
    forall u ensures WaitsSomewhere(r, u) ==> WaitsSomewhere(k, u) {}
  }

  lemma PassKeeps(k: Kernel, r: Kernel, t: Tid, m: Mid)
    requires InheritInv(k) && Passes(k, r, t, m)
    ensures InheritInv(r)
  {
    forall n | n in k.mutexes ensures Bounded(r, r.mutexes[n]) { PassBounded(k, r, t, m, n); }
    PassDisciplined(k, r, t, m);
  }

  // ----- a contended take

  /** The current thread queues up for `m`, and lends its priority to the owner if that is less urgent. */
  ghost predicate Lends(k: Kernel, r: Kernel, m: Mid) {
    && m in k.mutexes && k.mutexes[m].owner.By? && k.current in k.threads && k.mutexes[m].owner.thread != k.current
    && r.threads.Keys == k.threads.Keys && k.threads[k.current].stat != Init
    && (var o := k.mutexes[m].owner.thread;
        && o in k.threads && r.threads[o].base == k.threads[o].base && r.threads[o].stat != Init
        && r.threads[o].prio == (if k.threads[k.current].prio < k.threads[o].prio then k.threads[k.current].prio else k.threads[o].prio)
        && forall u :: u in k.threads && u != o ==> SamePriority(k.threads[u], r.threads[u]))
    && r.mutexes == k.mutexes[m := k.mutexes[m].(waiters := Enqueue(r, k.mutexes[m].waiters, k.current, k.threads[k.current].prio, k.mutexes[m].flag))]
  }

  lemma LendBounded(k: Kernel, r: Kernel, m: Mid, n: Mid)
    requires InheritInv(k) && MutexInv(k) && Lends(k, r, m) && n in k.mutexes && !WaitsSomewhere(k, k.current)
    ensures Bounded(r, r.mutexes[n])
    ensures n != m ==> r.mutexes[n] == k.mutexes[n]
    ensures forall w :: w in r.mutexes[n].waiters <==> w in k.mutexes[n].waiters || (n == m && w == k.current)
  {
    var o, x := k.mutexes[m].owner.thread, k.mutexes[n];
    assert Bounded(k, x) && MutexOk(k, x) && Owns(k, o, m);
    assert o !in x.waiters && k.current !in x.waiters;
    SortedFrame(k, r, x.waiters);
    if n == m {
      EnqueueSorted(r, x.waiters, k.current);
      EnqueueSpec(r, x.waiters, k.current, k.threads[k.current].prio, x.flag);
    } else if x.owner == By(o) {
      assert Owns(k, o, n);
    }
  }

  lemma LendKeeps(k: Kernel, r: Kernel, m: Mid)
    requires InheritInv(k) && MutexInv(k) && Lends(k, r, m) && !WaitsSomewhere(k, k.current) && forall n :: !Owns(k, k.current, n)
    ensures InheritInv(r)
  {
    forall n | n in k.mutexes
      ensures Bounded(r, r.mutexes[n]) && forall w :: w in r.mutexes[n].waiters <==> w in k.mutexes[n].waiters || (n == m && w == k.current)
    {
      LendBounded(k, r, m, n);
    }
    LendDisciplined(k, r, m);
  }

  lemma LendDisciplined(k: Kernel, r: Kernel, m: Mid)
    requires Disciplined(k) && Lends(k, r, m) && forall n :: !Owns(k, k.current, n)
    requires forall n, w :: n in k.mutexes && w in r.mutexes[n].waiters && w != k.current ==> w in k.mutexes[n].waiters
    ensures Disciplined(r)
  {
    forall t, n ensures Owns(r, t, n) <==> Owns(k, t, n) {}
    forall t | t != k.current ensures WaitsSomewhere(r, t) ==> WaitsSomewhere(k, t) {}
    assert Owns(k, k.mutexes[m].owner.thread, m);
  }

  // ----- handing over

  /** The owner of `m`, back at its base priority, passes it to the first waiter. */
  ghost predicate Hands(k: Kernel, r: Kernel, m: Mid, t: Tid) {
    && m in k.mutexes && k.current in k.threads && Owns(k, k.current, m) && k.mutexes[m].waiters != [] && t == k.mutexes[m].waiters[0] && t in k.threads
    && r.threads.Keys == k.threads.Keys && r.mutexes.Keys == k.mutexes.Keys
    && (forall u :: u in k.threads && u != k.current ==> SamePriority(k.threads[u], r.threads[u]))
    && r.threads[k.current].prio == r.threads[k.current].base == k.threads[k.current].base && r.threads[t].stat != Init
    && (forall n :: n in k.mutexes && n != m ==> FewerWaiters(k.mutexes[n], r.mutexes[n], t))
    && r.mutexes[m].owner == By(t) && r.mutexes[m].origPrio == k.threads[t].prio && r.mutexes[m].flag == k.mutexes[m].flag
    && r.mutexes[m].waiters == Remove(k.mutexes[m].waiters, t)
  }

  lemma HandBounded(k: Kernel, r: Kernel, m: Mid, t: Tid, n: Mid)
    requires InheritInv(k) && MutexInv(k) && Hands(k, r, m, t) && n in k.mutexes
    ensures Bounded(r, r.mutexes[n])
    ensures forall w :: w in r.mutexes[n].waiters ==> w in k.mutexes[n].waiters && w != t
  {
    var x, y, c := k.mutexes[n], r.mutexes[n], k.current;
    assert Bounded(k, x) && MutexOk(k, x) && t in k.mutexes[m].waiters;
    assert !WaitsSomewhere(k, c) && c !in x.waiters;
    if n != m {
      assert t !in x.waiters;
      RemoveAbsent(x.waiters, t);
      assert x.owner == By(c) ==> Owns(k, c, n);
    } else {
      RemoveSorted(k, x.waiters, t);
      RemoveSpec(x.waiters, t);
      assert WaitsSomewhere(k, t) && !Owns(k, t, m);
      assert forall i :: Owns(k, t, i) ==> !WaitsSomewhere(k, t);
    }
    SortedFrame(k, r, y.waiters);
  }

  lemma HandDisciplined(k: Kernel, r: Kernel, m: Mid, t: Tid)
    requires Disciplined(k) && Hands(k, r, m, t) && WaitsSomewhere(k, t)
    requires forall n, w :: n in k.mutexes && w in r.mutexes[n].waiters ==> w in k.mutexes[n].waiters && w != t
    ensures Disciplined(r)
  {
    forall u, n | u != t && u != k.current ensures Owns(r, u, n) <==> Owns(k, u, n) {}
    forall n | Owns(r, t, n) ensures n == m { assert n == m || Owns(k, t, n); }
    forall n ensures !Owns(r, k.current, n) { assert n == m || (Owns(r, k.current, n) ==> Owns(k, k.current, n)); }
    forall u ensures WaitsSomewhere(r, u) ==> WaitsSomewhere(k, u) && u != t {}
  }

  lemma HandKeeps(k: Kernel, r: Kernel, m: Mid, t: Tid)
    requires InheritInv(k) && MutexInv(k) && Hands(k, r, m, t)
    ensures InheritInv(r)
  {
    assert t in k.mutexes[m].waiters;
    forall n | n in k.mutexes
      ensures Bounded(r, r.mutexes[n]) && forall w :: w in r.mutexes[n].waiters ==> w in k.mutexes[n].waiters && w != t
    {
      HandBounded(k, r, m, t, n);
    }
    HandDisciplined(k, r, m, t);
  }

  // ----- every step

  lemma TurnsAreFewer(k: Kernel)
    requires Inv(k)
    ensures Fewer(k, Schedule(k), 0)
  {
    ScheduleTurns(k);
  }

  lemma SetFewer(k: Kernel, t: Tid, c: Tcb)
    requires Sane(k) && t in k.threads && SamePriority(k.threads[t], c)
    ensures Fewer(k, Set(k, t, c), 0)
  {
  }

  /** An entry changes, then the scheduler runs. */
  lemma SetTurns(k: Kernel, t: Tid, c: Tcb)
    requires Inv(k) && InheritInv(k) && t in k.threads && c == k.threads[t].(remTick := c.remTick, yielding := c.yielding, call := c.call)
    ensures InheritInv(Schedule(Set(k, t, c)))
  {
    var k1 := Set(k, t, c);
    SetKeeps(k, t, c);
    SetFewer(k, t, c);
    FewerKeeps(k, k1, 0);
    TurnsAreFewer(k1);
    FewerKeeps(k1, Schedule(k1), 0);
  }

  lemma WakeFewer(k: Kernel, t: Tid, c: Tcb)
    requires Sane(k) && t in k.threads && SamePriority(k.threads[t], c) && c.prio < PRIORITIES
    ensures Fewer(k, InsertThread(Set(Detach(k, t), t, c), t), t)
  {
  }

  lemma WakeInherit(k: Kernel, t: Tid, c: Tcb)
    requires Inv(k) && InheritInv(k) && t in k.threads && SamePriority(k.threads[t], c) && c.prio < PRIORITIES
    ensures InheritInv(InsertThread(Set(Detach(k, t), t, c), t))
  {
    WakeFewer(k, t, c);
    FewerKeeps(k, InsertThread(Set(Detach(k, t), t, c), t), t);
  }

  lemma OwnerNotInit(k: Kernel, t: Tid)
    requires InheritInv(k) && t in k.threads && k.threads[t].stat == Init
    ensures forall m :: !Owns(k, t, m)
  {
    forall m ensures !Owns(k, t, m) { if m in k.mutexes { assert Bounded(k, k.mutexes[m]); } }
  }

  lemma PrepareInherit(k: Kernel, t: Tid)
    requires Inv(k) && InheritInv(k) && Legal(k, DoPrepare(t))
    ensures InheritInv(Prepare(k, t))
  {
    NoWaiter(k, t);
    OwnerNotInit(k, t);
    SettleKeeps(k, Prepare(k, t), t);
  }

  lemma WithdrawFewer(k: Kernel, t: Tid)
    requires Sane(k) && t in k.threads
    ensures Fewer(k, Withdraw(k, t), t)
  {
  }

  lemma UnlinkFewer(k: Kernel, t: Tid)
    requires Sane(k) && t in k.threads
    ensures Fewer(k, Unlink(k, t), t)
  {
  }

  lemma InsertFewer(k: Kernel, t: Tid)
    requires Sane(k) && t in k.threads
    ensures Fewer(k, InsertThread(k, t), t)
  {
  }

  lemma OpenFewer(k: Kernel, r: Kernel, t: Tid, open: multiset<Gap>)
    requires Fewer(k, r, t)
    ensures Fewer(k, r.(open := open), t)
  {
  }

  /** The regions of rt_thread_resume and rt_thread_suspend. */
  lemma RegionFewer(k: Kernel, s: Step)
    requires Sane(k) && Legal(k, s)
    requires s.DoSuspendTest? || s.DoSuspend? || s.DoResumeTest? || s.DoUnlink? || s.DoInsert?
    ensures Fewer(k, Apply(k, s), s.t)
  {
    match s
    case DoSuspendTest(t) => OpenFewer(k, k, t, SuspendTest(k, t).open);
    case DoSuspend(t) =>
      WithdrawFewer(k, t);
      OpenFewer(k, Withdraw(k, t), t, Apply(k, s).open);
    case DoResumeTest(t) => OpenFewer(k, k, t, ResumeTest(k, t).open);
    case DoUnlink(t) =>
      UnlinkFewer(k, t);
      OpenFewer(k, Unlink(k, t), t, Apply(k, s).open);
    case DoInsert(t) =>
      InsertFewer(k, t);
      OpenFewer(k, InsertThread(k, t), t, Apply(k, s).open);
  }

  lemma RegionInherit(k: Kernel, s: Step)
    requires Inv(k) && InheritInv(k) && Legal(k, s)
    requires s.DoSuspendTest? || s.DoSuspend? || s.DoResumeTest? || s.DoUnlink? || s.DoInsert?
    ensures InheritInv(Apply(k, s))
  {
    RegionFewer(k, s);
    FewerKeeps(k, Apply(k, s), s.t);
  }

  lemma ChangeInherit(k: Kernel, t: Tid, p: nat)
    requires Inv(k) && InheritInv(k) && Legal(k, DoChangePriority(t, p)) && Keeps(k, DoChangePriority(t, p))
    ensures InheritInv(Apply(k, DoChangePriority(t, p)))
  {
    Rebased(k, t, p);
    SettleKeeps(k, Rebase(ChangePriority(k, t, p), t, p), t);
  }

  lemma Rebased(k: Kernel, t: Tid, p: nat)
    requires SchedInv(k) && t in k.threads && p < PRIORITIES
    ensures var r := Rebase(ChangePriority(k, t, p), t, p);
      && r.mutexes == k.mutexes && r.threads.Keys == k.threads.Keys && r.threads[t].prio == r.threads[t].base
      && forall u :: u in k.threads && u != t ==> SamePriority(k.threads[u], r.threads[u])
  {
  }

  lemma ExitInherit(k: Kernel)
    requires Inv(k) && InheritInv(k) && AppRuns(k)
    ensures InheritInv(Exit(k))
  {
    var d := k.threads[k.current].(stat := Closed, yielding := false, timer := false);
    var k1 := Set(RemoveThread(k, k.current), k.current, d);
    RemoveInv(k, k.current, d);
    MutexFrame(k, k1);
    FewerKeeps(k, k1, 0);
    TurnsAreFewer(k1);
    FewerKeeps(k1, Schedule(k1), 0);
  }

  lemma BlockInherit(k: Kernel, m: Mid, time: int)
    requires Inv(k) && InheritInv(k) && AppRuns(k) && m in k.mutexes && k.mutexes[m].value == 0 && k.mutexes[m].owner != By(k.current)
    requires forall n :: !Owns(k, k.current, n)
    ensures InheritInv(Block(k, m, time))
  {
    NoWaiter(k, k.current);
    assert MutexOk(k, k.mutexes[m]) && Bounded(k, k.mutexes[m]);
    BlockLends(k, m, time);
    LendKeeps(k, Block(k, m, time), m);
  }

  lemma {:induction false} EnqueueFrame(k: Kernel, r: Kernel, q: seq<Tid>, t: Tid, p: nat, flag: Flag)
    requires forall w :: w in q ==> (w in k.threads <==> w in r.threads) && (w in k.threads ==> k.threads[w].prio == r.threads[w].prio)
    ensures Enqueue(k, q, t, p, flag) == Enqueue(r, q, t, p, flag)
    decreases |q|
  {
    if q != [] { EnqueueFrame(k, r, q[1..], t, p, flag); }
  }

  /** The loan, before the taker leaves. */
  lemma InheritLends(k: Kernel, m: Mid)
    requires Sane(k) && m in k.mutexes && k.mutexes[m].owner.By? && k.mutexes[m].owner.thread in k.threads && k.mutexes[m].owner.thread != k.current
    requires k.threads[k.mutexes[m].owner.thread].stat != Init
    ensures var r, o := Inherit(k, m), k.mutexes[m].owner.thread;
      && r.threads[o].base == k.threads[o].base && r.threads[o].stat != Init && r.mutexes == k.mutexes
      && r.threads[o].prio == (if k.threads[k.current].prio < k.threads[o].prio then k.threads[k.current].prio else k.threads[o].prio)
      && forall u :: u in k.threads && u != o ==> r.threads[u] == k.threads[u]
  {
  }

  lemma BlockIs(k: Kernel, m: Mid, time: int)
    requires Sane(k) && m in k.mutexes && Inherit(k, m).mutexes == k.mutexes
    ensures var k1, r := Inherit(k, m), Block(k, m, time);
      && (forall u :: u in k.threads ==> SamePriority(k1.threads[u], r.threads[u]))
      && r.mutexes == k.mutexes[m := k.mutexes[m].(waiters := Enqueue(Suspend(k1, k.current), k.mutexes[m].waiters, k.current, k.threads[k.current].prio, k.mutexes[m].flag))]
  {
  }

  lemma BlockLends(k: Kernel, m: Mid, time: int)
    requires Inv(k) && AppRuns(k) && m in k.mutexes && k.mutexes[m].owner.By? && k.mutexes[m].owner != By(k.current)
    requires MutexOk(k, k.mutexes[m]) && Bounded(k, k.mutexes[m])
    ensures Lends(k, Block(k, m, time), m)
  {
    var t, x, r := k.current, k.mutexes[m], Block(k, m, time);
    InheritLends(k, m);
    BlockIs(k, m, time);
    EnqueueFrame(Suspend(Inherit(k, m), t), r, x.waiters, t, k.threads[t].prio, x.flag);
  }

  lemma ResetInherit(k: Kernel)
    requires Inv(k) && InheritInv(k)
    ensures InheritInv(ResetError(k))
  {
    FewerKeeps(k, ResetError(k), 0);
  }

  lemma TakeInherit(k: Kernel, m: Mid, time: int)
    requires Inv(k) && InheritInv(k) && Legal(k, DoTake(m, time)) && Keeps(k, DoTake(m, time))
    ensures InheritInv(TakeEnter(k, m, time).0)
  {
    var k0, x := ResetError(k), k.mutexes[m];
    assert MutexOk(k, x);
    SetKeeps(k, k.current, k.threads[k.current].(error := EOK));
    ResetInherit(k);
    if x.owner == By(k.current) || (x.value == 0 && time == 0) {
      TakeFewer(k, m, time);
      FewerKeeps(k, TakeEnter(k, m, time).0, 0);
    } else {
      forall n | Owns(k0, k.current, n) ensures n == m { assert Owns(k, k.current, n); }
      if x.value > 0 { AcquireInherit(k0, m); } else { BlockInherit(k0, m, time); }
    }
  }

  lemma TakeFewer(k: Kernel, m: Mid, time: int)
    requires Sane(k) && m in k.mutexes && (k.mutexes[m].owner == By(k.current) || (k.mutexes[m].value == 0 && time == 0))
    ensures Fewer(k, TakeEnter(k, m, time).0, 0)
  {
  }

  lemma AcquireInherit(k: Kernel, m: Mid)
    requires Inv(k) && InheritInv(k) && AppRuns(k) && m in k.mutexes && k.mutexes[m].value > 0
    requires forall n :: Owns(k, k.current, n) ==> n == m
    ensures InheritInv(Acquire(k, m))
  {
    NoWaiter(k, k.current);
    assert MutexOk(k, k.mutexes[m]) && Bounded(k, k.mutexes[m]);
    PassKeeps(k, Acquire(k, m), k.current, m);
  }

  lemma ReleaseInherit(k: Kernel, m: Mid)
    requires Inv(k) && InheritInv(k) && Legal(k, DoRelease(m))
    ensures InheritInv(Release(k, m).0)
  {
    var x, r := k.mutexes[m], Release(k, m).0;
    assert MutexOk(k, x) && Bounded(k, x);
    if x.owner == By(k.current) && x.hold == 1 {
      if x.waiters != [] {
        ReleaseHands(k, m);
        HandKeeps(k, r, m, x.waiters[0]);
      } else {
        LastRelease(k, m);
      }
    } else {
      ReleaseFewer(k, m);
      FewerKeeps(k, r, 0);
    }
  }

  lemma ReleaseFewer(k: Kernel, m: Mid)
    requires Sane(k) && Legal(k, DoRelease(m)) && (k.mutexes[m].owner != By(k.current) || k.mutexes[m].hold != 1)
    ensures Fewer(k, Release(k, m).0, 0)
  {
  }

  lemma LastRelease(k: Kernel, m: Mid)
    requires Inv(k) && InheritInv(k) && Legal(k, DoRelease(m)) && MutexOk(k, k.mutexes[m]) && Bounded(k, k.mutexes[m])
    requires k.mutexes[m].owner == By(k.current) && k.mutexes[m].hold == 1 && k.mutexes[m].waiters == []
    ensures InheritInv(Release(k, m).0)
  {
    NoWaiter(k, k.current);
    assert Owns(k, k.current, m);
    PassKeeps(k, Release(k, m).0, k.current, m);
  }

  lemma ReleaseHands(k: Kernel, m: Mid)
    requires Inv(k) && AppRuns(k) && Owns(k, k.current, m) && MutexOk(k, k.mutexes[m]) && Bounded(k, k.mutexes[m])
    requires k.mutexes[m].hold == 1 && k.mutexes[m].waiters != []
    ensures Hands(k, Release(k, m).0, m, k.mutexes[m].waiters[0])
  {
    var x := k.mutexes[m];
    var t := x.waiters[0];
    assert t in x.waiters;
    RestoreIs(k, x.origPrio);
    var k1 := Set(k, k.current, k.threads[k.current].(prio := x.origPrio));
    HandOverIs(k1, m, t);
    WokenIs(k1, t);
    HandsFrom(k, k1, Woken(k1, t), m, t);
  }

  lemma HandsFrom(k: Kernel, k1: Kernel, w: Kernel, m: Mid, t: Tid)
    requires Sane(k) && Owns(k, k.current, m) && k.mutexes[m].waiters != [] && t == k.mutexes[m].waiters[0] && t in k.threads && t != k.current
    requires k.mutexes[m].origPrio == k.threads[k.current].base && k.threads[t].stat != Init
    requires k1 == Set(k, k.current, k.threads[k.current].(prio := k.mutexes[m].origPrio))
    requires w.threads.Keys == k.threads.Keys && w.mutexes.Keys == k.mutexes.Keys
    requires forall u :: u in k.threads ==> SamePriority(k1.threads[u], w.threads[u])
    requires w.threads[t].stat != Init
    requires forall n :: n in k.mutexes ==> w.mutexes[n] == k.mutexes[n].(waiters := Remove(k.mutexes[n].waiters, t))
    ensures var x := k.mutexes[m];
            Hands(k, SetMutex(w, m, x.(owner := By(t), origPrio := k.threads[t].prio, hold := 1, waiters := Remove(x.waiters, t))), m, t)
  {
  }

  lemma SuspendInherit(k: Kernel, t: Tid, timer: bool)
    requires Inv(k) && InheritInv(k) && t in k.threads
    ensures InheritInv(Suspend(k, t))
    ensures var r := Suspend(k, t); InheritInv(Set(r, t, r.threads[t].(timer := timer)))
  {
    var r := Suspend(k, t);
    FewerKeeps(k, r, 0);
    SuspendKeeps(k, t);
    FewerKeeps(r, Set(r, t, r.threads[t].(timer := timer)), 0);
  }

  lemma ReturnInherit(k: Kernel)
    requires Inv(k) && InheritInv(k)
    ensures InheritInv(TakeReturn(k).0)
  {
    FewerKeeps(k, TakeReturn(k).0, 0);
  }

  lemma SleepInherit(k: Kernel)
    requires Inv(k) && InheritInv(k) && AppRuns(k)
    ensures InheritInv(Sleep(k))
  {
    SuspendInherit(k, k.current, true);
  }

  lemma TickFewer(k: Kernel)
    requires Inv(k)
    ensures Fewer(k, Tick(k), 0)
  {
    var c := k.threads[k.current];
    if OneLess(c.remTick) == 0 {
      SetKeeps(k, k.current, c.(remTick := c.initTick, yielding := true));
      ScheduleTurns(Set(k, k.current, c.(remTick := c.initTick, yielding := true)));
    }
  }

  lemma UnlockFewer(k: Kernel)
    requires Inv(k)
    ensures Fewer(k, ExitCritical(k), 0)
  {
    LockKeeps(k, 0);
    ScheduleTurns(k.(lock := 0));
  }

  lemma TurnStepFewer(k: Kernel, s: Step)
    requires Inv(k) && Legal(k, s) && (s.DoSchedule? || s.DoTick? || s.DoEnterCritical? || s.DoExitCritical?)
    ensures Fewer(k, Apply(k, s), 0)
  {
    match s
    case DoSchedule => TurnsAreFewer(k);
    case DoTick => TickFewer(k);
    case DoEnterCritical =>
    case DoExitCritical => UnlockFewer(k);
  }

  /** The steps that deal with the running thread, its lock and its tick. */
  lemma TurnStepInherit(k: Kernel, s: Step)
    requires Inv(k) && InheritInv(k) && Legal(k, s) && (s.DoSchedule? || s.DoTick? || s.DoEnterCritical? || s.DoExitCritical?)
    ensures InheritInv(Apply(k, s))
  {
    TurnStepFewer(k, s);
    FewerKeeps(k, Apply(k, s), 0);
  }

  lemma OwnStepInherit(k: Kernel, s: Step)
    requires Inv(k) && InheritInv(k) && Legal(k, s) && (s.DoSleep? || s.DoExit? || s.DoTakeSchedule? || s.DoTakeReturn?)
    ensures InheritInv(Apply(k, s))
  {
    var c := k.threads[k.current];
    match s
    case DoSleep => SleepInherit(k);
    case DoExit => ExitInherit(k);
    case DoTakeSchedule => SetTurns(k, k.current, c.(call := Taking(c.call.mutex, true)));
    case DoTakeReturn => ReturnInherit(k);
  }

  /** Every step of a thread that keeps to the discipline, and every interrupt, keeps each owner
      at least as urgent as all who wait for it. */
  lemma StepInherit(k: Kernel, s: Step)
    requires Inv(k) && InheritInv(k) && Legal(k, s) && Keeps(k, s)
    ensures InheritInv(Apply(k, s))
  {
    match s
    case DoPrepare(t) => PrepareInherit(k, t);
    case DoTimeout(t) => WakeInherit(k, t, k.threads[t].(error := ETIMEOUT, timer := false));
    case DoChangePriority(t, p) => ChangeInherit(k, t, p);
    case DoTake(m, time) => TakeInherit(k, m, time);
    case DoRelease(m) => ReleaseInherit(k, m);
    case DoSleep => OwnStepInherit(k, s);
    case DoExit => OwnStepInherit(k, s);
    case DoTakeSchedule => OwnStepInherit(k, s);
    case DoTakeReturn => OwnStepInherit(k, s);
    case DoSchedule => TurnStepInherit(k, s);
    case DoTick => TurnStepInherit(k, s);
    case DoEnterCritical => TurnStepInherit(k, s);
    case DoExitCritical => TurnStepInherit(k, s);
    case _ => RegionInherit(k, s);
  }

  ghost predicate KeepsRun(k: Kernel, steps: seq<Step>)
    requires Sane(k) && LegalRun(k, steps)
    decreases |steps|
  {
    steps == [] || (Keeps(k, steps[0]) && KeepsRun(Apply(k, steps[0]), steps[1..]))
  }

  lemma {:induction false} RunInherit(k: Kernel, steps: seq<Step>)
    requires Inv(k) && InheritInv(k) && LegalRun(k, steps) && UndisturbedRun(k, steps) && KeepsRun(k, steps)
    ensures Inv(Run(k, steps)) && InheritInv(Run(k, steps))
    decreases |steps|
  {
    if steps != [] {
      StepKeeps(k, steps[0]);
      StepInherit(k, steps[0]);
      RunInherit(Apply(k, steps[0]), steps[1..]);
    }
  }

  /** Bounded inversion: at any point of such a run, once an unlocked rt_schedule has run, the
      thread that runs is at least as urgent as any waiter whose owner could run instead. */
  lemma BoundedInversion(k: Kernel, steps: seq<Step>, m: Mid, w: Tid)
    requires Inv(k) && InheritInv(k) && LegalRun(k, steps) && UndisturbedRun(k, steps) && KeepsRun(k, steps)
    requires Run(k, steps).lock == 0
    requires var r := Schedule(Run(k, steps));
      && m in r.mutexes && r.mutexes[m].owner.By? && w in r.mutexes[m].waiters && r.mutexes[m].owner.thread in r.threads
      && r.threads[r.mutexes[m].owner.thread].stat in {Ready, Running}
    ensures var r := Schedule(Run(k, steps));
      w in r.threads && r.threads[r.current].stat == Running && r.threads[r.current].prio <= r.threads[w].prio
  {
    RunInherit(k, steps);
    var e := Run(k, steps);
    var r := Schedule(e);
    ScheduleKeeps(e);
    ScheduleRunsMostUrgent(e);
    StepInherit(e, DoSchedule);
    assert Bounded(r, r.mutexes[m]) && MutexOk(r, r.mutexes[m]);
    SomeOneReady(r, r.mutexes[m].owner.thread);
  }

  lemma SomeOneReady(k: Kernel, t: Tid)
    requires SchedInv(k) && t in k.threads
    ensures k.threads[t].stat == Ready ==> k.group != {}
    ensures k.threads[t].stat == Running ==> t == k.current
  {
    assert Lane(k, k.threads[t].prio);
  }
}
