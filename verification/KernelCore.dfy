/** The kernel as the source runs it: thread blocks, the ready table, the priority group word and
    the mutexes change in place, one field at a time. */
module KernelCores {
  import opened Bitmaps
  import opened KernelSpec
  import opened KernelTheorems
  import opened Sequences

  lemma FfsIsHighest(group: nat)
    requires 0 < group < 0x1_0000_0000
    ensures Highest(Bits(group, PRIORITIES), 0) == Ffs(group) - 1 < PRIORITIES
  {
    FfsSpec(group);
    HighestIs(Bits(group, PRIORITIES), 0, Ffs(group) - 1);
  }

  lemma NoneIsHighest(group: set<nat>, from: nat)
    requires group == {} && from <= PRIORITIES
    ensures Highest(group, from) == PRIORITIES
    decreases PRIORITIES - from
  {
    if from < PRIORITIES { NoneIsHighest(group, from + 1); }
  }

  /** rt_schedule when it has a choice: `p` is the most urgent ready priority. */
  lemma ScheduleWhenReady(k: Kernel, p: nat)
    requires SchedInv(k) && k.lock == 0 && p == Highest(k.group, 0) && p < PRIORITIES
    ensures k.ready[p] != [] && k.ready[p][0] in k.threads && k.ready[p][0] != k.current
    ensures KernelSpec.Schedule(k) ==
              if Stays(k.threads[k.current], p) then Set(RemoveThread(k, k.current), k.current, k.threads[k.current])
              else SwitchTo(k, k.ready[p][0])
  {
    HighestSpec(k.group, 0);
    assert Lane(k, p);
    assert k.ready[p][0] in k.ready[p];
  }

  lemma ScheduleWhenIdle(k: Kernel)
    requires Sane(k) && (k.lock != 0 || k.group == {})
    ensures KernelSpec.Schedule(k) == k
  {
    if k.group == {} { NoneIsHighest(k.group, 0); }
  }

  lemma {:induction false} FifoEnqueue(k: Kernel, q: seq<Tid>, t: Tid, p: nat)
    ensures Enqueue(k, q, t, p, Fifo) == q + [t]
    decreases |q|
  {
    if q != [] {
      FifoEnqueue(k, q[1..], t, p);
      assert q + [t] == [q[0]] + (q[1..] + [t]);
    }
  }

  /** The hold count in between does not matter to the hand-over. */
  lemma HandOverHold(k: Kernel, m: Mid, t: Tid)
    requires Sane(k) && m in k.mutexes && t in k.threads
    ensures HandOver(k.(mutexes := k.mutexes[m := k.mutexes[m].(hold := 0)]), m, t) == HandOver(k, m, t)
  {
    var x := k.mutexes[m];
    var y := x.(owner := By(t), origPrio := k.threads[t].prio, hold := 1);
    assert k.mutexes[m := x.(hold := 0)][m := y] == k.mutexes[m := y];
  }

  class KernelCore {
    var threads: map<Tid, Tcb>
    const table: array<seq<Tid>>         // rt_thread_priority_table
    var group: nat                       // rt_thread_ready_priority_group
    var current: Tid                     // rt_current_thread
    var lockNest: int                    // rt_scheduler_lock_nest
    var mutexes: map<Mid, Mutex>
    ghost var open: multiset<Gap>        // the calls between two regions

    ghost function State(): Kernel
      reads this, table
    {
      Kernel(threads, table[..], Bits(group, PRIORITIES), current, lockNest, mutexes, open)
    }

    ghost predicate Valid()
      reads this, table
    {
      table.Length == PRIORITIES && group < 0x1_0000_0000 && Sane(State())
    }

    /** rt_schedule_insert_thread */
    method InsertThread(t: Tid)
      requires Valid() && t in threads
      modifies this, table
      ensures Valid() && State() == old(KernelSpec.InsertThread(State(), t))
    {
      if t == current {
        threads := threads[t := threads[t].(stat := Running)];
        return;
      }
      var p := threads[t].prio;
      threads := threads[t := threads[t].(stat := Ready)];
      table[p] := table[p] + [t];
      SetAndClear(group, p, PRIORITIES);
      WordWidth();
      InWidth(group, p, PRIORITIES);
      group := With(group, p);
    }

    /** rt_schedule_remove_thread */
    method RemoveThread(t: Tid)
      requires Valid() && t in threads
      modifies this`group, table
      ensures Valid() && State() == old(KernelSpec.RemoveThread(State(), t))
    {
      var p := threads[t].prio;
      table[p] := Remove(table[p], t);
      if table[p] == [] {
        SetAndClear(group, p, PRIORITIES);
        WordWidth();
        InWidth(group, p, PRIORITIES);
        group := Without(group, p);
      }
    }

    /** rt_schedule */
    method Schedule()
      requires Valid() && SchedInv(State())
      modifies this, table
      ensures Valid() && State() == old(KernelSpec.Schedule(State()))
    {
      WordWidth();
      NoBits(group, PRIORITIES);
      if lockNest != 0 || group == 0 {
        ScheduleWhenIdle(State());
        return;
      }
      FfsIsHighest(group);
      var highest := Ffs(group) - 1;
      ScheduleWhenReady(State(), highest);
      Choose(highest, table[highest][0]);
    }

    /** The rest of rt_schedule, once the first thread of the most urgent list is known. */
    method Choose(highest: nat, first: Tid)
      requires Valid() && first in threads && first != current
      modifies this, table
      ensures Valid() && State() == old(if Stays(threads[current], highest) then Set(KernelSpec.RemoveThread(State(), current), current, threads[current])
                                        else SwitchTo(State(), first))
    {
      var to, needInsert, c := first, false, threads[current];
      if c.stat == Running {
        if c.prio < highest || (c.prio == highest && !c.yielding) {
          to := current;
        } else {
          needInsert := true;
        }
      }
      if to != current { Switch(to, needInsert); } else { Stay(); }
    }

    /** The branch of rt_schedule that leaves the current thread. */
    method Switch(to: Tid, needInsert: bool)
      requires Valid() && to in threads && to != current && (needInsert <==> threads[current].stat == Running)
      modifies this, table
      ensures Valid() && State() == old(SwitchTo(State(), to))
    {
      var from := current;
      if needInsert { threads := threads[from := threads[from].(yielding := false)]; }
      current := to;
      if needInsert { InsertThread(from); }
      RemoveThread(to);
      threads := threads[to := threads[to].(stat := Running)];
    }

    /** The branch that keeps it. */
    method Stay()
      requires Valid() && threads[current].stat == Running
      modifies this, table
      ensures Valid() && State() == old(Set(KernelSpec.RemoveThread(State(), current), current, threads[current]))
    {
      RemoveThread(current);
      threads := threads[current := threads[current].(stat := Running)];
    }

    // ----- threads

    /** rt_thread_suspend with interrupts disabled throughout; true for RT_EOK */
    method Suspend(t: Tid) returns (ok: bool)
      requires Valid() && t in threads
      modifies this, table
      ensures Valid() && State() == old(KernelSpec.Suspend(State(), t))
      ensures ok <==> old(threads[t].stat == Ready || threads[t].stat == Running)
    {
      var stat := threads[t].stat;
      if stat != Ready && stat != Running { return false; }
      RemoveThread(t);
      threads := threads[t := threads[t].(stat := Suspended)];
      threads := threads[t := threads[t].(timer := false)];
      return true;
    }

    /** rt_list_remove on the node of a thread that waits somewhere, or nowhere */
    method Unlink(t: Tid)
      requires Valid()
      modifies this`mutexes
      ensures Valid() && State() == old(Detach(State(), t))
    {
      mutexes := map m | m in mutexes :: mutexes[m].(waiters := Remove(mutexes[m].waiters, t));
    }

    /** rt_list_remove on the node of a thread, whichever list it is in */
    method RemoveNode(t: Tid)
      requires Valid() && t in threads
      modifies this`mutexes, table
      ensures Valid() && State() == old(Detach(State(), t).(ready := table[..][threads[t].prio := Remove(table[threads[t].prio], t)]))
    {
      Unlink(t);
      table[threads[t].prio] := Remove(table[threads[t].prio], t);
    }

    /** The test of rt_thread_resume; true if the call goes on. */
    method ResumeTest(t: Tid) returns (ok: bool)
      requires Valid() && t in threads
      modifies this`open
      ensures Valid() && State() == old(KernelSpec.ResumeTest(State(), t))
      ensures ok <==> threads[t].stat == Suspended
    {
      if threads[t].stat != Suspended { return false; }
      open := open + multiset{Unlinks(t)};
      return true;
    }

    /** Its first region with interrupts disabled. */
    method ResumeUnlink(t: Tid)
      requires Valid() && Legal(State(), DoUnlink(t))
      modifies this, table
      ensures Valid() && State() == old(Apply(State(), DoUnlink(t)))
    {
      RemoveNode(t);
      threads := threads[t := threads[t].(timer := false)];
      open := open - multiset{Unlinks(t)} + multiset{Inserts(t)};
    }

    /** Its second, rt_schedule_insert_thread. */
    method ResumeInsert(t: Tid)
      requires Valid() && Legal(State(), DoInsert(t))
      modifies this, table
      ensures Valid() && State() == old(Apply(State(), DoInsert(t)))
    {
      InsertThread(t);
      open := open - multiset{Inserts(t)};
    }

    /** The test of rt_thread_suspend; true if the call goes on. */
    method SuspendTest(t: Tid) returns (ok: bool)
      requires Valid() && t in threads
      modifies this`open
      ensures Valid() && State() == old(KernelSpec.SuspendTest(State(), t))
      ensures ok <==> threads[t].stat == Ready || threads[t].stat == Running
    {
      if threads[t].stat != Ready && threads[t].stat != Running { return false; }
      open := open + multiset{Suspends(t, current)};
      return true;
    }

    /** Its region with interrupts disabled. */
    method SuspendRegion(t: Tid)
      requires Valid() && Legal(State(), DoSuspend(t))
      modifies this, table
      ensures Valid() && State() == old(Apply(State(), DoSuspend(t)))
    {
      TakeOff(t);
      open := open - multiset{Suspends(t, current)};
    }

    method TakeOff(t: Tid)
      requires Valid() && t in threads
      modifies this, table
      ensures Valid() && State() == old(Withdraw(State(), t))
    {
      Unlink(t);
      RemoveThread(t);
      threads := threads[t := threads[t].(stat := Suspended)];
      threads := threads[t := threads[t].(timer := false)];
    }

    /** rt_thread_resume with interrupts disabled throughout; true for RT_EOK */
    method Resume(t: Tid) returns (ok: bool)
      requires Valid() && t in threads
      modifies this, table
      ensures Valid() && State() == old(KernelSpec.Resume(State(), t))
      ensures ok <==> old(threads[t].stat == Suspended)
    {
      if threads[t].stat != Suspended { return false; }
      Unlink(t);
      threads := threads[t := threads[t].(timer := false)];
      InsertThread(t);
      return true;
    }

    /** rt_thread_timeout */
    method Timeout(t: Tid)
      requires Valid() && Inv(State()) && t in threads && threads[t].stat == Suspended
      modifies this, table
      ensures Valid() && State() == old(KernelSpec.Schedule(KernelSpec.Timeout(State(), t)))
    {
      WakeKeeps(State(), t, threads[t].(error := ETIMEOUT, timer := false));
      Expire(t);
      Schedule();
    }

    method Expire(t: Tid)
      requires Valid() && t in threads
      modifies this, table
      ensures Valid() && State() == old(KernelSpec.Timeout(State(), t))
    {
      Unlink(t);
      threads := threads[t := threads[t].(error := ETIMEOUT, timer := false)];
      InsertThread(t);
    }

    /** rt_thread_startup, if nothing gets in between */
    method Startup(t: Tid)
      requires Valid() && Inv(State()) && t in threads && threads[t].stat == Init && threads[t].initPrio < PRIORITIES
      modifies this, table
      ensures Valid() && State() == old(KernelSpec.Schedule(KernelSpec.Startup(State(), t)))
    {
      StartupKeeps(State(), t);
      Begin(t);
      Schedule();
    }

    method Begin(t: Tid)
      requires Valid() && t in threads && threads[t].initPrio < PRIORITIES
      modifies this, table
      ensures Valid() && State() == old(KernelSpec.Startup(State(), t))
    {
      Prepare(t);
      var ok := Resume(t);
    }

    /** The part of it in front of rt_thread_resume. */
    method Prepare(t: Tid)
      requires Valid() && t in threads && threads[t].initPrio < PRIORITIES
      modifies this`threads
      ensures Valid() && State() == old(KernelSpec.Prepare(State(), t))
    {
      var c := threads[t];
      threads := threads[t := c.(prio := c.initPrio, base := c.initPrio)];
      threads := threads[t := threads[t].(stat := Suspended)];
    }

    /** rt_thread_control with RT_THREAD_CTRL_CHANGE_PRIORITY */
    method ChangePriority(t: Tid, p: nat)
      requires Valid() && t in threads && p < PRIORITIES
      modifies this, table
      ensures Valid() && State() == old(KernelSpec.ChangePriority(State(), t, p))
    {
      if threads[t].stat == Ready {
        RemoveThread(t);
        threads := threads[t := threads[t].(prio := p)];
        InsertThread(t);
      } else {
        threads := threads[t := threads[t].(prio := p)];
      }
    }

    /** rt_thread_exit */
    method Exit()
      requires Valid() && Inv(State()) && threads[current].stat == Running
      modifies this, table
      ensures Valid() && State() == old(KernelSpec.Exit(State()))
    {
      ghost var d := threads[current].(stat := Closed, yielding := false, timer := false);
      ghost var k1 := Set(KernelSpec.RemoveThread(State(), current), current, d);
      RemoveInv(State(), current, d);
      RemoveThread(current);
      threads := threads[current := threads[current].(stat := Closed, yielding := false, timer := false)];
      assert State() == k1;
      Schedule();
    }

    // ----- tick and lock

    /** rt_tick_increase */
    method TickIncrease()
      requires Valid() && SchedInv(State())
      modifies this, table
      ensures Valid() && State() == old(Tick(State()))
    {
      var c := threads[current];
      var d := c.(remTick := c.initTick, yielding := true);
      SetInv(State(), current, d);
      threads := threads[current := c.(remTick := OneLess(c.remTick))];
      if threads[current].remTick == 0 {
        threads := threads[current := threads[current].(remTick := c.initTick)];
        threads := threads[current := threads[current].(yielding := true)];
        assert State() == old(Set(State(), current, d));
        Schedule();
      }
    }

    method EnterCritical()
      requires Valid()
      modifies this`lockNest
      ensures Valid() && State() == old(KernelSpec.EnterCritical(State()))
    {
      lockNest := lockNest + 1;
    }

    /** rt_exit_critical */
    method ExitCritical()
      requires Valid() && Inv(State())
      modifies this, table
      ensures Valid() && State() == old(KernelSpec.ExitCritical(State()))
    {
      LockKeeps(State(), 0);
      lockNest := lockNest - 1;
      if lockNest <= 0 {
        lockNest := 0;
        Schedule();
      }
    }

    // ----- mutexes

    /** The place rt_ipc_list_suspend finds for a thread in a wait list. */
    lemma WalkOn(k: Kernel, q: seq<Tid>, n: nat, t: Tid, p: nat)
      requires n < |q| && q[n] in k.threads
      ensures var r := Enqueue(k, q[n..], t, p, Prio);
        if p < k.threads[q[n]].prio then q[..n] + r == q[..n] + [t] + q[n..]
        else q[..n] + r == q[..n + 1] + Enqueue(k, q[n + 1..], t, p, Prio)
    {
      assert q[..n + 1] == q[..n] + [q[n]] && q[n..][1..] == q[n + 1..];
    }

    method FindPlace(q: seq<Tid>, t: Tid, flag: Flag) returns (r: seq<Tid>)
      requires Valid() && t in threads && forall w :: w in q ==> w in threads
      ensures r == Enqueue(State(), q, t, threads[t].prio, flag)
    {
      match flag
      case Fifo =>
        FifoEnqueue(State(), q, t, threads[t].prio);
        return q + [t];
      case Prio =>
        var n := 0;
        while n < |q|
          invariant 0 <= n <= |q|
          invariant Enqueue(State(), q, t, threads[t].prio, Prio) == q[..n] + Enqueue(State(), q[n..], t, threads[t].prio, Prio)
        {
          assert q[n] in q;
          WalkOn(State(), q, n, t, threads[t].prio);
          if threads[t].prio < threads[q[n]].prio {
            return q[..n] + [t] + q[n..];
          }
          n := n + 1;
        }
        assert q[n..] == [] && q[..n] == q;
        return q + [t];
    }

    /** The owner inherits a more urgent priority. */
    method Lend(m: Mid)
      requires Valid() && m in mutexes && mutexes[m].owner.By? && mutexes[m].owner.thread in threads
      modifies this, table
      ensures Valid() && State() == old(Inherit(State(), m))
    {
      var o := mutexes[m].owner.thread;
      if threads[current].prio < threads[o].prio {
        ChangePriority(o, threads[current].prio);
      }
    }

    /** The part of rt_mutex_take that gives up for now. */
    method Block(m: Mid, time: int)
      requires Valid() && Inv(State()) && m in mutexes && mutexes[m].owner.By? && mutexes[m].owner != By(current) && threads[current].stat == Running
      modifies this, table
      ensures Valid() && State() == old(KernelSpec.Block(State(), m, time))
    {
      var t := current;
      assert MutexOk(State(), mutexes[m]);
      InheritKeeps(State(), m);
      Lend(m);
      var ok := Suspend(t);
      Queue(m, time);
    }

    /** The caller, suspended, goes into the wait list. */
    method Queue(m: Mid, time: int)
      requires Valid() && m in mutexes && forall w :: w in mutexes[m].waiters ==> w in threads
      modifies this`threads, this`mutexes
      ensures Valid()
      ensures State() == old(
        var k, x, t := State(), mutexes[m], current;
        SetMutex(Set(k, t, k.threads[t].(timer := time > 0, call := Taking(m, false))), m,
                 x.(waiters := Enqueue(k, x.waiters, t, k.threads[t].prio, x.flag))))
    {
      var t := current;
      var q := FindPlace(mutexes[m].waiters, t, mutexes[m].flag);
      threads := threads[t := threads[t].(timer := time > 0, call := Taking(m, false))];
      mutexes := mutexes[m := mutexes[m].(waiters := q)];
    }

    /** rt_mutex_take up to its rt_schedule */
    method MutexTake(m: Mid, time: int) returns (outcome: Outcome)
      requires Valid() && Inv(State()) && Legal(State(), DoTake(m, time))
      modifies this, table
      ensures Valid() && (State(), outcome) == old(TakeEnter(State(), m, time))
    {
      SetKeeps(State(), current, threads[current].(error := EOK));
      threads := threads[current := threads[current].(error := EOK)];
      outcome := Attempt(m, time);
    }

    method Attempt(m: Mid, time: int) returns (outcome: Outcome)
      requires Valid() && Inv(State()) && m in mutexes && threads[current].stat == Running
      modifies this, table
      ensures Valid() && (State(), outcome) == old(TryTake(State(), m, time))
    {
      assert MutexOk(State(), mutexes[m]);
      var x := mutexes[m];
      if x.owner == By(current) {
        mutexes := mutexes[m := x.(hold := x.hold + 1)];
        return Returns(EOK);
      }
      if x.value > 0 {
        mutexes := mutexes[m := x.(value := x.value - 1, owner := By(current), origPrio := threads[current].prio, hold := x.hold + 1)];
        return Returns(EOK);
      }
      if time == 0 {
        threads := threads[current := threads[current].(error := ETIMEOUT)];
        return Returns(ETIMEOUT);
      }
      Block(m, time);
      return Waits;
    }

    /** The first waiter gets the mutex and becomes ready. */
    method PassOn(m: Mid)
      requires Valid() && m in mutexes && mutexes[m].waiters != [] && mutexes[m].waiters[0] in threads && mutexes[m].hold == 0
      modifies this, table
      ensures Valid() && State() == old(HandOver(State(), m, mutexes[m].waiters[0]))
    {
      var t, x := mutexes[m].waiters[0], mutexes[m];
      mutexes := mutexes[m := x.(owner := By(t), origPrio := threads[t].prio, hold := x.hold + 1)];
      var ok := Resume(t);
    }

    /** rt_mutex_release up to its rt_schedule; whether one is due */
    method MutexRelease(m: Mid) returns (error: Error, needSchedule: bool)
      requires Valid() && Inv(State()) && Legal(State(), DoRelease(m))
      modifies this, table
      ensures Valid() && (State(), error, needSchedule) == old(Release(State(), m))
    {
      assert MutexOk(State(), mutexes[m]);
      if mutexes[m].owner != By(current) {
        threads := threads[current := threads[current].(error := ERROR)];
        return ERROR, false;
      }
      if mutexes[m].hold != 1 {
        mutexes := mutexes[m := mutexes[m].(hold := mutexes[m].hold - 1)];
        return EOK, false;
      }
      needSchedule := GiveUp(m);
      error := EOK;
    }

    method Restore(p: nat)
      requires Valid() && p < PRIORITIES
      modifies this, table
      ensures Valid() && State() == old(Restored(State(), p))
    {
      if p != threads[current].prio { ChangePriority(current, p); }
    }

    /** The owner's last release: first its priority, then the mutex. */
    method GiveUp(m: Mid) returns (needSchedule: bool)
      requires Valid() && m in mutexes && MutexOk(State(), mutexes[m]) && mutexes[m].owner == By(current) && mutexes[m].hold == 1
      modifies this, table
      ensures Valid() && (State(), needSchedule) == old(KernelSpec.GiveUp(State(), m))
    {
      var x := mutexes[m];
      ghost var k := State();
      assert x.waiters != [] ==> x.waiters[0] in x.waiters;
      Restore(x.origPrio);
      assert State() == Restored(k, x.origPrio) && mutexes[m] == x && threads.Keys == k.threads.Keys;
      needSchedule := x.waiters != [];
      Dispose(m);
    }

    /** The mutex goes to the first waiter, or to nobody. */
    method Dispose(m: Mid)
      requires Valid() && m in mutexes && (mutexes[m].waiters != [] ==> mutexes[m].waiters[0] in threads)
      modifies this, table
      ensures Valid()
      ensures State() == old(var x := mutexes[m];
                             if x.waiters != [] then HandOver(State(), m, x.waiters[0])
                             else SetMutex(State(), m, x.(hold := 0, value := x.value + 1, owner := Nobody, origPrio := NO_PRIORITY)))
    {
      var x := mutexes[m];
      if x.waiters != [] {
        HandOverHold(State(), m, x.waiters[0]);
        mutexes := mutexes[m := x.(hold := 0)];
        PassOn(m);
      } else {
        mutexes := mutexes[m := x.(hold := 0, value := x.value + 1, owner := Nobody, origPrio := NO_PRIORITY)];
      }
    }
  }
}
