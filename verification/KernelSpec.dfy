/** The uniprocessor kernel core as a step machine: ready queues and scheduler (scheduler.c),
    thread states (thread.c), tick (clock.c) and mutexes with priority inheritance (ipc.c).
    A step is one region run with interrupts disabled; a call that opens them in between is several
    steps. Smaller numbers are more urgent. */
module KernelSpec {
  import opened Arithmetic
  import opened Sequences

  const PRIORITIES: nat := 32         // RT_THREAD_PRIORITY_MAX
  const NO_PRIORITY: nat := 0xFF

  type Tid = nat
  type Mid = nat

  datatype Stat = Init | Ready | Running | Suspended | Closed
  datatype Error = EOK | ERROR | ETIMEOUT

  /** Where a thread stands: in application code, or inside rt_mutex_take having joined the
      wait list; `scheduled` once its own rt_schedule call is behind it. */
  datatype Call = App | Taking(mutex: Mid, scheduled: bool)

  /** `timer` is whether the thread timer runs. `base` is no field of the source: it is the
      priority the application last gave the thread, whatever it inherited since. */
  datatype Tcb = Tcb(stat: Stat, yielding: bool, prio: nat, initPrio: nat, initTick: nat, remTick: nat,
                     error: Error, timer: bool, call: Call, base: nat)

  datatype Flag = Fifo | Prio
  datatype Owner = Nobody | By(thread: Tid)
  datatype Mutex = Mutex(flag: Flag, value: nat, owner: Owner, origPrio: nat, hold: nat, waiters: seq<Tid>)

  /** What a call of rt_thread_resume or rt_thread_suspend that has tested the state of the thread will do
      to it once interrupts are off again, or, for Inserts, on again and off again. */
  datatype Gap = Unlinks(thread: Tid) | Inserts(thread: Tid) | Suspends(thread: Tid, caller: Tid)

  /** `group` is rt_thread_ready_priority_group as the set of its bits; `open` are the calls interrupted
      between two regions. */
  datatype Kernel = Kernel(threads: map<Tid, Tcb>, ready: seq<seq<Tid>>, group: set<nat>,
                           current: Tid, lock: int, mutexes: map<Mid, Mutex>, open: multiset<Gap>)

  // ----- ready queues

  predicate Sane(k: Kernel) {
    |k.ready| == PRIORITIES && k.current in k.threads && forall t :: t in k.threads ==> k.threads[t].prio < PRIORITIES
  }

  /** The same threads and mutexes, at priorities within range. */
  predicate Same(k: Kernel, r: Kernel) { Sane(r) && r.threads.Keys == k.threads.Keys && r.mutexes.Keys == k.mutexes.Keys }

  function Set(k: Kernel, t: Tid, c: Tcb): Kernel { k.(threads := k.threads[t := c]) }

  /** rt_schedule_insert_thread */
  function InsertThread(k: Kernel, t: Tid): (r: Kernel)
    requires Sane(k) && t in k.threads
    ensures Same(k, r) && r.current == k.current
  {
    var c := k.threads[t];
    if t == k.current then Set(k, t, c.(stat := Running))
    else
      Set(k, t, c.(stat := Ready)).(ready := k.ready[c.prio := k.ready[c.prio] + [t]], group := k.group + {c.prio})
  }

  /** rt_schedule_remove_thread */
  function RemoveThread(k: Kernel, t: Tid): (r: Kernel)
    requires Sane(k) && t in k.threads
    ensures Same(k, r) && r.current == k.current
  {
    var p := k.threads[t].prio;
    var q := Remove(k.ready[p], t);
    k.(ready := k.ready[p := q], group := if q == [] then k.group - {p} else k.group)
  }

  /** __rt_ffs, less one: the smallest priority whose bit is set. */
  function Highest(group: set<nat>, from: nat): nat
    decreases PRIORITIES - from
  {
    if from >= PRIORITIES || from in group then from else Highest(group, from + 1)
  }

  /** What the running thread does when `p` is the most urgent ready priority. */
  predicate Stays(c: Tcb, p: nat) {
    c.stat == Running && (c.prio < p || (c.prio == p && !c.yielding))
  }

  /** rt_schedule */
  function Schedule(k: Kernel): (r: Kernel)
    requires Sane(k)
    ensures Same(k, r)
  {
    var p := Highest(k.group, 0);
    if k.lock != 0 || p >= PRIORITIES || k.ready[p] == [] || k.ready[p][0] !in k.threads then k
    else if Stays(k.threads[k.current], p) then Set(RemoveThread(k, k.current), k.current, k.threads[k.current])
    else SwitchTo(k, k.ready[p][0])
  }

  /** The switch: a thread that was running goes back to its queue. */
  function SwitchTo(k: Kernel, to: Tid): (r: Kernel)
    requires Sane(k) && to in k.threads
    ensures Same(k, r)
  {
    var c := k.threads[k.current];
    var k1 := if c.stat == Running then InsertThread(Set(k, k.current, c.(yielding := false)).(current := to), k.current)
              else k.(current := to);
    var k2 := RemoveThread(k1, to);
    Set(k2, to, k2.threads[to].(stat := Running))
  }

  // ----- threads

  /** rt_list_remove of the node of `t`, whichever wait list it is in */
  function Detach(k: Kernel, t: Tid): Kernel {
    k.(mutexes := map m | m in k.mutexes :: k.mutexes[m].(waiters := Remove(k.mutexes[m].waiters, t)))
  }

  /** rt_thread_suspend, run with interrupts disabled throughout */
  function Suspend(k: Kernel, t: Tid): (r: Kernel)
    requires Sane(k) && t in k.threads
    ensures Same(k, r) && r.current == k.current
  {
    var c := k.threads[t];
    if c.stat != Ready && c.stat != Running then k
    else Set(RemoveThread(k, t), t, c.(stat := Suspended, timer := false))
  }

  /** rt_thread_sleep, up to its rt_schedule */
  function Sleep(k: Kernel): (r: Kernel)
    requires Sane(k)
    ensures Same(k, r) && r.current == k.current
  {
    var r := Suspend(k, k.current);
    Set(r, k.current, r.threads[k.current].(timer := true))
  }

  /** rt_thread_resume, run with interrupts disabled throughout */
  function Resume(k: Kernel, t: Tid): (r: Kernel)
    requires Sane(k) && t in k.threads
    ensures Same(k, r) && r.current == k.current
  {
    var c := k.threads[t];
    if c.stat != Suspended then k else InsertThread(Set(Detach(k, t), t, c.(timer := false)), t)
  }

  /** The test of rt_thread_resume. */
  function ResumeTest(k: Kernel, t: Tid): (r: Kernel)
    requires Sane(k) && t in k.threads
    ensures Same(k, r)
  {
    if k.threads[t].stat != Suspended then k else k.(open := k.open + multiset{Unlinks(t)})
  }

  /** The node leaves the list it is in, whichever that is, and the timer stops. */
  function Unlink(k: Kernel, t: Tid): (r: Kernel)
    requires Sane(k) && t in k.threads
    ensures Same(k, r) && r.current == k.current
  {
    var c := k.threads[t];
    Set(Detach(k, t), t, c.(timer := false)).(ready := k.ready[c.prio := Remove(k.ready[c.prio], t)])
  }

  /** The test of rt_thread_suspend. */
  function SuspendTest(k: Kernel, t: Tid): (r: Kernel)
    requires Sane(k) && t in k.threads
    ensures Same(k, r)
  {
    if k.threads[t].stat != Ready && k.threads[t].stat != Running then k else k.(open := k.open + multiset{Suspends(t, k.current)})
  }

  /** The node leaves whichever list it is in, and the group bit goes with the last of its priority. */
  function Withdraw(k: Kernel, t: Tid): (r: Kernel)
    requires Sane(k) && t in k.threads
    ensures Same(k, r) && r.current == k.current
  {
    Set(RemoveThread(Detach(k, t), t), t, k.threads[t].(stat := Suspended, timer := false))
  }

  /** rt_thread_timeout, up to its rt_schedule */
  function Timeout(k: Kernel, t: Tid): (r: Kernel)
    requires Sane(k) && t in k.threads
    ensures Same(k, r) && r.current == k.current
  {
    InsertThread(Set(Detach(k, t), t, k.threads[t].(error := ETIMEOUT, timer := false)), t)
  }

  /** rt_thread_startup, up to its rt_thread_resume */
  function Prepare(k: Kernel, t: Tid): (r: Kernel)
    requires Sane(k) && t in k.threads && k.threads[t].initPrio < PRIORITIES
    ensures Same(k, r) && r.current == k.current
  {
    var c := k.threads[t];
    Set(k, t, c.(prio := c.initPrio, base := c.initPrio, stat := Suspended))
  }

  /** rt_thread_startup, up to its rt_schedule, if nothing gets in between */
  function Startup(k: Kernel, t: Tid): (r: Kernel)
    requires Sane(k) && t in k.threads && k.threads[t].initPrio < PRIORITIES
    ensures Same(k, r) && r.current == k.current
  {
    Resume(Prepare(k, t), t)
  }

  /** rt_thread_control with RT_THREAD_CTRL_CHANGE_PRIORITY */
  function ChangePriority(k: Kernel, t: Tid, p: nat): (r: Kernel)
    requires Sane(k) && t in k.threads && p < PRIORITIES
    ensures Same(k, r) && r.current == k.current
  {
    var c := k.threads[t];
    if c.stat == Ready then InsertThread(Set(RemoveThread(k, t), t, c.(prio := p)), t)
    else Set(k, t, c.(prio := p))
  }

  /** rt_thread_exit */
  function Exit(k: Kernel): (r: Kernel)
    requires Sane(k)
    ensures Same(k, r)
  {
    var c := k.threads[k.current];
    Schedule(Set(RemoveThread(k, k.current), k.current, c.(stat := Closed, yielding := false, timer := false)))
  }

  /** Decrement of an unsigned tick count. */
  function OneLess(ticks: nat): nat { (ticks + WRAP - 1) % WRAP }

  /** rt_tick_increase, without the timer list */
  function Tick(k: Kernel): (r: Kernel)
    requires Sane(k)
    ensures Same(k, r)
  {
    var c := k.threads[k.current];
    var left := OneLess(c.remTick);
    if left != 0 then Set(k, k.current, c.(remTick := left))
    else Schedule(Set(k, k.current, c.(remTick := c.initTick, yielding := true)))
  }

  function EnterCritical(k: Kernel): Kernel { k.(lock := k.lock + 1) }

  function ExitCritical(k: Kernel): (r: Kernel)
    requires Sane(k)
    ensures Same(k, r)
  {
    if k.lock - 1 <= 0 then Schedule(k.(lock := 0)) else k.(lock := k.lock - 1)
  }

  // ----- mutexes

  /** rt_ipc_list_suspend: where a thread of priority `p` goes in the wait list. */
  function Enqueue(k: Kernel, q: seq<Tid>, t: Tid, p: nat, flag: Flag): seq<Tid>
    decreases |q|
  {
    if q == [] then [t]
    else if flag == Prio && q[0] in k.threads && p < k.threads[q[0]].prio then [t] + q
    else [q[0]] + Enqueue(k, q[1..], t, p, flag)
  }

  /** The owner inherits the priority of a more urgent taker. */
  function Inherit(k: Kernel, m: Mid): (r: Kernel)
    requires Sane(k) && m in k.mutexes
    ensures Same(k, r) && r.current == k.current
  {
    var o := k.mutexes[m].owner;
    if o.By? && o.thread in k.threads && k.threads[k.current].prio < k.threads[o.thread].prio
    then ChangePriority(k, o.thread, k.threads[k.current].prio) else k
  }

  function SetMutex(k: Kernel, m: Mid, x: Mutex): Kernel { k.(mutexes := k.mutexes[m := x]) }

  /** The contended take: the current thread leaves for the wait list. */
  function Block(k: Kernel, m: Mid, time: int): (r: Kernel)
    requires Sane(k) && m in k.mutexes
    ensures Same(k, r) && r.current == k.current
  {
    var t := k.current;
    var k1 := Suspend(Inherit(k, m), t);
    var x := k.mutexes[m];
    var q := Enqueue(k1, x.waiters, t, k.threads[t].prio, x.flag);
    SetMutex(Set(k1, t, k1.threads[t].(timer := time > 0, call := Taking(m, false))), m, x.(waiters := q))
  }

  /** The thread becomes the owner of a mutex nobody holds. */
  function Acquire(k: Kernel, m: Mid): (r: Kernel)
    requires Sane(k) && m in k.mutexes && k.mutexes[m].value > 0
    ensures Same(k, r) && r.current == k.current
  {
    var x := k.mutexes[m];
    SetMutex(k, m, x.(value := x.value - 1, owner := By(k.current), origPrio := k.threads[k.current].prio, hold := x.hold + 1))
  }

  function ResetError(k: Kernel): (r: Kernel)
    requires Sane(k)
    ensures Same(k, r) && r.current == k.current
  {
    Set(k, k.current, k.threads[k.current].(error := EOK))
  }

  /** rt_mutex_take up to its rt_schedule; `time` is 0 for no waiting, negative for ever.
      The result is what the call returns at once, if it does. */
  datatype Outcome = Returns(error: Error) | Waits

  function TakeEnter(k: Kernel, m: Mid, time: int): (r: (Kernel, Outcome))
    requires Sane(k) && m in k.mutexes
    ensures Same(k, r.0)
  {
    TryTake(ResetError(k), m, time)
  }

  function TryTake(k: Kernel, m: Mid, time: int): (r: (Kernel, Outcome))
    requires Sane(k) && m in k.mutexes
    ensures Same(k, r.0)
  {
    var x := k.mutexes[m];
    if x.owner == By(k.current) then (SetMutex(k, m, x.(hold := x.hold + 1)), Returns(EOK))
    else if x.value > 0 then (Acquire(k, m), Returns(EOK))
    else if time == 0 then (Set(k, k.current, k.threads[k.current].(error := ETIMEOUT)), Returns(ETIMEOUT))
    else (Block(k, m, time), Waits)
  }

  /** The rt_schedule of the blocked rt_mutex_take. */
  function TakeSchedule(k: Kernel): (r: Kernel)
    requires Sane(k) && k.threads[k.current].call.Taking?
    ensures Same(k, r)
  {
    var c := k.threads[k.current];
    Schedule(Set(k, k.current, c.(call := Taking(c.call.mutex, true))))
  }

  /** The blocked rt_mutex_take returns. */
  function TakeReturn(k: Kernel): (r: (Kernel, Error))
    requires Sane(k)
    ensures Same(k, r.0)
  {
    var c := k.threads[k.current];
    (Set(k, k.current, c.(call := App)), c.error)
  }

  /** rt_mutex_release up to its rt_schedule; whether one is due. */
  function Release(k: Kernel, m: Mid): (r: (Kernel, Error, bool))
    requires Sane(k) && m in k.mutexes && (k.mutexes[m].owner.By? ==> k.mutexes[m].origPrio < PRIORITIES)
    ensures Same(k, r.0)
  {
    var x := k.mutexes[m];
    if x.owner != By(k.current) then (Set(k, k.current, k.threads[k.current].(error := ERROR)), ERROR, false)
    else if x.hold != 1 then (SetMutex(k, m, x.(hold := if x.hold == 0 then 255 else x.hold - 1)), EOK, false)
    else
      var (r, due) := GiveUp(k, m);
      (r, EOK, due)
  }

  /** The priority recorded at the take comes back. */
  function Restored(k: Kernel, p: nat): (r: Kernel)
    requires Sane(k) && p < PRIORITIES
    ensures Same(k, r) && r.current == k.current
  {
    if p != k.threads[k.current].prio then ChangePriority(k, k.current, p) else k
  }

  /** The owner's last release. */
  function GiveUp(k: Kernel, m: Mid): (r: (Kernel, bool))
    requires Sane(k) && m in k.mutexes && k.mutexes[m].origPrio < PRIORITIES
    ensures Same(k, r.0)
  {
    var x := k.mutexes[m];
    var k1 := Restored(k, x.origPrio);
    if x.waiters != [] && x.waiters[0] in k.threads then (HandOver(k1, m, x.waiters[0]), true)
    else (SetMutex(k1, m, x.(hold := 0, value := x.value + 1, owner := Nobody, origPrio := NO_PRIORITY)), false)
  }

  /** The first waiter becomes the owner before it runs. */
  function HandOver(k: Kernel, m: Mid, t: Tid): (r: Kernel)
    requires Sane(k) && m in k.mutexes && t in k.threads
    ensures Same(k, r) && r.current == k.current
  {
    Resume(SetMutex(k, m, k.mutexes[m].(owner := By(t), origPrio := k.threads[t].prio, hold := 1)), t)
  }

  // ----- steps

  datatype Step =
    | DoPrepare(t: Tid) | DoSchedule | DoTick | DoEnterCritical | DoExitCritical | DoSleep
    | DoSuspendTest(t: Tid) | DoSuspend(t: Tid) | DoResumeTest(t: Tid) | DoUnlink(t: Tid) | DoInsert(t: Tid)
    | DoTimeout(t: Tid) | DoChangePriority(t: Tid, prio: nat) | DoExit
    | DoTake(m: Mid, time: int) | DoTakeSchedule | DoTakeReturn | DoRelease(m: Mid)

  /** The running thread is about to call into the kernel. */
  predicate AppRuns(k: Kernel)
    requires Sane(k)
  {
    k.threads[k.current].stat == Running && k.threads[k.current].call == App
  }

  /** What the source asserts or its notes demand. Interrupts may resume, time out, re-prioritise
      and reschedule at any point; the rest is done by the running thread. */
  predicate Legal(k: Kernel, s: Step)
    requires Sane(k)
  {
    var c := k.threads[k.current];
    match s
    case DoPrepare(t) => AppRuns(k) && t in k.threads && k.threads[t].stat == Init && k.threads[t].initPrio < PRIORITIES
    case DoSchedule => true
    case DoTick => true
    case DoEnterCritical => c.call == App
    case DoExitCritical => c.call == App
    case DoSleep => AppRuns(k)
    case DoSuspendTest(t) => AppRuns(k) && t in k.threads
    case DoSuspend(t) => AppRuns(k) && t in k.threads && Suspends(t, k.current) in k.open
    case DoResumeTest(t) => t in k.threads
    case DoUnlink(t) => t in k.threads && Unlinks(t) in k.open
    case DoInsert(t) => t in k.threads && Inserts(t) in k.open
    case DoTimeout(t) => t in k.threads && k.threads[t].stat == Suspended && k.threads[t].timer
    case DoChangePriority(t, p) => t in k.threads && p < PRIORITIES
    case DoExit => AppRuns(k)
    case DoTake(m, time) => AppRuns(k) && m in k.mutexes && k.mutexes[m].hold < 255
    case DoTakeSchedule => c.call.Taking? && !c.call.scheduled
    case DoTakeReturn => c.call.Taking? && c.call.scheduled
    case DoRelease(m) => AppRuns(k) && m in k.mutexes && (k.mutexes[m].owner.By? ==> k.mutexes[m].origPrio < PRIORITIES)
  }

  function Apply(k: Kernel, s: Step): (r: Kernel)
    requires Sane(k) && Legal(k, s)
    ensures Same(k, r)
  {
    match s
    case DoPrepare(t) => Prepare(k, t)
    case DoSchedule => Schedule(k)
    case DoTick => Tick(k)
    case DoEnterCritical => EnterCritical(k)
    case DoExitCritical => ExitCritical(k)
    case DoSleep => Sleep(k)
    case DoSuspendTest(t) => SuspendTest(k, t)
    case DoSuspend(t) => Finish(Withdraw(k, t), Suspends(t, k.current))
    case DoResumeTest(t) => ResumeTest(k, t)
    case DoUnlink(t) => GoOn(Unlink(k, t), Unlinks(t), Inserts(t))
    case DoInsert(t) => Finish(InsertThread(k, t), Inserts(t))
    case DoTimeout(t) => Timeout(k, t)
    case DoChangePriority(t, p) => Rebase(ChangePriority(k, t, p), t, p)
    case DoExit => Exit(k)
    case DoTake(m, time) => TakeEnter(k, m, time).0
    case DoTakeSchedule => TakeSchedule(k)
    case DoTakeReturn => TakeReturn(k).0
    case DoRelease(m) => Release(k, m).0
  }

  /** A call that was open is over, or goes on to its next region. */
  function Finish(k: Kernel, g: Gap): (r: Kernel)
    requires Sane(k)
    ensures Same(k, r)
  {
    k.(open := k.open - multiset{g})
  }

  function GoOn(k: Kernel, g: Gap, h: Gap): (r: Kernel)
    requires Sane(k)
    ensures Same(k, r)
  {
    k.(open := k.open - multiset{g} + multiset{h})
  }

  /** A priority the application gives becomes the base. */
  function Rebase(k: Kernel, t: Tid, p: nat): (r: Kernel)
    requires Sane(k) && t in k.threads
    ensures Same(k, r)
  {
    Set(k, t, k.threads[t].(base := p))
  }
}
