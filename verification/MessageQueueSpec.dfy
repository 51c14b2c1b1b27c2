/** Message queues (ipc.c) as a step machine. A send takes a free slot in one critical section,
    fills it byte by byte with interrupts open, and links it in a second one; a receive unlinks,
    copies and frees in the same way. Steps of all threads interleave freely. */
module MessageQueueSpec {
  import opened Sequences

  type Tid = nat
  type Slot = nat
  type Byte = bv8
  type Bytes = seq<Byte>

  datatype Error = EOK | ERROR | ETIMEOUT | EFULL

  /** Where a thread stands in a call on the queue. A thread that waits is on one of the two lists;
      one that is off it again was resumed, timed out or reset, as `error` says. */
  datatype Pc =
    | Idle
    | SendWaits(buffer: Bytes, forever: bool, error: Error)
    | SendCopies(slot: Slot, buffer: Bytes, done: nat, urgent: bool)
    | RecvWaits(size: nat, forever: bool, error: Error)
    | RecvCopies(slot: Slot, size: nat, got: Bytes)

  /** `free` and `queue` are the two chains of slots from their heads on. */
  datatype Queue = Queue(msgSize: nat, slots: seq<Bytes>, free: seq<Slot>, queue: seq<Slot>, entry: nat,
                         receivers: seq<Tid>, senders: seq<Tid>, threads: map<Tid, Pc>)

  datatype Outcome = Returns(error: Error) | Delivers(data: Bytes) | Goes

  function At(q: Queue, t: Tid, pc: Pc): Queue { q.(threads := q.threads[t := pc]) }

  /** rt_ipc_list_resume: the first of a wait list goes on, with no error. */
  function ResumeReceiver(q: Queue): Queue { if q.receivers == [] then q else q.(receivers := q.receivers[1..]) }

  function ResumeSender(q: Queue): Queue { if q.senders == [] then q else q.(senders := q.senders[1..]) }

  // ----- rt_mq_init

  function Countdown(n: nat): seq<Slot> { if n == 0 then [] else [n - 1] + Countdown(n - 1) }

  /** `pool` is the content of the message pool, slot by slot. */
  function Init(msgSize: nat, pool: seq<Bytes>): Queue {
    Queue(msgSize, pool, Countdown(|pool|), [], 0, [], [], map[])
  }

  // ----- rt_mq_send_wait and rt_mq_urgent

  /** The first critical section, on entry and after every wait. */
  function SendTry(q: Queue, t: Tid, buffer: Bytes, forever: bool, expired: bool, urgent: bool, place: nat): (Queue, Outcome) {
    if q.free != [] then (At(q, t, SendCopies(q.free[0], buffer, 0, urgent)).(free := q.free[1..]), Goes)
    else if expired || urgent then (At(q, t, Idle), Returns(EFULL))
    else (At(q, t, SendWaits(buffer, forever, EOK)).(senders := Insert(q.senders, place, t)), Goes)
  }

  /** A message longer than a slot is refused at once. */
  function Send(q: Queue, t: Tid, buffer: Bytes, forever: bool, expired: bool, urgent: bool, place: nat): (Queue, Outcome) {
    if |buffer| > q.msgSize then (At(q, t, Idle), Returns(ERROR)) else SendTry(q, t, buffer, forever, expired, urgent, place)
  }

  function SendRetry(q: Queue, t: Tid, expired: bool, place: nat): (Queue, Outcome)
    requires t in q.threads && q.threads[t].SendWaits?
  {
    var pc := q.threads[t];
    if pc.error != EOK then (At(q, t, Idle), Returns(pc.error))
    else SendTry(q, t, pc.buffer, pc.forever, expired && !pc.forever, false, place)
  }

  /** One byte of the copy into the slot. */
  function SendByte(q: Queue, t: Tid): Queue
    requires t in q.threads && q.threads[t].SendCopies?
  {
    var pc := q.threads[t];
    if pc.slot < |q.slots| && pc.done < |q.slots[pc.slot]| && pc.done < |pc.buffer| then
      At(q, t, pc.(done := pc.done + 1)).(slots := q.slots[pc.slot := q.slots[pc.slot][pc.done := pc.buffer[pc.done]]])
    else q
  }

  /** The second critical section. */
  function SendLink(q: Queue, t: Tid): (Queue, Outcome)
    requires t in q.threads && q.threads[t].SendCopies?
  {
    var pc := q.threads[t];
    var chain := if pc.urgent then [pc.slot] + q.queue else q.queue + [pc.slot];
    (ResumeReceiver(At(q, t, Idle).(queue := chain, entry := q.entry + 1)), Returns(EOK))
  }

  // ----- rt_mq_recv

  function RecvTry(q: Queue, t: Tid, size: nat, forever: bool, expired: bool, place: nat): (Queue, Outcome) {
    if q.entry > 0 && q.queue != [] then
      (At(q, t, RecvCopies(q.queue[0], size, [])).(queue := q.queue[1..], entry := q.entry - 1), Goes)
    else if expired then (At(q, t, Idle), Returns(ETIMEOUT))
    else (At(q, t, RecvWaits(size, forever, EOK)).(receivers := Insert(q.receivers, place, t)), Goes)
  }

  function RecvRetry(q: Queue, t: Tid, expired: bool, place: nat): (Queue, Outcome)
    requires t in q.threads && q.threads[t].RecvWaits?
  {
    var pc := q.threads[t];
    if pc.error != EOK then (At(q, t, Idle), Returns(pc.error))
    else RecvTry(q, t, pc.size, pc.forever, expired && !pc.forever, place)
  }

  /** How much is copied: no more than a slot holds. */
  function Length(q: Queue, size: nat): nat { if size > q.msgSize then q.msgSize else size }

  function RecvByte(q: Queue, t: Tid): Queue
    requires t in q.threads && q.threads[t].RecvCopies?
  {
    var pc := q.threads[t];
    if pc.slot < |q.slots| && |pc.got| < |q.slots[pc.slot]| then At(q, t, pc.(got := pc.got + [q.slots[pc.slot][|pc.got|]])) else q
  }

  function RecvFree(q: Queue, t: Tid): (Queue, Outcome)
    requires t in q.threads && q.threads[t].RecvCopies?
  {
    var pc := q.threads[t];
    (ResumeSender(At(q, t, Idle).(free := [pc.slot] + q.free)), Delivers(pc.got))
  }

  // ----- interrupts and control

  /** rt_ipc_list_resume_all, rt_thread_timeout and rt_thread_resume on threads of the lists. */
  function Fail(pc: Pc, e: Error): Pc {
    match pc
    case SendWaits(b, f, _) => SendWaits(b, f, e)
    case RecvWaits(s, f, _) => RecvWaits(s, f, e)
    case _ => pc
  }

  function Timeout(q: Queue, t: Tid): Queue
    requires t in q.threads
  {
    At(q, t, Fail(q.threads[t], ETIMEOUT)).(receivers := Remove(q.receivers, t), senders := Remove(q.senders, t))
  }

  function Resume(q: Queue, t: Tid): Queue { q.(receivers := Remove(q.receivers, t), senders := Remove(q.senders, t)) }

  function Reversed(s: seq<Slot>): seq<Slot> { if s == [] then [] else Reversed(s[1..]) + [s[0]] }

  /** rt_mq_control with RT_IPC_CMD_RESET: everybody waiting fails, every queued slot is pushed
      on the free chain; slots in flight stay with their threads. */
  function Reset(q: Queue): Queue {
    q.(receivers := [], senders := [], queue := [], entry := 0, free := Reversed(q.queue) + q.free,
       threads := map t | t in q.threads :: if t in q.receivers || t in q.senders then Fail(q.threads[t], ERROR) else q.threads[t])
  }

  // ----- steps

  datatype Step =
    | DoSend(t: Tid, buffer: Bytes, forever: bool, expired: bool, urgent: bool, place: nat)
    | DoSendRetry(t: Tid, expired: bool, place: nat) | DoSendByte(t: Tid) | DoSendLink(t: Tid)
    | DoRecv(t: Tid, size: nat, forever: bool, expired: bool, place: nat)
    | DoRecvRetry(t: Tid, expired: bool, place: nat) | DoRecvByte(t: Tid) | DoRecvFree(t: Tid)
    | DoTimeout(t: Tid) | DoResume(t: Tid) | DoReset

  predicate Waiting(q: Queue, t: Tid) { t in q.receivers || t in q.senders }

  /** The call goes on while its thread is on a list: its rt_schedule found the scheduler locked, or nothing else
      ready. */
  predicate InVain(q: Queue, s: Step) { (s.DoSendRetry? || s.DoRecvRetry?) && Waiting(q, s.t) }

  /** `expired` on entry is a timeout of zero; on a retry, that the recomputed timeout is zero. */
  predicate Legal(q: Queue, s: Step) {
    match s
    case DoSend(t, buffer, forever, expired, _, _) =>
      (t in q.threads ==> q.threads[t].Idle?) && 0 < |buffer| && !(forever && expired)
    case DoSendRetry(t, _, _) => t in q.threads && q.threads[t].SendWaits?
    case DoSendByte(t) => t in q.threads && q.threads[t].SendCopies? && q.threads[t].done < |q.threads[t].buffer|
    case DoSendLink(t) => t in q.threads && q.threads[t].SendCopies? && q.threads[t].done == |q.threads[t].buffer|
    case DoRecv(t, size, forever, expired, _) => (t in q.threads ==> q.threads[t].Idle?) && size > 0 && !(forever && expired)
    case DoRecvRetry(t, _, _) => t in q.threads && q.threads[t].RecvWaits?
    case DoRecvByte(t) => t in q.threads && q.threads[t].RecvCopies? && |q.threads[t].got| < Length(q, q.threads[t].size)
    case DoRecvFree(t) => t in q.threads && q.threads[t].RecvCopies? && |q.threads[t].got| == Length(q, q.threads[t].size)
    case DoTimeout(t) => t in q.threads && Waiting(q, t) && (q.threads[t].SendWaits? || q.threads[t].RecvWaits?) && !q.threads[t].forever
    case DoResume(t) => t in q.threads && Waiting(q, t)
    case DoReset => true
  }

  function Apply(q: Queue, s: Step): (Queue, Outcome)
    requires Legal(q, s)
  {
    match s
    case DoSend(t, buffer, forever, expired, urgent, place) => Send(q, t, buffer, forever, expired, urgent, place)
    case DoSendRetry(t, expired, place) => SendRetry(q, t, expired, place)
    case DoSendByte(t) => (SendByte(q, t), Goes)
    case DoSendLink(t) => SendLink(q, t)
    case DoRecv(t, size, forever, expired, place) => RecvTry(q, t, size, forever, expired, place)
    case DoRecvRetry(t, expired, place) => RecvRetry(q, t, expired, place)
    case DoRecvByte(t) => (RecvByte(q, t), Goes)
    case DoRecvFree(t) => RecvFree(q, t)
    case DoTimeout(t) => (Timeout(q, t), Goes)
    case DoResume(t) => (Resume(q, t), Goes)
    case DoReset => (Reset(q), Goes)
  }
}
