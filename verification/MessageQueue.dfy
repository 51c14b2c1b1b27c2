/** The message queue object of ipc.c: slots chained through their `next` links, with head, tail
    and free pointers, changed in place. */
module MessageQueues {
  import opened MessageQueueSpec
  import opened MessageQueueTheorems
  import opened Arithmetic
  import opened Sequences
  import opened WaitOrder

  const LINK: nat := 4               // sizeof(struct rt_mq_message)
  const NULL: int := -1

  /** The slots of `q`, in order, are what the links lead through from `first` to the end. */
  ghost predicate Chain(next: seq<int>, first: int, q: seq<Slot>)
    decreases |q|
  {
    if q == [] then first == NULL else first == q[0] && q[0] < |next| && Chain(next, next[q[0]], q[1..])
  }

  lemma {:induction false} ChainFrame(next: seq<int>, next': seq<int>, first: int, q: seq<Slot>)
    requires Chain(next, first, q) && |next'| == |next| && forall s :: s in q && s < |next| ==> next'[s] == next[s]
    ensures Chain(next', first, q)
    decreases |q|
  {
    if q != [] { ChainFrame(next, next', next[q[0]], q[1..]); }
  }

  lemma {:induction false} ChainAppend(next: seq<int>, next': seq<int>, first: int, q: seq<Slot>, s: Slot)
    requires Chain(next, first, q) && q != [] && Distinct(q) && s !in q && s < |next| == |next'|
    requires next'[s] == NULL && q[|q| - 1] < |next| && next'[q[|q| - 1]] == s
    requires forall i :: 0 <= i < |next| && i != s && i != q[|q| - 1] ==> next'[i] == next[i]
    ensures Chain(next', first, q + [s])
    decreases |q|
  {
    var r := q + [s];
    assert r[1..] == q[1..] + [s];
    if |q| == 1 {
      assert Chain(next', s, [s]) by { assert [s][1..] == []; }
    } else {
      assert q[1..][|q[1..]| - 1] == q[|q| - 1];
      TailSpec(q);
      ChainAppend(next, next', next[q[0]], q[1..], s);
    }
  }

  lemma {:induction false} ChainMembers(next: seq<int>, first: int, q: seq<Slot>)
    requires Chain(next, first, q)
    ensures forall s :: s in q ==> s < |next|
    decreases |q|
  {
    if q != [] {
      ChainMembers(next, next[q[0]], q[1..]);
      assert q == [q[0]] + q[1..];
    }
  }

  lemma OwnSlot(q: Queue, t: Tid)
    requires SlotInv(q) && t in q.threads && Copies(q.threads[t])
    ensures var s := q.threads[t].slot; s < |q.slots| && s !in q.free && s !in q.queue
  {
    assert HoldsAlone(q, t);
  }

  class MessageQueue {
    const byPriority: bool          // RT_IPC_FLAG_PRIO
    const msgSize: nat
    const data: array<Bytes>        // the payload of each slot
    const next: array<int>
    var head: int                   // msg_queue_head
    var tail: int                   // msg_queue_tail
    var free: int                   // msg_queue_free
    var entry: nat
    var receivers: seq<Tid>         // parent.suspend_thread
    var senders: seq<Tid>           // suspend_sender_thread
    var threads: map<Tid, Pc>
    ghost var freeChain: seq<Slot>
    ghost var queue: seq<Slot>

    ghost function State(): Queue
      reads this, data
    {
      Queue(msgSize, data[..], freeChain, queue, entry, receivers, senders, threads)
    }

    ghost predicate Links()
      reads this, next
    {
      && Chain(next[..], free, freeChain) && Chain(next[..], head, queue)
      && tail == (if queue == [] then NULL else queue[|queue| - 1])
    }

    ghost predicate Valid()
      reads this, data, next
    {
      next.Length == data.Length && Links() && SlotInv(State())
    }

    /** rt_mq_init on `poolSize` bytes, which hold `pool` where the slots come to lie; each slot has a link in
        front of a message of `bytes`, rounded up to words. */
    constructor (bytes: nat, poolSize: nat, pool: seq<Bytes>, byPriority: bool)
      requires |pool| == poolSize / (4 * AlignWords(bytes) + LINK)
      ensures Valid() && State() == Init(4 * AlignWords(bytes), pool) && fresh(data) && fresh(next) && this.byPriority == byPriority
    {
      this.byPriority := byPriority;
      var size := 4 * AlignWords(bytes);
      var maxMsgs := poolSize / (size + LINK);
      msgSize := size;
      data := new Bytes[maxMsgs](i requires 0 <= i < |pool| => pool[i]);
      next := new int[maxMsgs](_ => NULL);
      head, tail, free, entry := NULL, NULL, NULL, 0;
      receivers, senders, threads := [], [], map[];
      freeChain, queue := [], [];
      new;
      FillFree();
      assert data[..] == pool;
      assert State() == MessageQueueSpec.Init(size, pool);
      InitSlots(size, pool);
    }

    /** The loop of rt_mq_init over the slots. */
    method FillFree()
      requires free == NULL && freeChain == []
      modifies `free, `freeChain, next
      ensures Chain(next[..], free, freeChain) && freeChain == Countdown(next.Length)
    {
      var n := 0;
      while n < next.Length
        invariant 0 <= n <= next.Length
        invariant Chain(next[..], free, freeChain) && freeChain == Countdown(n)
      {
        CountdownSpec(n);
        PutFree(n);
        n := n + 1;
      }
    }

    /** A slot goes in front of the free chain. */
    method PutFree(msg: Slot)
      requires Chain(next[..], free, freeChain) && msg !in freeChain && msg < next.Length
      modifies `free, `freeChain, next
      ensures Chain(next[..], free, freeChain) && freeChain == [msg] + old(freeChain)
      ensures forall i :: 0 <= i < next.Length && i != msg ==> next[i] == old(next[i])
    {
      ghost var was := next[..];
      next[msg] := free;
      ChainFrame(was, next[..], free, freeChain);
      assert ([msg] + freeChain)[1..] == freeChain;
      free := msg;
      freeChain := [msg] + freeChain;
    }

    /** First critical section of a send: a slot off the free chain, a refusal, or a place among the senders. */
    method TrySend(t: Tid, buffer: Bytes, forever: bool, expired: bool, urgent: bool, prio: Tid -> nat) returns (outcome: Outcome)
      requires Valid() && (t in threads ==> !Copies(threads[t]))
      modifies this
      ensures Valid()
      ensures (State(), outcome) == old(SendTry(State(), t, buffer, forever, expired, urgent, PlaceOf(byPriority, senders, prio, prio(t))))
    {
      var place := FindPlace(byPriority, senders, prio, prio(t));
      SendTrySlots(State(), t, buffer, forever, expired, urgent, place);
      var msg := free;
      if msg == NULL {
        assert freeChain == [];
        if expired || urgent {
          threads := threads[t := Idle];
          return Returns(EFULL);
        }
        threads := threads[t := SendWaits(buffer, forever, EOK)];
        senders := Insert(senders, place, t);
        return Goes;
      }
      free := next[msg];
      freeChain := freeChain[1..];
      threads := threads[t := SendCopies(msg, buffer, 0, urgent)];
      return Goes;
    }

    /** One turn of the copy loop of a send. */
    method CopyIn(t: Tid)
      requires Valid() && Legal(State(), DoSendByte(t)) && Sized()
      modifies this`threads, data
      ensures Valid() && State() == old(SendByte(State(), t)) && Sized()
    {
      var pc := threads[t];
      assert HoldsAlone(State(), t);
      StepSlots(State(), DoSendByte(t));
      if pc.done < |data[pc.slot]| {
        data[pc.slot] := data[pc.slot][pc.done := pc.buffer[pc.done]];
        threads := threads[t := pc.(done := pc.done + 1)];
      }
    }

    ghost predicate Sized()
      reads this, data
    {
      forall i :: 0 <= i < data.Length ==> |data[i]| == msgSize
    }

    /** The slot becomes the new tail. */
    method PutTail(msg: Slot)
      requires Links() && Distinct(queue) && msg !in queue && msg !in freeChain && msg < next.Length
      requires forall s :: s in freeChain ==> s !in queue
      modifies `head, `tail, `queue, `entry, next
      ensures Links() && queue == old(queue) + [msg] && entry == old(entry) + 1
    {
      ghost var was := next[..];
      ChainMembers(was, head, queue);
      assert tail != NULL ==> tail in queue;
      next[msg] := NULL;
      if tail != NULL {
        next[tail] := msg;
      }
      LinkedAtTail(was, next[..], msg);
      ChainFrame(was, next[..], free, freeChain);
      tail := msg;
      if head == NULL { head := msg; }
      queue := queue + [msg];
      entry := entry + 1;
    }

    /** The slot becomes the new head. */
    method PutHead(msg: Slot)
      requires Links() && msg !in queue && msg !in freeChain && msg < next.Length
      modifies `head, `tail, `queue, `entry, next
      ensures Links() && queue == [msg] + old(queue) && entry == old(entry) + 1
    {
      ghost var was := next[..];
      next[msg] := head;
      ChainFrame(was, next[..], head, queue);
      ChainFrame(was, next[..], free, freeChain);
      assert ([msg] + queue)[1..] == queue;
      head := msg;
      if tail == NULL { tail := msg; }
      queue := [msg] + queue;
      entry := entry + 1;
    }

    /** Second critical section of rt_mq_send_wait and rt_mq_urgent. */
    method LinkMessage(t: Tid)
      requires Valid() && Legal(State(), DoSendLink(t))
      modifies this, next
      ensures Valid() && State() == old(SendLink(State(), t).0)
    {
      ghost var q, r := State(), SendLink(State(), t).0;
      OwnSlot(q, t);
      DropKeeps(q, r, t, threads[t].slot);
      Link(threads[t].slot, threads[t].urgent);
      threads := threads[t := Idle];
      assert State() == At(q, t, Idle).(queue := queue, entry := q.entry + 1);
      WakeReceiver();
      assert State() == r;
    }

    method Link(msg: Slot, urgent: bool)
      requires Links() && Distinct(queue) && msg !in queue && msg !in freeChain && msg < next.Length
      requires forall s :: s in freeChain ==> s !in queue
      modifies `head, `tail, `queue, `entry, next
      ensures Links() && queue == (if urgent then [msg] + old(queue) else old(queue) + [msg]) && entry == old(entry) + 1
    {
      if urgent { PutHead(msg); } else { PutTail(msg); }
    }

    lemma LinkedAtTail(was: seq<int>, now: seq<int>, msg: Slot)
      requires Chain(was, head, queue) && Distinct(queue) && msg !in queue && msg < |was| == |now|
      requires tail == (if queue == [] then NULL else queue[|queue| - 1])
      requires now == if tail == NULL then was[msg := NULL] else (assert tail in queue; ChainMembers(was, head, queue); was[msg := NULL][tail := msg])
      ensures Chain(now, if head == NULL then msg else head, queue + [msg])
    {
      ChainMembers(was, head, queue);
      if queue == [] {
        assert [msg][1..] == [] && queue + [msg] == [msg];
      } else {
        assert tail in queue;
        ChainAppend(was, now, head, queue, msg);
      }
    }

    /** rt_ipc_list_resume on the receivers, if there are any. */
    method WakeReceiver()
      modifies this`receivers
      ensures receivers == if old(receivers) == [] then [] else old(receivers)[1..]
    {
      if receivers != [] { receivers := receivers[1..]; }
    }

    method WakeSender()
      modifies this`senders
      ensures senders == if old(senders) == [] then [] else old(senders)[1..]
    {
      if senders != [] { senders := senders[1..]; }
    }

    /** First critical section of rt_mq_recv. */
    method TryRecv(t: Tid, size: nat, forever: bool, expired: bool, prio: Tid -> nat) returns (outcome: Outcome)
      requires Valid() && (t in threads ==> !Copies(threads[t]))
      modifies this
      ensures Valid()
      ensures (State(), outcome) == old(RecvTry(State(), t, size, forever, expired, PlaceOf(byPriority, receivers, prio, prio(t))))
    {
      var place := FindPlace(byPriority, receivers, prio, prio(t));
      RecvTrySlots(State(), t, size, forever, expired, place);
      if entry == 0 {
        if expired {
          threads := threads[t := Idle];
          return Returns(ETIMEOUT);
        }
        threads := threads[t := RecvWaits(size, forever, EOK)];
        receivers := Insert(receivers, place, t);
        return Goes;
      }
      var msg := TakeHead();
      threads := threads[t := RecvCopies(msg, size, [])];
      return Goes;
    }

    /** The head leaves the queue. */
    method TakeHead() returns (msg: Slot)
      requires Links() && queue != [] && Distinct(queue) && entry > 0
      modifies `head, `tail, `queue, `entry
      ensures Links() && [msg] + queue == old(queue) && entry == old(entry) - 1
    {
      msg := head;
      head := next[msg];
      if tail == msg { tail := NULL; }
      LastOfTail();
      queue := queue[1..];
      entry := entry - 1;
    }

    /** The tail is the head exactly when it is alone. */
    lemma LastOfTail()
      requires queue != [] && Distinct(queue)
      ensures queue[|queue| - 1] == queue[0] <==> queue[1..] == []
      ensures queue[1..] != [] ==> queue[1..][|queue[1..]| - 1] == queue[|queue| - 1]
    {
    }

    /** One turn of the copy loop of a receive. */
    method CopyOut(t: Tid)
      requires Valid() && Legal(State(), DoRecvByte(t))
      modifies this`threads
      ensures Valid() && State() == old(RecvByte(State(), t))
    {
      var pc := threads[t];
      assert HoldsAlone(State(), t);
      StepSlots(State(), DoRecvByte(t));
      if |pc.got| < |data[pc.slot]| {
        threads := threads[t := pc.(got := pc.got + [data[pc.slot][|pc.got|]])];
      }
    }

    /** Second critical section of rt_mq_recv: the slot goes back. */
    method GiveBack(t: Tid) returns (message: Bytes)
      requires Valid() && Legal(State(), DoRecvFree(t))
      modifies this, next
      ensures Valid() && (State(), Delivers(message)) == old(RecvFree(State(), t))
    {
      StepSlots(State(), DoRecvFree(t));
      assert HoldsAlone(State(), t);
      var msg := threads[t].slot;
      message := threads[t].got;
      ghost var was := next[..];
      PutFree(msg);
      ChainFrame(was, next[..], head, queue);
      threads := threads[t := Idle];
      WakeSender();
    }

    /** rt_ipc_list_resume_all on both lists. */
    method FailAll()
      modifies this`receivers, this`senders, this`threads
      ensures receivers == [] && senders == []
      ensures threads == old(map t | t in threads :: if t in receivers || t in senders then Fail(threads[t], ERROR) else threads[t])
    {
      threads := map t | t in threads :: if t in receivers || t in senders then Fail(threads[t], ERROR) else threads[t];
      receivers := [];
      senders := [];
    }

    /** One turn of the loop of rt_mq_control: the head of the queue goes in front of the free chain. */
    method Recycle()
      requires Links() && head != NULL && Distinct(queue) && forall s :: s in freeChain ==> s !in queue
      modifies `head, `tail, `free, `queue, `freeChain, next
      ensures Links() && old(queue) != [] && queue == old(queue)[1..] && freeChain == [old(queue)[0]] + old(freeChain)
    {
      var msg := head;
      ghost var was := next[..];
      assert queue == [msg] + queue[1..];
      TailSpec(queue);
      LastOfTail();
      head := next[msg];
      if tail == msg { tail := NULL; }
      PutFree(msg);
      ChainFrame(was, next[..], head, queue[1..]);
      queue := queue[1..];
    }

    /** The loop: all queued slots go on the free chain. */
    method Drain()
      requires Links() && Distinct(queue) && forall s :: s in freeChain ==> s !in queue
      modifies `head, `tail, `free, `queue, `freeChain, next
      ensures Links() && queue == [] && freeChain == Reversed(old(queue)) + old(freeChain)
    {
      ghost var r := Reversed(queue) + freeChain;
      while head != NULL
        invariant Links() && Distinct(queue) && forall s :: s in freeChain ==> s !in queue
        invariant Reversed(queue) + freeChain == r
        decreases |queue|
      {
        assert forall s :: s in [queue[0]] + freeChain ==> s == queue[0] || s in freeChain;
        TailSpec(queue);
        Recycle();
      }
      assert queue == [] && Reversed(queue) + freeChain == freeChain;
    }

    /** rt_mq_control with RT_IPC_CMD_RESET */
    method ResetQueue()
      requires Valid()
      modifies this, next
      ensures Valid() && State() == old(Reset(State()))
    {
      ghost var r := Reset(State());
      ResetKeeps(State());
      FailAll();
      Drain();
      entry := 0;
      assert State() == r;
    }
  }
}
