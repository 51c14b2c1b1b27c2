/** Slots are conserved, nobody's wakeup is lost, and the whole is a queue of messages. */
module MessageQueueTheorems {
  import opened MessageQueueSpec
  import opened Sequences

  // ----- where the slots are

  predicate Holds(pc: Pc, s: Slot) { (pc.SendCopies? || pc.RecvCopies?) && pc.slot == s }

  predicate Copies(pc: Pc) { pc.SendCopies? || pc.RecvCopies? }

  /** Slot `s` is free, queued, or in flight. */
  ghost predicate Somewhere(q: Queue, s: Slot) { s in q.free || s in q.queue || exists t :: t in q.threads && Holds(q.threads[t], s) }

  /** The slot of thread `t` is its own. */
  ghost predicate HoldsAlone(q: Queue, t: Tid)
    requires t in q.threads
  {
    var pc := q.threads[t];
    Copies(pc) ==>
      && pc.slot < |q.slots| && pc.slot !in q.free && pc.slot !in q.queue
      && forall u :: u in q.threads && Holds(q.threads[u], pc.slot) ==> u == t
  }

  /** Every slot is in exactly one place, and the counter counts the queue. */
  ghost predicate SlotInv(q: Queue) {
    && q.entry == |q.queue|
    && Distinct(q.free) && Distinct(q.queue)
    && (forall s :: s in q.free ==> s < |q.slots| && s !in q.queue)
    && (forall s :: s in q.queue ==> s < |q.slots|)
    && (forall t :: t in q.threads ==> HoldsAlone(q, t))
    && (forall s: nat :: s < |q.slots| ==> Somewhere(q, s))
  }

  // ----- who waits

  ghost predicate WaitInv(q: Queue) {
    && Distinct(q.receivers) && Distinct(q.senders)
    && (forall t :: t in q.receivers ==> t in q.threads && q.threads[t].RecvWaits? && q.threads[t].error == EOK)
    && (forall t :: t in q.senders ==> t in q.threads && q.threads[t].SendWaits? && q.threads[t].error == EOK)
  }

  /** Threads that were woken without an error and have not looked again yet. */
  ghost function WokenReceivers(q: Queue): set<Tid> {
    set t | t in q.threads && q.threads[t].RecvWaits? && q.threads[t].error == EOK && t !in q.receivers
  }

  ghost function WokenSenders(q: Queue): set<Tid> {
    set t | t in q.threads && q.threads[t].SendWaits? && q.threads[t].error == EOK && t !in q.senders
  }

  ghost predicate ReceiversServed(q: Queue) { q.receivers != [] ==> |q.queue| <= |WokenReceivers(q)| }

  ghost predicate SendersServed(q: Queue) { q.senders != [] ==> |q.free| <= |WokenSenders(q)| }

  /** While somebody waits for a message, each stored message has a woken receiver coming for it;
      while somebody waits for room, each free slot has a woken sender. */
  ghost predicate NoLostWakeup(q: Queue) { ReceiversServed(q) && SendersServed(q) }

  // ----- SlotInv, step by step

  /** The places of the slots are all the same. */
  lemma SlotFrame(q: Queue, r: Queue)
    requires SlotInv(q) && |r.slots| == |q.slots| && r.free == q.free && r.queue == q.queue && r.entry == q.entry
    requires forall t, s :: (t in r.threads && Holds(r.threads[t], s)) <==> (t in q.threads && Holds(q.threads[t], s))
    ensures SlotInv(r)
  {
    forall t | t in r.threads ensures HoldsAlone(r, t) {
      if Copies(r.threads[t]) { assert Holds(r.threads[t], r.threads[t].slot); assert HoldsAlone(q, t); }
    }
    forall s: nat | s < |r.slots| ensures Somewhere(r, s) {
      assert Somewhere(q, s);
      if s !in q.free && s !in q.queue {
        var t :| t in q.threads && Holds(q.threads[t], s);
        assert t in r.threads && Holds(r.threads[t], s);
      }
    }
  }

  /** Thread `t`, holding nothing, gets hold of slot `s` off the free chain or the queue. */
  ghost predicate Grabs(q: Queue, r: Queue, t: Tid, s: Slot) {
    && |r.slots| == |q.slots| && (t in q.threads ==> !Copies(q.threads[t]))
    && t in r.threads && Holds(r.threads[t], s)
    && (forall u :: u != t ==> (u in r.threads <==> u in q.threads) && (u in q.threads ==> r.threads[u] == q.threads[u]))
    && ((q.free != [] && s == q.free[0] && r.free == q.free[1..] && r.queue == q.queue && r.entry == q.entry)
        || (q.queue != [] && s == q.queue[0] && r.queue == q.queue[1..] && r.free == q.free && r.entry == q.entry - 1))
  }

  lemma GrabKeeps(q: Queue, r: Queue, t: Tid, s: Slot)
    requires SlotInv(q) && Grabs(q, r, t, s)
    ensures SlotInv(r)
  {
    if q.free != [] { TailSpec(q.free); }
    if q.queue != [] { TailSpec(q.queue); }
    assert s in q.free || s in q.queue;
    forall u | u in r.threads ensures HoldsAlone(r, u) {
      if u != t { assert HoldsAlone(q, u); }
      forall v | v in q.threads ensures !Holds(q.threads[v], s) { assert HoldsAlone(q, v); }
    }
    forall x: nat | x < |r.slots| ensures Somewhere(r, x) {
      assert Somewhere(q, x);
      if x != s && x !in q.free && x !in q.queue {
        var u :| u in q.threads && Holds(q.threads[u], x);
        assert u != t && u in r.threads && Holds(r.threads[u], x);
      }
    }
  }

  /** Thread `t` puts its slot at one end of the queue or in front of the free chain. */
  ghost predicate Drops(q: Queue, r: Queue, t: Tid, s: Slot) {
    && |r.slots| == |q.slots| && t in q.threads && Holds(q.threads[t], s)
    && t in r.threads && !Copies(r.threads[t])
    && (forall u :: u != t ==> (u in r.threads <==> u in q.threads) && (u in q.threads ==> r.threads[u] == q.threads[u]))
    && ((r.free == [s] + q.free && r.queue == q.queue && r.entry == q.entry)
        || ((r.queue == q.queue + [s] || r.queue == [s] + q.queue) && r.free == q.free && r.entry == q.entry + 1))
  }

  lemma DropKeeps(q: Queue, r: Queue, t: Tid, s: Slot)
    requires SlotInv(q) && Drops(q, r, t, s)
    ensures SlotInv(r)
  {
    assert HoldsAlone(q, t);
    forall u | u in r.threads ensures HoldsAlone(r, u) { if u != t { assert HoldsAlone(q, u); } }
    forall x: nat | x < |r.slots| ensures Somewhere(r, x) {
      assert Somewhere(q, x);
      if x != s && x !in q.free && x !in q.queue {
        var u :| u in q.threads && Holds(q.threads[u], x);
        assert u != t && u in r.threads && Holds(r.threads[u], x);
      }
    }
  }

  lemma {:induction false} ReversedSpec(s: seq<Slot>)
    requires Distinct(s)
    ensures Distinct(Reversed(s)) && |Reversed(s)| == |s| && forall x :: x in Reversed(s) <==> x in s
    decreases |s|
  {
    if s != [] {
      TailSpec(s);
      ReversedSpec(s[1..]);
      assert s[0] !in Reversed(s[1..]);
      assert s == [s[0]] + s[1..];
    }
  }

  lemma ResetKeeps(q: Queue)
    requires SlotInv(q)
    ensures SlotInv(Reset(q))
  {
    var r := Reset(q);
    ReversedSpec(q.queue);
    assert forall x :: x in r.free <==> x in q.free || x in q.queue;
    forall i, j | 0 <= i < j < |r.free| ensures r.free[i] != r.free[j] {
      if i < |q.queue| { assert r.free[i] == Reversed(q.queue)[i] && r.free[i] in Reversed(q.queue); }
    }
    forall t | t in r.threads ensures HoldsAlone(r, t) {
      assert HoldsAlone(q, t);
      assert forall u, s :: u in q.threads ==> (Holds(r.threads[u], s) <==> Holds(q.threads[u], s));
    }
    forall s: nat | s < |r.slots| ensures Somewhere(r, s) {
      assert Somewhere(q, s);
      if s !in q.free && s !in q.queue {
        var t :| t in q.threads && Holds(q.threads[t], s);
        assert t in r.threads && Holds(r.threads[t], s);
      }
    }
  }

  lemma SendTrySlots(q: Queue, t: Tid, buffer: Bytes, forever: bool, expired: bool, urgent: bool, place: nat)
    requires SlotInv(q) && (t in q.threads ==> !Copies(q.threads[t]))
    ensures SlotInv(SendTry(q, t, buffer, forever, expired, urgent, place).0)
  {
    var r := SendTry(q, t, buffer, forever, expired, urgent, place).0;
    if q.free != [] { GrabKeeps(q, r, t, q.free[0]); } else { SlotFrame(q, r); }
  }

  lemma RecvTrySlots(q: Queue, t: Tid, size: nat, forever: bool, expired: bool, place: nat)
    requires SlotInv(q) && (t in q.threads ==> !Copies(q.threads[t]))
    ensures SlotInv(RecvTry(q, t, size, forever, expired, place).0)
  {
    var r := RecvTry(q, t, size, forever, expired, place).0;
    if q.entry > 0 { GrabKeeps(q, r, t, q.queue[0]); } else { SlotFrame(q, r); }
  }

  /** Every step keeps every slot in exactly one place. */
  lemma StepSlots(q: Queue, s: Step)
    requires SlotInv(q) && Legal(q, s)
    ensures SlotInv(Apply(q, s).0)
  {
    var r := Apply(q, s).0;
    match s
    case DoSend(t, buffer, forever, expired, urgent, place) =>
      if |buffer| > q.msgSize { SlotFrame(q, r); } else { SendTrySlots(q, t, buffer, forever, expired, urgent, place); }
    case DoSendRetry(t, expired, place) =>
      var pc := q.threads[t];
      if pc.error != EOK { SlotFrame(q, r); } else { SendTrySlots(q, t, pc.buffer, pc.forever, expired && !pc.forever, false, place); }
    case DoSendByte(t) => SlotFrame(q, r);
    case DoSendLink(t) => DropKeeps(q, r, t, q.threads[t].slot);
    case DoRecv(t, size, forever, expired, place) => RecvTrySlots(q, t, size, forever, expired, place);
    case DoRecvRetry(t, expired, place) =>
      var pc := q.threads[t];
      if pc.error != EOK { SlotFrame(q, r); } else { RecvTrySlots(q, t, pc.size, pc.forever, expired && !pc.forever, place); }
    case DoRecvByte(t) => SlotFrame(q, r);
    case DoRecvFree(t) => DropKeeps(q, r, t, q.threads[t].slot);
    case DoTimeout(t) => SlotFrame(q, r);
    case DoResume(t) => SlotFrame(q, r);
    case DoReset => ResetKeeps(q);
  }

  // ----- WaitInv

  /** Thread `t` waits nowhere, and its new entry says nothing else; nobody else joined a list. */
  lemma WaitFrame(q: Queue, r: Queue, t: Tid)
    requires WaitInv(q) && Distinct(r.receivers) && Distinct(r.senders) && t !in r.receivers && t !in r.senders
    requires forall u :: u in r.receivers ==> u in q.receivers
    requires forall u :: u in r.senders ==> u in q.senders
    requires forall u :: u in q.threads && u != t ==> u in r.threads && r.threads[u] == q.threads[u]
    ensures WaitInv(r)
  {
  }

  lemma NotListed(q: Queue, t: Tid)
    requires WaitInv(q) && (t in q.threads ==> !q.threads[t].SendWaits? && !q.threads[t].RecvWaits?)
    ensures !Waiting(q, t)
  {
  }

  lemma SendTryWaits(q: Queue, t: Tid, buffer: Bytes, forever: bool, expired: bool, urgent: bool, place: nat)
    requires WaitInv(q) && !Waiting(q, t)
    ensures WaitInv(SendTry(q, t, buffer, forever, expired, urgent, place).0)
  {
    var r := SendTry(q, t, buffer, forever, expired, urgent, place).0;
    if q.free != [] || expired || urgent { WaitFrame(q, r, t); } else { InsertSpec(q.senders, place, t); }
  }

  lemma RecvTryWaits(q: Queue, t: Tid, size: nat, forever: bool, expired: bool, place: nat)
    requires WaitInv(q) && !Waiting(q, t)
    ensures WaitInv(RecvTry(q, t, size, forever, expired, place).0)
  {
    var r := RecvTry(q, t, size, forever, expired, place).0;
    if (q.entry > 0 && q.queue != []) || expired { WaitFrame(q, r, t); } else { InsertSpec(q.receivers, place, t); }
  }

  /** A call that goes on in vain leaves its node behind, or links it in a second time. */
  lemma VainBreaks(q: Queue, s: Step)
    requires WaitInv(q) && Legal(q, s) && InVain(q, s)
    ensures !WaitInv(Apply(q, s).0)
  {
    var r, t := Apply(q, s).0, s.t;
    if s.DoSendRetry? {
      assert t in q.senders && q.threads[t].error == EOK;
      if r.senders != q.senders { InsertedTwice(q.senders, s.place, t); }
    } else {
      assert t in q.receivers && q.threads[t].error == EOK;
      if r.receivers != q.receivers { InsertedTwice(q.receivers, s.place, t); }
    }
  }

  lemma StepWaits(q: Queue, s: Step)
    requires WaitInv(q) && Legal(q, s) && !InVain(q, s)
    ensures WaitInv(Apply(q, s).0)
  {
    var r := Apply(q, s).0;
    match s
    case DoSend(t, buffer, forever, expired, urgent, place) =>
      NotListed(q, t);
      if |buffer| > q.msgSize { WaitFrame(q, r, t); } else { SendTryWaits(q, t, buffer, forever, expired, urgent, place); }
    case DoSendRetry(t, expired, place) =>
      var pc := q.threads[t];
      if pc.error != EOK { WaitFrame(q, r, t); } else { SendTryWaits(q, t, pc.buffer, pc.forever, expired && !pc.forever, false, place); }
    case DoSendByte(t) => NotListed(q, t); WaitFrame(q, r, t);
    case DoSendLink(t) =>
      NotListed(q, t);
      if q.receivers != [] { TailSpec(q.receivers); }
      WaitFrame(q, r, t);
    case DoRecv(t, size, forever, expired, place) => NotListed(q, t); RecvTryWaits(q, t, size, forever, expired, place);
    case DoRecvRetry(t, expired, place) =>
      var pc := q.threads[t];
      if pc.error != EOK { WaitFrame(q, r, t); } else { RecvTryWaits(q, t, pc.size, pc.forever, expired && !pc.forever, place); }
    case DoRecvByte(t) => NotListed(q, t); WaitFrame(q, r, t);
    case DoRecvFree(t) =>
      NotListed(q, t);
      if q.senders != [] { TailSpec(q.senders); }
      WaitFrame(q, r, t);
    case DoTimeout(t) => RemoveSpec(q.receivers, t); RemoveSpec(q.senders, t); WaitFrame(q, r, t);
    case DoResume(t) => RemoveSpec(q.receivers, t); RemoveSpec(q.senders, t); WaitFrame(q, r, t);
    case DoReset =>
  }

  // ----- no lost wakeup

  /** Only thread `t` changed, and it is no receiver waiting or woken, before or after. */
  lemma ReceiversFrame(q: Queue, r: Queue, t: Tid)
    requires ReceiversServed(q) && r.receivers == q.receivers && |r.queue| <= |q.queue|
    requires t in q.threads ==> !q.threads[t].RecvWaits?
    requires t in r.threads ==> !r.threads[t].RecvWaits?
    requires forall u :: u != t ==> (u in r.threads <==> u in q.threads) && (u in q.threads ==> r.threads[u] == q.threads[u])
    ensures ReceiversServed(r)
  {
    assert WokenReceivers(r) == WokenReceivers(q);
  }

  lemma SendersFrame(q: Queue, r: Queue, t: Tid)
    requires SendersServed(q) && r.senders == q.senders && |r.free| <= |q.free|
    requires t in q.threads ==> !q.threads[t].SendWaits?
    requires t in r.threads ==> !r.threads[t].SendWaits?
    requires forall u :: u != t ==> (u in r.threads <==> u in q.threads) && (u in q.threads ==> r.threads[u] == q.threads[u])
    ensures SendersServed(r)
  {
    assert WokenSenders(r) == WokenSenders(q);
  }

  /** A woken receiver, or one that just came, looks at the queue. */
  lemma RecvTryServed(q: Queue, t: Tid, size: nat, forever: bool, expired: bool, place: nat)
    requires NoLostWakeup(q) && WaitInv(q) && q.entry == |q.queue| && !Waiting(q, t) && (t in q.threads ==> !q.threads[t].SendWaits?)
    ensures NoLostWakeup(RecvTry(q, t, size, forever, expired, place).0)
  {
    var r := RecvTry(q, t, size, forever, expired, place).0;
    SendersFrame(q, r, t);
    if q.queue != [] { assert WokenReceivers(r) == WokenReceivers(q) - {t}; }
  }

  lemma SendTryServed(q: Queue, t: Tid, buffer: Bytes, forever: bool, expired: bool, urgent: bool, place: nat)
    requires NoLostWakeup(q) && WaitInv(q) && !Waiting(q, t) && (t in q.threads ==> !q.threads[t].RecvWaits?)
    ensures NoLostWakeup(SendTry(q, t, buffer, forever, expired, urgent, place).0)
  {
    var r := SendTry(q, t, buffer, forever, expired, urgent, place).0;
    ReceiversFrame(q, r, t);
    if q.free != [] { assert WokenSenders(r) == WokenSenders(q) - {t}; }
  }

  /** A message goes in, and with it the first receiver is woken. */
  lemma SendLinkServed(q: Queue, t: Tid)
    requires NoLostWakeup(q) && WaitInv(q) && Legal(q, DoSendLink(t))
    ensures NoLostWakeup(SendLink(q, t).0)
  {
    var r := SendLink(q, t).0;
    SendersFrame(q, r, t);
    if q.receivers != [] {
      TailSpec(q.receivers);
      assert q.receivers[0] in q.receivers;
      assert WokenReceivers(r) == WokenReceivers(q) + {q.receivers[0]};
    }
  }

  lemma RecvFreeServed(q: Queue, t: Tid)
    requires NoLostWakeup(q) && WaitInv(q) && Legal(q, DoRecvFree(t))
    ensures NoLostWakeup(RecvFree(q, t).0)
  {
    var r := RecvFree(q, t).0;
    ReceiversFrame(q, r, t);
    if q.senders != [] {
      TailSpec(q.senders);
      assert q.senders[0] in q.senders;
      assert WokenSenders(r) == WokenSenders(q) + {q.senders[0]};
    }
  }

  lemma TimeoutServed(q: Queue, t: Tid)
    requires NoLostWakeup(q) && WaitInv(q) && Legal(q, DoTimeout(t))
    ensures NoLostWakeup(Timeout(q, t))
  {
    var r := Timeout(q, t);
    RemoveSpec(q.receivers, t);
    RemoveSpec(q.senders, t);
    assert WokenReceivers(r) == WokenReceivers(q);
    assert WokenSenders(r) == WokenSenders(q);
    assert forall x :: x in r.receivers ==> x in q.receivers;
    assert r.receivers != [] ==> r.receivers[0] in q.receivers;
    assert r.senders != [] ==> r.senders[0] in q.senders;
  }

  lemma ResumeReceiverServed(q: Queue, t: Tid)
    requires ReceiversServed(q) && WaitInv(q) && Legal(q, DoResume(t))
    ensures ReceiversServed(Resume(q, t))
  {
    var r := Resume(q, t);
    RemoveSpec(q.receivers, t);
    assert WokenReceivers(r) == if t in q.receivers then WokenReceivers(q) + {t} else WokenReceivers(q);
    assert r.receivers != [] ==> r.receivers[0] in q.receivers;
  }

  lemma ResumeSenderServed(q: Queue, t: Tid)
    requires SendersServed(q) && WaitInv(q) && Legal(q, DoResume(t))
    ensures SendersServed(Resume(q, t))
  {
    var r := Resume(q, t);
    RemoveSpec(q.senders, t);
    assert WokenSenders(r) == if t in q.senders then WokenSenders(q) + {t} else WokenSenders(q);
    assert r.senders != [] ==> r.senders[0] in q.senders;
  }

  /** Every step, whichever thread or interrupt makes it, keeps the promise: a message or a free slot
      that somebody waits for has a woken thread on the way, however others steal, time out or reset. */
  lemma StepServed(q: Queue, s: Step)
    requires NoLostWakeup(q) && WaitInv(q) && q.entry == |q.queue| && Legal(q, s) && !InVain(q, s)
    ensures NoLostWakeup(Apply(q, s).0)
  {
    var r := Apply(q, s).0;
    match s
    case DoSend(t, buffer, forever, expired, urgent, place) =>
      NotListed(q, t);
      if |buffer| > q.msgSize {
        ReceiversFrame(q, r, t);
        SendersFrame(q, r, t);
      } else {
        SendTryServed(q, t, buffer, forever, expired, urgent, place);
      }
    case DoSendRetry(t, expired, place) =>
      var pc := q.threads[t];
      if pc.error != EOK {
        ReceiversFrame(q, r, t);
        assert WokenSenders(r) == WokenSenders(q);
      } else {
        SendTryServed(q, t, pc.buffer, pc.forever, expired && !pc.forever, false, place);
      }
    case DoSendByte(t) => ReceiversFrame(q, r, t); SendersFrame(q, r, t);
    case DoSendLink(t) => SendLinkServed(q, t);
    case DoRecv(t, size, forever, expired, place) => NotListed(q, t); RecvTryServed(q, t, size, forever, expired, place);
    case DoRecvRetry(t, expired, place) =>
      var pc := q.threads[t];
      if pc.error != EOK {
        SendersFrame(q, r, t);
        assert WokenReceivers(r) == WokenReceivers(q);
      } else {
        RecvTryServed(q, t, pc.size, pc.forever, expired && !pc.forever, place);
      }
    case DoRecvByte(t) => ReceiversFrame(q, r, t); SendersFrame(q, r, t);
    case DoRecvFree(t) => RecvFreeServed(q, t);
    case DoTimeout(t) => TimeoutServed(q, t);
    case DoResume(t) => ResumeReceiverServed(q, t); ResumeSenderServed(q, t);
    case DoReset =>
  }

  // ----- runs

  ghost predicate Inv(q: Queue) { SlotInv(q) && WaitInv(q) && NoLostWakeup(q) }

  predicate LegalRun(q: Queue, steps: seq<Step>)
    decreases |steps|
  {
    steps == [] || (Legal(q, steps[0]) && LegalRun(Apply(q, steps[0]).0, steps[1..]))
  }

  function Run(q: Queue, steps: seq<Step>): Queue
    requires LegalRun(q, steps)
    decreases |steps|
  {
    if steps == [] then q else Run(Apply(q, steps[0]).0, steps[1..])
  }

  predicate NoneInVain(q: Queue, steps: seq<Step>)
    requires LegalRun(q, steps)
    decreases |steps|
  {
    steps == [] || (!InVain(q, steps[0]) && NoneInVain(Apply(q, steps[0]).0, steps[1..]))
  }

  ghost predicate InvThroughout(q: Queue, steps: seq<Step>)
    requires LegalRun(q, steps)
    decreases |steps|
  {
    Inv(q) && (steps == [] || InvThroughout(Apply(q, steps[0]).0, steps[1..]))
  }

  /** A step keeps slots, wait lists and wakeups in order exactly when no call goes on in vain. */
  lemma StepInvExactly(q: Queue, s: Step)
    requires Inv(q) && Legal(q, s)
    ensures Inv(Apply(q, s).0) <==> !InVain(q, s)
  {
    if InVain(q, s) {
      VainBreaks(q, s);
    } else {
      StepSlots(q, s);
      StepWaits(q, s);
      StepServed(q, s);
    }
  }

  lemma {:induction false} RunKeeps(q: Queue, steps: seq<Step>)
    requires Inv(q) && LegalRun(q, steps)
    ensures InvThroughout(q, steps) <==> NoneInVain(q, steps)
    ensures NoneInVain(q, steps) ==> Inv(Run(q, steps))
    decreases |steps|
  {
    if steps != [] {
      StepInvExactly(q, steps[0]);
      if !InVain(q, steps[0]) { RunKeeps(Apply(q, steps[0]).0, steps[1..]); }
    }
  }

  lemma {:induction false} CountdownSpec(n: nat)
    ensures |Countdown(n)| == n && (forall i :: 0 <= i < n ==> Countdown(n)[i] == n - 1 - i) && forall s: nat :: s in Countdown(n) <==> s < n
  {
    if n > 0 { CountdownSpec(n - 1); }
  }

  lemma InitSlots(msgSize: nat, pool: seq<Bytes>)
    ensures SlotInv(Init(msgSize, pool))
  {
    CountdownSpec(|pool|);
  }

  lemma InitInv(msgSize: nat, pool: seq<Bytes>)
    ensures Inv(Init(msgSize, pool))
  {
    CountdownSpec(|pool|);
  }
}
