/** The interleaved machine behaves as one queue of messages, each call taking effect at a single
    point: a send when it links, a receive when it unlinks. */
module MessageQueueOrder {
  import opened MessageQueueSpec
  import opened MessageQueueTheorems

  /** What users see: the messages in order, and what each receiver under way has taken. */
  datatype Deque = Deque(messages: seq<Bytes>, taken: map<Tid, Bytes>)

  datatype Event = Append(message: Bytes) | Prepend(message: Bytes) | Take(receiver: Tid) | Clear | Silent

  function Effect(d: Deque, e: Event): Deque {
    match e
    case Append(m) => d.(messages := d.messages + [m])
    case Prepend(m) => d.(messages := [m] + d.messages)
    case Take(t) => if d.messages == [] then d else Deque(d.messages[1..], d.taken[t := d.messages[0]])
    case Clear => d.(messages := [])
    case Silent => d
  }

  /** The point at which each call takes effect. */
  function EventOf(q: Queue, s: Step): Event
    requires Legal(q, s)
  {
    match s
    case DoSendLink(t) => if q.threads[t].urgent then Prepend(q.threads[t].buffer) else Append(q.threads[t].buffer)
    case DoRecv(t, _, _, _, _) => if q.entry > 0 && q.queue != [] then Take(t) else Silent
    case DoRecvRetry(t, _, _) => if q.threads[t].error == EOK && q.entry > 0 && q.queue != [] then Take(t) else Silent
    case DoReset => Clear
    case _ => Silent
  }

  // ----- the relation

  /** A queued slot begins with its message; what follows is left from earlier use. */
  ghost predicate Stored(q: Queue, d: Deque) {
    |d.messages| == |q.queue| && forall i :: 0 <= i < |q.queue| ==> q.queue[i] < |q.slots| && d.messages[i] <= q.slots[q.queue[i]]
  }

  /** A slot being filled holds what was copied so far; one being emptied still holds its message,
      and the receiver has the front part of the slot. */
  ghost predicate UnderWay(q: Queue, d: Deque, t: Tid)
    requires t in q.threads
  {
    match q.threads[t]
    case SendCopies(slot, buffer, done, _) =>
      slot < |q.slots| && done <= |buffer| <= |q.slots[slot]| && buffer[..done] <= q.slots[slot]
    case RecvCopies(slot, _, got) =>
      slot < |q.slots| && t in d.taken && d.taken[t] <= q.slots[slot] && got <= q.slots[slot]
    case SendWaits(buffer, _, _) => |buffer| <= q.msgSize
    case _ => true
  }

  ghost predicate Sized(q: Queue) { forall s :: 0 <= s < |q.slots| ==> |q.slots[s]| == q.msgSize }

  ghost predicate Matches(q: Queue, d: Deque) {
    Sized(q) && Stored(q, d) && forall t :: t in q.threads ==> UnderWay(q, d, t)
  }

  // ----- every step

  /** Slots and queue are untouched; only thread `t` moved on. */
  lemma QuietMatches(q: Queue, r: Queue, d: Deque, t: Tid)
    requires Matches(q, d) && r.slots == q.slots && r.msgSize == q.msgSize && r.queue == q.queue
    requires forall u :: u in r.threads && u != t ==> u in q.threads && r.threads[u] == q.threads[u]
    requires t in r.threads ==> UnderWay(r, d, t)
    ensures Matches(r, d)
  {
    forall u | u in r.threads ensures UnderWay(r, d, u) { assert u == t || UnderWay(q, d, u); }
  }

  lemma SendTryMatches(q: Queue, d: Deque, t: Tid, buffer: Bytes, forever: bool, expired: bool, urgent: bool, place: nat)
    requires SlotInv(q) && Matches(q, d) && |buffer| <= q.msgSize
    ensures Matches(SendTry(q, t, buffer, forever, expired, urgent, place).0, d)
  {
    if q.free != [] { assert q.free[0] in q.free; }
    QuietMatches(q, SendTry(q, t, buffer, forever, expired, urgent, place).0, d, t);
  }

  lemma SendByteMatches(q: Queue, d: Deque, t: Tid)
    requires SlotInv(q) && Matches(q, d) && Legal(q, DoSendByte(t))
    ensures Matches(SendByte(q, t), d)
  {
    var pc, r := q.threads[t], SendByte(q, t);
    var s := pc.slot;
    assert HoldsAlone(q, t) && UnderWay(q, d, t);
    assert Holds(pc, s);
    forall u | u in r.threads ensures UnderWay(r, d, u) {
      assert UnderWay(q, d, u);
      if u == t {
        assert pc.buffer[..pc.done + 1] == pc.buffer[..pc.done] + [pc.buffer[pc.done]];
      } else if Copies(q.threads[u]) {
        assert Holds(q.threads[u], q.threads[u].slot);
      }
    }
    forall i | 0 <= i < |r.queue| ensures d.messages[i] <= r.slots[r.queue[i]] { assert r.queue[i] in q.queue; }
  }

  lemma LinkStores(q: Queue, r: Queue, d: Deque, e: Deque, t: Tid)
    requires Matches(q, d) && Legal(q, DoSendLink(t)) && r.slots == q.slots
    requires var pc := q.threads[t];
      || (e.messages == d.messages + [pc.buffer] && r.queue == q.queue + [pc.slot])
      || (e.messages == [pc.buffer] + d.messages && r.queue == [pc.slot] + q.queue)
    ensures Stored(r, e)
  {
    var pc := q.threads[t];
    assert UnderWay(q, d, t);
    assert pc.buffer[..pc.done] == pc.buffer;
  }

  /** What a thread has under way does not depend on the chains, nor on the threads it is not. */
  lemma OthersUnderWay(q: Queue, r: Queue, d: Deque, e: Deque, u: Tid)
    requires u in q.threads && u in r.threads && r.threads[u] == q.threads[u] && UnderWay(q, d, u)
    requires r.slots == q.slots && r.msgSize == q.msgSize && (u in d.taken ==> u in e.taken && e.taken[u] == d.taken[u])
    ensures UnderWay(r, e, u)
  {
  }

  lemma SendLinkMatches(q: Queue, d: Deque, t: Tid)
    requires SlotInv(q) && Matches(q, d) && Legal(q, DoSendLink(t))
    ensures Matches(SendLink(q, t).0, Effect(d, EventOf(q, DoSendLink(t))))
  {
    var r, e := SendLink(q, t).0, Effect(d, EventOf(q, DoSendLink(t)));
    LinkStores(q, r, d, e, t);
    forall u | u in r.threads ensures UnderWay(r, e, u) {
      if u != t {
        assert UnderWay(q, d, u);
        OthersUnderWay(q, r, d, e, u);
      }
    }
  }

  lemma RecvTryMatches(q: Queue, d: Deque, t: Tid, size: nat, forever: bool, expired: bool, place: nat)
    requires SlotInv(q) && Matches(q, d) && (t in q.threads ==> !Copies(q.threads[t]))
    ensures Matches(RecvTry(q, t, size, forever, expired, place).0, if q.entry > 0 then Effect(d, Take(t)) else d)
  {
    var r := RecvTry(q, t, size, forever, expired, place).0;
    if q.entry > 0 {
      var e := Effect(d, Take(t));
      forall u | u in r.threads ensures UnderWay(r, e, u) { assert u == t || UnderWay(q, d, u); }
    } else {
      QuietMatches(q, r, d, t);
    }
  }

  lemma RecvByteMatches(q: Queue, d: Deque, t: Tid)
    requires SlotInv(q) && Matches(q, d) && Legal(q, DoRecvByte(t))
    ensures Matches(RecvByte(q, t), d)
  {
    assert UnderWay(q, d, t);
    QuietMatches(q, RecvByte(q, t), d, t);
  }

  lemma ResetMatches(q: Queue, d: Deque)
    requires Matches(q, d)
    ensures Matches(Reset(q), Effect(d, Clear))
  {
    var r := Reset(q);
    forall t | t in r.threads ensures UnderWay(r, Effect(d, Clear), t) { assert UnderWay(q, d, t); }
  }

  lemma SendStepMatches(q: Queue, d: Deque, s: Step)
    requires SlotInv(q) && Matches(q, d) && Legal(q, s) && (s.DoSend? || s.DoSendRetry?)
    ensures Matches(Apply(q, s).0, d)
  {
    var r := Apply(q, s).0;
    match s
    case DoSend(t, buffer, forever, expired, urgent, place) =>
      if |buffer| > q.msgSize { QuietMatches(q, r, d, t); } else { SendTryMatches(q, d, t, buffer, forever, expired, urgent, place); }
    case DoSendRetry(t, expired, place) =>
      var pc := q.threads[t];
      assert UnderWay(q, d, t);
      if pc.error != EOK { QuietMatches(q, r, d, t); } else { SendTryMatches(q, d, t, pc.buffer, pc.forever, expired && !pc.forever, false, place); }
  }

  lemma RecvStepMatches(q: Queue, d: Deque, s: Step)
    requires SlotInv(q) && Matches(q, d) && Legal(q, s) && (s.DoRecv? || s.DoRecvRetry?)
    ensures Matches(Apply(q, s).0, Effect(d, EventOf(q, s)))
  {
    match s
    case DoRecv(t, size, forever, expired, place) => RecvTryMatches(q, d, t, size, forever, expired, place);
    case DoRecvRetry(t, expired, place) =>
      var pc := q.threads[t];
      if pc.error != EOK {
        QuietMatches(q, Apply(q, s).0, d, t);
      } else {
        RecvTryMatches(q, d, t, pc.size, pc.forever, expired && !pc.forever, place);
      }
  }

  lemma WakeStepMatches(q: Queue, d: Deque, s: Step)
    requires Matches(q, d) && Legal(q, s) && (s.DoTimeout? || s.DoResume? || s.DoRecvFree?)
    ensures Matches(Apply(q, s).0, d)
  {
    assert UnderWay(q, d, s.t);
    QuietMatches(q, Apply(q, s).0, d, s.t);
  }

  /** One step of the machine is at most one effect on the queue of messages. */
  lemma StepMatches(q: Queue, d: Deque, s: Step)
    requires SlotInv(q) && Matches(q, d) && Legal(q, s)
    ensures Matches(Apply(q, s).0, Effect(d, EventOf(q, s)))
  {
    match s
    case DoSend(_, _, _, _, _, _) => SendStepMatches(q, d, s);
    case DoSendRetry(_, _, _) => SendStepMatches(q, d, s);
    case DoSendByte(t) => SendByteMatches(q, d, t);
    case DoSendLink(t) => SendLinkMatches(q, d, t);
    case DoRecv(_, _, _, _, _) => RecvStepMatches(q, d, s);
    case DoRecvRetry(_, _, _) => RecvStepMatches(q, d, s);
    case DoRecvByte(t) => RecvByteMatches(q, d, t);
    case DoRecvFree(_) => WakeStepMatches(q, d, s);
    case DoTimeout(_) => WakeStepMatches(q, d, s);
    case DoResume(_) => WakeStepMatches(q, d, s);
    case DoReset => ResetMatches(q, d);
  }

  /** What a receive hands over is the message it took, cut to the size asked for; behind a shorter
      message it is padded with what the slot held before. */
  lemma DeliversMessage(q: Queue, d: Deque, t: Tid)
    requires Matches(q, d) && Legal(q, DoRecvFree(t))
    ensures t in d.taken && RecvFree(q, t).1.Delivers?
    ensures var data, m := RecvFree(q, t).1.data, d.taken[t];
            |data| == Length(q, q.threads[t].size) && if |m| <= |data| then m <= data else data <= m
  {
    assert UnderWay(q, d, t);
  }

  // ----- runs

  function Events(q: Queue, steps: seq<Step>): seq<Event>
    requires LegalRun(q, steps)
    decreases |steps|
  {
    if steps == [] then [] else [EventOf(q, steps[0])] + Events(Apply(q, steps[0]).0, steps[1..])
  }

  function Effects(d: Deque, events: seq<Event>): Deque
    decreases |events|
  {
    if events == [] then d else Effects(Effect(d, events[0]), events[1..])
  }

  /** Linearization: a run of any interleaving ends in a state of the simple queue that its effects,
      taken one after the other, lead to. */
  lemma {:induction false} RunMatches(q: Queue, d: Deque, steps: seq<Step>)
    requires SlotInv(q) && Matches(q, d) && LegalRun(q, steps)
    ensures SlotInv(Run(q, steps)) && Matches(Run(q, steps), Effects(d, Events(q, steps)))
    decreases |steps|
  {
    if steps != [] {
      var r := Apply(q, steps[0]).0;
      StepMatches(q, d, steps[0]);
      StepSlots(q, steps[0]);
      RunMatches(r, Effect(d, EventOf(q, steps[0])), steps[1..]);
      assert Events(q, steps)[1..] == Events(r, steps[1..]);
    }
  }

  /** From rt_mq_init on every run conserves the slots and is one of the simple queue, and wait lists and wakeups stay in
      order throughout exactly when no call goes on in vain. */
  lemma InitMatches(msgSize: nat, pool: seq<Bytes>, steps: seq<Step>)
    requires (forall s :: 0 <= s < |pool| ==> |pool[s]| == msgSize) && LegalRun(Init(msgSize, pool), steps)
    ensures var q := Init(msgSize, pool);
      && SlotInv(Run(q, steps)) && Matches(Run(q, steps), Effects(Deque([], map[]), Events(q, steps)))
      && (InvThroughout(q, steps) <==> NoneInVain(q, steps))
  {
    InitInv(msgSize, pool);
    RunMatches(Init(msgSize, pool), Deque([], map[]), steps);
    RunKeeps(Init(msgSize, pool), steps);
  }
}
