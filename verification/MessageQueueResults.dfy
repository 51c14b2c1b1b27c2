/** What the calls on a message queue return, told from what their callers know. */
module MessageQueueResults {
  import opened MessageQueueSpec
  import opened MessageQueueTheorems
  import opened MessageQueueOrder
  import opened Sequences
  import opened WaitOrder

  /** What a thread called with, and the error it was given while it waited. */
  datatype Call =
    | Sending(buffer: Bytes, urgent: bool, forever: bool, fate: Error)
    | Receiving(size: nat, forever: bool, fate: Error)

  type Calls = map<Tid, Call>

  /** The calls under way after a step, from its result alone. */
  function Noted(c: Calls, q: Queue, s: Step, out: Outcome): Calls {
    match s
    case DoSend(t, buffer, forever, _, urgent, _) => if out.Goes? then c[t := Sending(buffer, urgent, forever, EOK)] else c
    case DoRecv(t, size, forever, _, _) => if out.Goes? then c[t := Receiving(size, forever, EOK)] else c
    case DoTimeout(t) => if t in c then c[t := c[t].(fate := ETIMEOUT)] else c
    case DoReset => map t | t in c :: if Waiting(q, t) then c[t].(fate := ERROR) else c[t]
    case DoResume(_) => c
    case _ => if out.Goes? then c else c - {s.t}
  }

  /** A thread stands where its call has brought it. */
  predicate Agrees(pc: Pc, c: Call) {
    match pc
    case Idle => false
    case SendWaits(buffer, forever, error) => c == Sending(buffer, false, forever, error)
    case SendCopies(_, buffer, _, urgent) => c.Sending? && c.buffer == buffer && c.urgent == urgent
    case RecvWaits(size, forever, error) => c == Receiving(size, forever, error)
    case RecvCopies(_, size, _) => c.Receiving? && c.size == size
  }

  ghost predicate Knows(q: Queue, c: Calls) {
    forall t :: (t in c <==> t in q.threads && !q.threads[t].Idle?) && (t in c ==> Agrees(q.threads[t], c[t]))
  }

  // ----- the answers

  /** A try to send goes on exactly if a slot is free or it may wait, and is refused exactly if neither. */
  predicate SendAnswers(q: Queue, out: Outcome, over: bool) {
    (out == Returns(EFULL) <==> q.free == [] && over) && (out == Goes <==> q.free != [] || !over)
  }

  /** A try to receive goes on exactly if there is a message or it may wait, and times out exactly if neither. */
  predicate RecvAnswers(d: Deque, out: Outcome, over: bool) {
    (out == Returns(ETIMEOUT) <==> d.messages == [] && over) && (out == Goes <==> d.messages != [] || !over)
  }

  /** What each step answers. `d` are the messages that users see, `c` the calls they made. */
  predicate Answers(q: Queue, d: Deque, c: Calls, s: Step, out: Outcome) {
    match s
    case DoSend(_, buffer, _, expired, urgent, _) =>
      && (out == Returns(ERROR) <==> |buffer| > q.msgSize)
      && (|buffer| <= q.msgSize ==> SendAnswers(q, out, expired || urgent))
    case DoRecv(_, _, _, expired, _) => RecvAnswers(d, out, expired)
    case DoSendRetry(t, expired, _) =>
      t in c && if c[t].fate != EOK then out == Returns(c[t].fate) else SendAnswers(q, out, expired && !c[t].forever)
    case DoRecvRetry(t, expired, _) =>
      t in c && if c[t].fate != EOK then out == Returns(c[t].fate) else RecvAnswers(d, out, expired && !c[t].forever)
    case DoSendLink(t) => t in c && c[t].Sending? && out == Returns(EOK)
    case DoRecvFree(t) => t in c && c[t].Receiving? && t in d.taken && out.Delivers? && Cut(out.data, d.taken[t], c[t].size, q.msgSize)
    case _ => out == Goes
  }

  /** The message, up to the size asked for or the size of a slot; what a slot held before may follow a short one. */
  predicate Cut(data: Bytes, message: Bytes, size: nat, msgSize: nat) {
    && |data| == (if size < msgSize then size else msgSize)
    && forall i :: 0 <= i < |data| && i < |message| ==> data[i] == message[i]
  }

  lemma EmptyIs(q: Queue, d: Deque)
    requires SlotInv(q) && Matches(q, d)
    ensures (q.entry > 0 && q.queue != []) <==> d.messages != []
  {
  }

  lemma CutFits(q: Queue, d: Deque, c: Calls, t: Tid)
    requires Matches(q, d) && Knows(q, c) && Legal(q, DoRecvFree(t))
    ensures Answers(q, d, c, DoRecvFree(t), RecvFree(q, t).1)
  {
    DeliversMessage(q, d, t);
    assert Agrees(q.threads[t], c[t]);
  }

  lemma StepAnswers(q: Queue, d: Deque, c: Calls, s: Step)
    requires SlotInv(q) && Matches(q, d) && Knows(q, c) && Legal(q, s)
    ensures Answers(q, d, c, s, Apply(q, s).1)
  {
    EmptyIs(q, d);
    match s
    case DoSendRetry(t, _, _) => assert Agrees(q.threads[t], c[t]);
    case DoRecvRetry(t, _, _) => assert Agrees(q.threads[t], c[t]);
    case DoSendLink(t) => assert Agrees(q.threads[t], c[t]);
    case DoRecvFree(t) => CutFits(q, d, c, t);
    case _ =>
  }

  // ----- the calls stay known

  /** Only thread `t` moved, from one place of its call to another, or in or out of it. */
  lemma OneKnown(q: Queue, r: Queue, c: Calls, k: Calls, t: Tid)
    requires Knows(q, c)
    requires forall u :: u != t ==> (u in r.threads <==> u in q.threads) && (u in q.threads ==> r.threads[u] == q.threads[u])
    requires forall u :: u != t ==> (u in k <==> u in c) && (u in c ==> k[u] == c[u])
    requires t in k <==> t in r.threads && !r.threads[t].Idle?
    requires t in k ==> Agrees(r.threads[t], k[t])
    ensures Knows(r, k)
  {
  }

  lemma SendKnown(q: Queue, c: Calls, s: Step)
    requires Knows(q, c) && Legal(q, s) && (s.DoSend? || s.DoSendRetry?)
    ensures var (r, out) := Apply(q, s); Knows(r, Noted(c, q, s, out))
  {
    var (r, out) := Apply(q, s);
    if s.DoSendRetry? { assert Agrees(q.threads[s.t], c[s.t]); }
    OneKnown(q, r, c, Noted(c, q, s, out), s.t);
  }

  lemma RecvKnown(q: Queue, c: Calls, s: Step)
    requires Knows(q, c) && Legal(q, s) && (s.DoRecv? || s.DoRecvRetry?)
    ensures var (r, out) := Apply(q, s); Knows(r, Noted(c, q, s, out))
  {
    var (r, out) := Apply(q, s);
    if s.DoRecvRetry? { assert Agrees(q.threads[s.t], c[s.t]); }
    OneKnown(q, r, c, Noted(c, q, s, out), s.t);
  }

  lemma ResetKnown(q: Queue, c: Calls)
    requires Knows(q, c)
    ensures Knows(Reset(q), Noted(c, q, DoReset, Goes))
  {
    var r, k := Reset(q), Noted(c, q, DoReset, Goes);
    forall t ensures (t in k <==> t in r.threads && !r.threads[t].Idle?) && (t in k ==> Agrees(r.threads[t], k[t])) {
      if t in c { assert Agrees(q.threads[t], c[t]); }
    }
  }

  lemma StepKnown(q: Queue, c: Calls, s: Step)
    requires Knows(q, c) && Legal(q, s)
    ensures var (r, out) := Apply(q, s); Knows(r, Noted(c, q, s, out))
  {
    if s.DoSend? || s.DoSendRetry? {
      SendKnown(q, c, s);
    } else if s.DoRecv? || s.DoRecvRetry? {
      RecvKnown(q, c, s);
    } else if s.DoReset? {
      ResetKnown(q, c);
    } else {
      var (r, out) := Apply(q, s);
      assert s.t in c ==> Agrees(q.threads[s.t], c[s.t]);
      OneKnown(q, r, c, Noted(c, q, s, out), s.t);
    }
  }

  // ----- sends that succeed are the messages that go in

  /** The message of a send that returns RT_EOK, and the end of the queue it was meant for. */
  function Accepted(c: Calls, s: Step, out: Outcome): seq<Event> {
    if out == Returns(EOK) && !s.DoReset? && s.t in c && c[s.t].Sending? then
      [if c[s.t].urgent then Prepend(c[s.t].buffer) else Append(c[s.t].buffer)]
    else []
  }

  function Stored(e: Event): seq<Event> { if e.Append? || e.Prepend? then [e] else [] }

  lemma StepAccepts(q: Queue, d: Deque, c: Calls, s: Step)
    requires SlotInv(q) && Matches(q, d) && Knows(q, c) && Legal(q, s)
    ensures Accepted(c, s, Apply(q, s).1) == Stored(EventOf(q, s))
  {
    StepAnswers(q, d, c, s);
    if !s.DoReset? && s.t in c { assert Agrees(q.threads[s.t], c[s.t]); }
  }

  function RunAccepted(q: Queue, c: Calls, steps: seq<Step>): seq<Event>
    requires LegalRun(q, steps)
    decreases |steps|
  {
    if steps == [] then []
    else
      var (r, out) := Apply(q, steps[0]);
      Accepted(c, steps[0], out) + RunAccepted(r, Noted(c, q, steps[0], out), steps[1..])
  }

  function AllStored(events: seq<Event>): seq<Event>
    decreases |events|
  {
    if events == [] then [] else Stored(events[0]) + AllStored(events[1..])
  }

  /** Every step of a run answers as it should. */
  ghost predicate AnswersThroughout(q: Queue, d: Deque, c: Calls, steps: seq<Step>)
    requires LegalRun(q, steps)
    decreases |steps|
  {
    steps == [] ||
    (var (r, out) := Apply(q, steps[0]);
     Answers(q, d, c, steps[0], out) && AnswersThroughout(r, Effect(d, EventOf(q, steps[0])), Noted(c, q, steps[0], out), steps[1..]))
  }

  /** Over every run the results are those that the messages and the calls tell, and the sends that return RT_EOK are,
      one by one and in this order, the messages that enter the queue of `RunMatches`. */
  lemma {:induction false} RunAnswers(q: Queue, d: Deque, c: Calls, steps: seq<Step>)
    requires SlotInv(q) && Matches(q, d) && Knows(q, c) && LegalRun(q, steps)
    ensures AnswersThroughout(q, d, c, steps)
    ensures RunAccepted(q, c, steps) == AllStored(Events(q, steps))
    decreases |steps|
  {
    if steps != [] {
      var (r, out) := Apply(q, steps[0]);
      StepAnswers(q, d, c, steps[0]);
      StepAccepts(q, d, c, steps[0]);
      StepKnown(q, c, steps[0]);
      StepMatches(q, d, steps[0]);
      StepSlots(q, steps[0]);
      RunAnswers(r, Effect(d, EventOf(q, steps[0])), Noted(c, q, steps[0], out), steps[1..]);
      assert Events(q, steps)[1..] == Events(r, steps[1..]);
    }
  }

  lemma InitAnswers(msgSize: nat, pool: seq<Bytes>, steps: seq<Step>)
    requires (forall s :: 0 <= s < |pool| ==> |pool[s]| == msgSize) && LegalRun(Init(msgSize, pool), steps)
    ensures var q := Init(msgSize, pool);
      AnswersThroughout(q, Deque([], map[]), map[], steps) && RunAccepted(q, map[], steps) == AllStored(Events(q, steps))
  {
    InitInv(msgSize, pool);
    RunAnswers(Init(msgSize, pool), Deque([], map[]), map[], steps);
  }

  // ----- messages that go out are handed over

  /** Receives of thread `t` that took a message, less those that have handed theirs over. */
  function InHand(q: Queue, t: Tid, steps: seq<Step>): int
    requires LegalRun(q, steps)
    decreases |steps|
  {
    if steps == [] then 0
    else
      var (r, out) := Apply(q, steps[0]);
      (if EventOf(q, steps[0]) == Take(t) then 1 else 0) - (if out.Delivers? && steps[0] == DoRecvFree(t) then 1 else 0)
      + InHand(r, t, steps[1..])
  }

  function Copying(q: Queue, t: Tid): int { if t in q.threads && q.threads[t].RecvCopies? then 1 else 0 }

  lemma StepInHand(q: Queue, d: Deque, t: Tid, s: Step)
    requires SlotInv(q) && Matches(q, d) && Legal(q, s)
    ensures var (r, out) := Apply(q, s);
            Copying(r, t) == Copying(q, t) + (if EventOf(q, s) == Take(t) then 1 else 0)
                             - (if out.Delivers? && s == DoRecvFree(t) then 1 else 0)
  {
    if s.DoReset? { assert t in q.threads ==> (Reset(q).threads[t].RecvCopies? <==> q.threads[t].RecvCopies?); }
  }

  /** No message taken is lost or handed over twice: each take has one delivery, or is under way. */
  lemma {:induction false} RunInHand(q: Queue, d: Deque, t: Tid, steps: seq<Step>)
    requires SlotInv(q) && Matches(q, d) && LegalRun(q, steps)
    ensures Copying(Run(q, steps), t) == Copying(q, t) + InHand(q, t, steps)
    decreases |steps|
  {
    if steps != [] {
      StepInHand(q, d, t, steps[0]);
      StepMatches(q, d, steps[0]);
      StepSlots(q, steps[0]);
      RunInHand(Apply(q, steps[0]).0, Effect(d, EventOf(q, steps[0])), t, steps[1..]);
    }
  }

  // ----- who is resumed

  /** A message put in resumes the most urgent receiver, a slot given back the most urgent sender; the lists stay in
      order. `rank` is the priority with which the threads joined, or when they did. */
  lemma LinkWakes(q: Queue, t: Tid, rank: Tid -> nat)
    requires Legal(q, DoSendLink(t)) && Distinct(q.receivers) && InOrder(q.receivers, rank)
    ensures var r := SendLink(q, t).0;
      && InOrder(r.receivers, rank) && r.senders == q.senders
      && forall w :: w in q.receivers && w !in r.receivers <==> q.receivers != [] && w == q.receivers[0]
    ensures var r := SendLink(q, t).0; forall w, u :: w in q.receivers && w !in r.receivers && u in r.receivers ==> rank(w) <= rank(u)
  {
    if q.receivers != [] {
      TailSpec(q.receivers);
      RestInOrder(q.receivers, rank);
    }
  }

  /** A thread that has to wait joins at its place. */
  lemma JoinsInOrder(q: Queue, t: Tid, buffer: Bytes, size: nat, forever: bool, rank: Tid -> nat)
    requires InOrder(q.senders, rank) && InOrder(q.receivers, rank)
    ensures InOrder(SendTry(q, t, buffer, forever, false, false, PlaceOf(true, q.senders, rank, rank(t))).0.senders, rank)
    ensures InOrder(RecvTry(q, t, size, forever, false, PlaceOf(true, q.receivers, rank, rank(t))).0.receivers, rank)
  {
    JoinInOrder(q.senders, rank, t);
    JoinInOrder(q.receivers, rank, t);
  }

  lemma FreeWakes(q: Queue, t: Tid, rank: Tid -> nat)
    requires Legal(q, DoRecvFree(t)) && Distinct(q.senders) && InOrder(q.senders, rank)
    ensures var r := RecvFree(q, t).0;
      && InOrder(r.senders, rank) && r.receivers == q.receivers
      && forall w :: w in q.senders && w !in r.senders <==> q.senders != [] && w == q.senders[0]
    ensures var r := RecvFree(q, t).0; forall w, u :: w in q.senders && w !in r.senders && u in r.senders ==> rank(w) <= rank(u)
  {
    if q.senders != [] {
      TailSpec(q.senders);
      RestInOrder(q.senders, rank);
    }
  }
}
