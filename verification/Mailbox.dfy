/** Mailboxes (ipc.c): one-word mails in a ring buffer, with a wait list on either side. */
module Mailboxes {
  import opened Sequences
  import opened WaitLists
  import opened WaitOrder

  type Mail = nat

  /** `mails` is the content of the ring in order; its length is `entry`. */
  datatype Box = Box(size: nat, mails: seq<Mail>, receivers: Side<()>, senders: Side<Mail>)

  datatype Outcome = Returns(error: Error) | Delivers(mail: Mail) | Goes

  function Init(size: nat): Box { Box(size, [], Side([], map[]), Side([], map[])) }

  // ----- rt_mb_send_wait

  /** The loop, on entry and after every wait; `expired` once no time is left. */
  function SendTry(b: Box, t: Tid, mail: Mail, forever: bool, expired: bool, place: nat): (Box, Outcome) {
    if |b.mails| != b.size then
      (b.(mails := b.mails + [mail], senders := Done(b.senders, t), receivers := ResumeFirst(b.receivers)), Returns(EOK))
    else if expired then (b.(senders := Done(b.senders, t)), Returns(EFULL))
    else (b.(senders := Join(b.senders, t, mail, forever, place)), Goes)
  }

  function SendRetry(b: Box, t: Tid, expired: bool, place: nat): (Box, Outcome)
    requires InCall(b.senders, t)
  {
    var pc := b.senders.threads[t];
    if pc.error != EOK then (b.(senders := Done(b.senders, t)), Returns(pc.error))
    else SendTry(b, t, pc.arg, pc.forever, expired && !pc.forever, place)
  }

  // ----- rt_mb_recv

  function RecvTry(b: Box, t: Tid, forever: bool, expired: bool, place: nat): (Box, Outcome) {
    if b.mails != [] then
      (b.(mails := b.mails[1..], receivers := Done(b.receivers, t), senders := ResumeFirst(b.senders)), Delivers(b.mails[0]))
    else if expired then (b.(receivers := Done(b.receivers, t)), Returns(ETIMEOUT))
    else (b.(receivers := Join(b.receivers, t, (), forever, place)), Goes)
  }

  function RecvRetry(b: Box, t: Tid, expired: bool, place: nat): (Box, Outcome)
    requires InCall(b.receivers, t)
  {
    var pc := b.receivers.threads[t];
    if pc.error != EOK then (b.(receivers := Done(b.receivers, t)), Returns(pc.error))
    else RecvTry(b, t, pc.forever, expired && !pc.forever, place)
  }

  /** rt_mb_control with RT_IPC_CMD_RESET */
  function Reset(b: Box): Box { b.(mails := [], receivers := FailAll(b.receivers), senders := FailAll(b.senders)) }

  // ----- steps

  datatype Step =
    | DoSend(t: Tid, mail: Mail, forever: bool, expired: bool, place: nat) | DoSendRetry(t: Tid, expired: bool, place: nat)
    | DoRecv(t: Tid, forever: bool, expired: bool, place: nat) | DoRecvRetry(t: Tid, expired: bool, place: nat)
    | DoSenderTimeout(t: Tid) | DoReceiverTimeout(t: Tid) | DoSenderResume(t: Tid) | DoReceiverResume(t: Tid) | DoReset

  predicate MayExpire<A>(s: Side<A>, t: Tid) { t in s.waiting && t in s.threads && s.threads[t].Waits? && !s.threads[t].forever }

  predicate Legal(b: Box, step: Step) {
    match step
    case DoSend(t, _, forever, expired, _) => OutOf(b.senders, t) && !(forever && expired)
    case DoSendRetry(t, _, _) => InCall(b.senders, t)
    case DoRecv(t, forever, expired, _) => OutOf(b.receivers, t) && !(forever && expired)
    case DoRecvRetry(t, _, _) => InCall(b.receivers, t)
    case DoSenderTimeout(t) => MayExpire(b.senders, t)
    case DoReceiverTimeout(t) => MayExpire(b.receivers, t)
    case DoSenderResume(t) => t in b.senders.waiting
    case DoReceiverResume(t) => t in b.receivers.waiting
    case DoReset => true
  }

  function Apply(b: Box, step: Step): (Box, Outcome)
    requires Legal(b, step)
  {
    match step
    case DoSend(t, mail, forever, expired, place) => SendTry(b, t, mail, forever, expired, place)
    case DoSendRetry(t, expired, place) => SendRetry(b, t, expired, place)
    case DoRecv(t, forever, expired, place) => RecvTry(b, t, forever, expired, place)
    case DoRecvRetry(t, expired, place) => RecvRetry(b, t, expired, place)
    case DoSenderTimeout(t) => (b.(senders := Expire(b.senders, t)), Goes)
    case DoReceiverTimeout(t) => (b.(receivers := Expire(b.receivers, t)), Goes)
    case DoSenderResume(t) => (b.(senders := Stray(b.senders, t)), Goes)
    case DoReceiverResume(t) => (b.(receivers := Stray(b.receivers, t)), Goes)
    case DoReset => (Reset(b), Goes)
  }

  /** The call goes on while its thread is on the list. */
  predicate InVain(b: Box, step: Step) {
    (step.DoSendRetry? && step.t in b.senders.waiting) || (step.DoRecvRetry? && step.t in b.receivers.waiting)
  }

  // ----- the invariant

  /** While receivers wait, each mail has a woken receiver coming for it; while senders wait, each free
      place has a woken sender coming for it. */
  ghost predicate NoLostWakeup(b: Box) { Served(b.receivers, |b.mails|) && Served(b.senders, b.size - |b.mails|) }

  ghost predicate Inv(b: Box) { |b.mails| <= b.size && SideOk(b.receivers) && SideOk(b.senders) && NoLostWakeup(b) }

  lemma SendTryInv(b: Box, t: Tid, mail: Mail, forever: bool, expired: bool, place: nat)
    requires Inv(b) && (OutOf(b.senders, t) || GoesOn(b.senders, t))
    ensures Inv(SendTry(b, t, mail, forever, expired, place).0)
  {
    DoneSpec(b.senders, t);
    JoinSpec(b.senders, t, mail, forever, place);
    ResumeFirstSpec(b.receivers);
    FewerByOne(Woken(b.senders), t);
  }

  lemma RecvTryInv(b: Box, t: Tid, forever: bool, expired: bool, place: nat)
    requires Inv(b) && (OutOf(b.receivers, t) || GoesOn(b.receivers, t))
    ensures Inv(RecvTry(b, t, forever, expired, place).0)
  {
    DoneSpec(b.receivers, t);
    JoinSpec(b.receivers, t, (), forever, place);
    ResumeFirstSpec(b.senders);
    FewerByOne(Woken(b.receivers), t);
  }

  /** A thread that goes on with an error leaves the woken ones as they are. */
  lemma FailedSpec<A(!new)>(s: Side<A>, t: Tid)
    requires SideOk(s) && GoesOn(s, t) && s.threads[t].error != EOK
    ensures SideOk(Done(s, t)) && Woken(Done(s, t)) == Woken(s) && Done(s, t).waiting == s.waiting
  {
    DoneSpec(s, t);
    assert Woken(s) - {t} == Woken(s);
  }

  lemma VainBreaks(b: Box, step: Step)
    requires Inv(b) && Legal(b, step) && InVain(b, step)
    ensures !Inv(Apply(b, step).0)
  {
    if step.DoSendRetry? {
      var pc := b.senders.threads[step.t];
      VainSpec(b.senders, step.t, pc.arg, pc.forever, step.place);
    } else {
      VainSpec(b.receivers, step.t, (), b.receivers.threads[step.t].forever, step.place);
    }
  }

  lemma StepInv(b: Box, step: Step)
    requires Inv(b) && Legal(b, step) && !InVain(b, step)
    ensures Inv(Apply(b, step).0)
  {
    match step
    case DoSend(t, mail, forever, expired, place) => SendTryInv(b, t, mail, forever, expired, place);
    case DoSendRetry(t, expired, place) =>
      var pc := b.senders.threads[t];
      if pc.error == EOK { SendTryInv(b, t, pc.arg, pc.forever, expired && !pc.forever, place); } else { FailedSpec(b.senders, t); }
    case DoRecv(t, forever, expired, place) => RecvTryInv(b, t, forever, expired, place);
    case DoRecvRetry(t, expired, place) =>
      var pc := b.receivers.threads[t];
      if pc.error == EOK { RecvTryInv(b, t, pc.forever, expired && !pc.forever, place); } else { FailedSpec(b.receivers, t); }
    case DoSenderTimeout(t) => ExpireSpec(b.senders, t);
    case DoReceiverTimeout(t) => ExpireSpec(b.receivers, t);
    case DoSenderResume(t) => StraySpec(b.senders, t);
    case DoReceiverResume(t) => StraySpec(b.receivers, t);
    case DoReset =>
      FailAllSpec(b.senders);
      FailAllSpec(b.receivers);
  }

  predicate LegalRun(b: Box, steps: seq<Step>)
    decreases |steps|
  {
    steps == [] || (Legal(b, steps[0]) && LegalRun(Apply(b, steps[0]).0, steps[1..]))
  }

  function Run(b: Box, steps: seq<Step>): Box
    requires LegalRun(b, steps)
    decreases |steps|
  {
    if steps == [] then b else Run(Apply(b, steps[0]).0, steps[1..])
  }

  predicate NoneInVain(b: Box, steps: seq<Step>)
    requires LegalRun(b, steps)
    decreases |steps|
  {
    steps == [] || (!InVain(b, steps[0]) && NoneInVain(Apply(b, steps[0]).0, steps[1..]))
  }

  ghost predicate InvThroughout(b: Box, steps: seq<Step>)
    requires LegalRun(b, steps)
    decreases |steps|
  {
    Inv(b) && (steps == [] || InvThroughout(Apply(b, steps[0]).0, steps[1..]))
  }

  lemma StepInvExactly(b: Box, step: Step)
    requires Inv(b) && Legal(b, step)
    ensures Inv(Apply(b, step).0) <==> !InVain(b, step)
  {
    if InVain(b, step) { VainBreaks(b, step); } else { StepInv(b, step); }
  }

  /** No interleaving of senders, receivers, timeouts, strays and resets loses a wakeup, as long as nobody goes on in vain. */
  lemma {:induction false} RunKeeps(b: Box, steps: seq<Step>)
    requires Inv(b) && LegalRun(b, steps) && NoneInVain(b, steps)
    ensures Inv(Run(b, steps))
    decreases |steps|
  {
    if steps != [] {
      StepInv(b, steps[0]);
      RunKeeps(Apply(b, steps[0]).0, steps[1..]);
    }
  }

  lemma {:induction false} RunKeepsExactly(b: Box, steps: seq<Step>)
    requires Inv(b) && LegalRun(b, steps)
    ensures InvThroughout(b, steps) <==> NoneInVain(b, steps)
    decreases |steps|
  {
    if steps != [] {
      StepInvExactly(b, steps[0]);
      if !InVain(b, steps[0]) { RunKeepsExactly(Apply(b, steps[0]).0, steps[1..]); }
    }
  }

  lemma BoxKeeps(size: nat, steps: seq<Step>)
    requires LegalRun(Init(size), steps)
    ensures InvThroughout(Init(size), steps) <==> NoneInVain(Init(size), steps)
    ensures NoneInVain(Init(size), steps) ==> NoLostWakeup(Run(Init(size), steps)) && |Run(Init(size), steps).mails| <= size
  {
    RunKeepsExactly(Init(size), steps);
    if NoneInVain(Init(size), steps) {
      RunKeeps(Init(size), steps);
      SameSize(Init(size), steps);
    }
  }

  lemma {:induction false} SameSize(b: Box, steps: seq<Step>)
    requires LegalRun(b, steps)
    ensures Run(b, steps).size == b.size
    decreases |steps|
  {
    if steps != [] { SameSize(Apply(b, steps[0]).0, steps[1..]); }
  }

  // ----- what the calls return, and what is delivered

  /** What the callers know: the mails accepted and not delivered yet, and the calls under way. */
  datatype Log = Log(mails: seq<Mail>, sends: Calls<Mail>, recvs: Calls<()>)

  /** The log after a step, from its result alone. */
  function Noted(l: Log, b: Box, step: Step, out: Outcome): Log {
    match step
    case DoSend(t, mail, forever, _, _) => SendNoted(l, t, mail, forever, out)
    case DoSendRetry(t, _, _) => if t in l.sends then SendNoted(l, t, l.sends[t].arg, l.sends[t].forever, out) else l
    case DoRecv(t, forever, _, _) => RecvNoted(l, t, forever, out)
    case DoRecvRetry(t, _, _) => if t in l.recvs then RecvNoted(l, t, l.recvs[t].forever, out) else l
    case DoSenderTimeout(t) => l.(sends := TimedOut(l.sends, t))
    case DoReceiverTimeout(t) => l.(recvs := TimedOut(l.recvs, t))
    case DoReset => Log([], Failed(l.sends, b.senders.waiting), Failed(l.recvs, b.receivers.waiting))
    case _ => l
  }

  function SendNoted(l: Log, t: Tid, mail: Mail, forever: bool, out: Outcome): Log {
    if out.Goes? then l.(sends := Entered(l.sends, t, mail, forever))
    else l.(sends := l.sends - {t}, mails := if out == Returns(EOK) then l.mails + [mail] else l.mails)
  }

  function RecvNoted(l: Log, t: Tid, forever: bool, out: Outcome): Log {
    if out.Goes? then l.(recvs := Entered(l.recvs, t, (), forever))
    else l.(recvs := l.recvs - {t}, mails := if out.Delivers? && l.mails != [] then l.mails[1..] else l.mails)
  }

  ghost predicate Agrees(b: Box, l: Log) { b.mails == l.mails && Knows(b.senders, l.sends) && Knows(b.receivers, l.recvs) }

  /** A try to send is accepted exactly if there is room, and refused exactly if there is none and no time is left. */
  predicate SendAnswers(b: Box, out: Outcome, expired: bool) {
    && (out == Returns(EOK) <==> |b.mails| != b.size) && (out == Returns(EFULL) <==> |b.mails| == b.size && expired)
    && (out == Goes <==> |b.mails| == b.size && !expired)
  }

  /** A try to receive delivers the oldest mail, if there is any. */
  predicate RecvAnswers(mails: seq<Mail>, out: Outcome, expired: bool) {
    && (mails != [] ==> out == Delivers(mails[0]))
    && (out == Returns(ETIMEOUT) <==> mails == [] && expired) && (out == Goes <==> mails == [] && !expired)
  }

  predicate SendGoesOn(b: Box, c: Call<Mail>, expired: bool, out: Outcome) {
    if c.fate == EOK then SendAnswers(b, out, expired && !c.forever) else out == Returns(c.fate)
  }

  predicate RecvGoesOn(mails: seq<Mail>, c: Call<()>, expired: bool, out: Outcome) {
    if c.fate == EOK then RecvAnswers(mails, out, expired && !c.forever) else out == Returns(c.fate)
  }

  /** One try, on entry or after a wait, and the log of it. */
  ghost predicate SendTried(b: Box, l: Log, r: Box, out: Outcome, t: Tid, mail: Mail, forever: bool, expired: bool) {
    Agrees(r, SendNoted(l, t, mail, forever, out)) && SendAnswers(b, out, expired)
  }

  ghost predicate RecvTried(l: Log, r: Box, out: Outcome, t: Tid, forever: bool, expired: bool) {
    Agrees(r, RecvNoted(l, t, forever, out)) && RecvAnswers(l.mails, out, expired)
  }

  lemma SendTryKnown(b: Box, l: Log, t: Tid, mail: Mail, forever: bool, expired: bool, place: nat)
    requires Agrees(b, l)
    ensures var (r, out) := SendTry(b, t, mail, forever, expired, place); SendTried(b, l, r, out, t, mail, forever, expired)
  {
    DoneKnown(b.senders, l.sends, t);
    JoinKnown(b.senders, l.sends, t, mail, forever, place);
  }

  lemma RecvTryKnown(b: Box, l: Log, t: Tid, forever: bool, expired: bool, place: nat)
    requires Agrees(b, l)
    ensures var (r, out) := RecvTry(b, t, forever, expired, place); RecvTried(l, r, out, t, forever, expired)
  {
    DoneKnown(b.receivers, l.recvs, t);
    JoinKnown(b.receivers, l.recvs, t, (), forever, place);
  }

  /** Every call answers as its caller can tell from the log; one that waited returns the error it was given
      meanwhile, if any, and else tries again with what it was called with. */
  lemma SendResults(b: Box, l: Log, step: Step)
    requires Agrees(b, l) && Legal(b, step) && (step.DoSend? || step.DoSendRetry?)
    ensures var (r, out) := Apply(b, step); Agrees(r, Noted(l, b, step, out))
    ensures step.DoSend? ==> SendAnswers(b, Apply(b, step).1, step.expired)
    ensures step.DoSendRetry? ==> step.t in l.sends && SendGoesOn(b, l.sends[step.t], step.expired, Apply(b, step).1)
  {
    match step
    case DoSend(t, mail, forever, expired, place) => SendTryKnown(b, l, t, mail, forever, expired, place);
    case DoSendRetry(t, expired, place) =>
      var c := l.sends[t];
      DoneKnown(b.senders, l.sends, t);
      SendTryKnown(b, l, t, c.arg, c.forever, expired && !c.forever, place);
  }

  lemma RecvResults(b: Box, l: Log, step: Step)
    requires Agrees(b, l) && Legal(b, step) && (step.DoRecv? || step.DoRecvRetry?)
    ensures var (r, out) := Apply(b, step); Agrees(r, Noted(l, b, step, out))
    ensures step.DoRecv? ==> RecvAnswers(l.mails, Apply(b, step).1, step.expired)
    ensures step.DoRecvRetry? ==> step.t in l.recvs && RecvGoesOn(l.mails, l.recvs[step.t], step.expired, Apply(b, step).1)
  {
    match step
    case DoRecv(t, forever, expired, place) => RecvTryKnown(b, l, t, forever, expired, place);
    case DoRecvRetry(t, expired, place) =>
      var c := l.recvs[t];
      DoneKnown(b.receivers, l.recvs, t);
      RecvTryKnown(b, l, t, c.forever, expired && !c.forever, place);
  }

  lemma StepAgrees(b: Box, l: Log, step: Step)
    requires Agrees(b, l) && Legal(b, step)
    ensures var (r, out) := Apply(b, step); Agrees(r, Noted(l, b, step, out))
  {
    match step
    case DoSenderTimeout(t) => ExpireKnown(b.senders, l.sends, t);
    case DoReceiverTimeout(t) => ExpireKnown(b.receivers, l.recvs, t);
    case DoSenderResume(_) =>
    case DoReceiverResume(_) =>
    case DoReset =>
      FailAllKnown(b.senders, l.sends);
      FailAllKnown(b.receivers, l.recvs);
    case _ => if step.DoSend? || step.DoSendRetry? { SendResults(b, l, step); } else { RecvResults(b, l, step); }
  }

  /** The mail of a send that returns RT_EOK. */
  function Sent(l: Log, step: Step, out: Outcome): seq<Mail> {
    if out != Returns(EOK) then []
    else
      match step
      case DoSend(_, mail, _, _, _) => [mail]
      case DoSendRetry(t, _, _) => if t in l.sends then [l.sends[t].arg] else []
      case _ => []
  }

  /** The mail a step delivers, and those that a reset wipes out. */
  function Left(l: Log, step: Step, out: Outcome): seq<Mail> {
    if out.Delivers? then [out.mail] else if step.DoReset? then l.mails else []
  }

  /** The mails of a run accepted, in the order in which they were. */
  function Accepted(b: Box, l: Log, steps: seq<Step>): seq<Mail>
    requires LegalRun(b, steps)
    decreases |steps|
  {
    if steps == [] then []
    else
      var (r, out) := Apply(b, steps[0]);
      Sent(l, steps[0], out) + Accepted(r, Noted(l, b, steps[0], out), steps[1..])
  }

  /** The mails delivered or wiped out, in order. */
  function Gone(b: Box, l: Log, steps: seq<Step>): seq<Mail>
    requires LegalRun(b, steps)
    decreases |steps|
  {
    if steps == [] then []
    else
      var (r, out) := Apply(b, steps[0]);
      Left(l, steps[0], out) + Gone(r, Noted(l, b, steps[0], out), steps[1..])
  }

  /** What a step puts in, and what it takes out. */
  lemma StepFlow(b: Box, l: Log, step: Step)
    requires Agrees(b, l) && Legal(b, step)
    ensures var (r, out) := Apply(b, step); b.mails + Sent(l, step, out) == Left(l, step, out) + r.mails
  {
    StepAgrees(b, l, step);
    StepAnswers(b, l, step);
    NotedFlow(l, b, step, Apply(b, step).1);
  }

  /** Only a send is accepted, and only a receive delivers, and then the oldest mail. */
  predicate Fits(l: Log, step: Step, out: Outcome) {
    && (out == Returns(EOK) ==> step.DoSend? || (step.DoSendRetry? && step.t in l.sends))
    && (out.Delivers? ==> (step.DoRecv? || (step.DoRecvRetry? && step.t in l.recvs)) && l.mails != [] && out.mail == l.mails[0])
  }

  lemma StepAnswers(b: Box, l: Log, step: Step)
    requires Agrees(b, l) && Legal(b, step)
    ensures Fits(l, step, Apply(b, step).1)
  {
    if step.DoSend? || step.DoSendRetry? {
      SendResults(b, l, step);
    } else if step.DoRecv? || step.DoRecvRetry? {
      RecvResults(b, l, step);
    }
  }

  lemma NotedFlow(l: Log, b: Box, step: Step, out: Outcome)
    requires Fits(l, step, out)
    ensures l.mails + Sent(l, step, out) == Left(l, step, out) + Noted(l, b, step, out).mails
  {
    var k := Noted(l, b, step, out);
    assert l.mails + [] == l.mails && [] + k.mails == k.mails && l.mails == l.mails + [];
    if out.Delivers? {
      assert k.mails == l.mails[1..] && l.mails == [l.mails[0]] + l.mails[1..] == Left(l, step, out) + k.mails;
    } else if out == Returns(EOK) {
      assert k.mails == l.mails + Sent(l, step, out) && Left(l, step, out) == [];
    } else {
      assert k.mails == if step.DoReset? then [] else l.mails;
    }
  }

  lemma Chained(was: seq<Mail>, sent: seq<Mail>, gone: seq<Mail>, now: seq<Mail>, sent': seq<Mail>, gone': seq<Mail>, end: seq<Mail>)
    requires was + sent == gone + now && now + sent' == gone' + end
    ensures was + (sent + sent') == (gone + gone') + end
  {
    assert was + (sent + sent') == (was + sent) + sent' == gone + (now + sent');
  }

  /** First in, first out, over every run: what was there and was accepted is what was delivered or wiped out and
      what is still there, in this order. */
  lemma {:induction false} InTheOrderSent(b: Box, l: Log, steps: seq<Step>)
    requires Agrees(b, l) && LegalRun(b, steps)
    ensures b.mails + Accepted(b, l, steps) == Gone(b, l, steps) + Run(b, steps).mails
    decreases |steps|
  {
    if steps != [] {
      var (r, out) := Apply(b, steps[0]);
      StepAgrees(b, l, steps[0]);
      StepFlow(b, l, steps[0]);
      var k := Noted(l, b, steps[0], out);
      InTheOrderSent(r, k, steps[1..]);
      Chained(b.mails, Sent(l, steps[0], out), Left(l, steps[0], out), r.mails,
              Accepted(r, k, steps[1..]), Gone(r, k, steps[1..]), Run(r, steps[1..]).mails);
    } else {
      assert b.mails + [] == [] + b.mails;
    }
  }

  /** A mail accepted resumes the most urgent receiver, a mail delivered the most urgent sender. */
  lemma MailWakes(b: Box, t: Tid, mail: Mail, forever: bool, expired: bool, place: nat, rank: Tid -> nat)
    requires SideOk(b.senders) && SideOk(b.receivers) && InOrder(b.receivers.waiting, rank) && InOrder(b.senders.waiting, rank)
    ensures |b.mails| != b.size && b.receivers.waiting != [] ==>
              Wakes(b.receivers, SendTry(b, t, mail, forever, expired, place).0.receivers, b.receivers.waiting[0], rank)
    ensures b.mails != [] && b.senders.waiting != [] ==>
              Wakes(b.senders, RecvTry(b, t, forever, expired, place).0.senders, b.senders.waiting[0], rank)
  {
    if b.receivers.waiting != [] { WakesFirst(b.receivers, rank); }
    if b.senders.waiting != [] { WakesFirst(b.senders, rank); }
  }

  // ----- in place

  /** The ring from place `from` on holds the mails. */
  predicate Ring(pool: seq<Mail>, from: nat, mails: seq<Mail>)
    requires from < |pool| || |pool| == 0
  {
    |mails| <= |pool| && forall i :: 0 <= i < |mails| ==> mails[i] == pool[Place(from, i, |pool|)]
  }

  function Place(from: nat, i: nat, n: nat): (p: nat)
    requires from < n && i < n
    ensures p < n
  {
    if from + i < n then from + i else from + i - n
  }

  class Mailbox {
    const byPriority: bool         // RT_IPC_FLAG_PRIO
    const msgPool: array<Mail>
    var entry: nat
    var inOffset: nat
    var outOffset: nat
    var receivers: Side<()>
    var senders: Side<Mail>
    ghost var mails: seq<Mail>

    ghost function State(): Box
      reads this
    {
      Box(msgPool.Length, mails, receivers, senders)
    }

    /** Both offsets follow from where the first mail is and how many there are. */
    ghost predicate Linked()
      reads this, msgPool
    {
      && entry == |mails| && (outOffset < msgPool.Length || msgPool.Length == 0) && Ring(msgPool[..], outOffset, mails)
      && inOffset == if entry < msgPool.Length then Place(outOffset, entry, msgPool.Length) else outOffset
    }

    constructor (size: nat, byPriority: bool)
      ensures Linked() && fresh(msgPool) && State() == Init(size) && this.byPriority == byPriority
    {
      this.byPriority := byPriority;
      msgPool := new Mail[size];
      entry, inOffset, outOffset := 0, 0, 0;
      receivers, senders, mails := Side([], map[]), Side([], map[]), [];
    }

    /** One pass of the loop of rt_mb_send_wait; `prio` are the current priorities. */
    method TrySend(t: Tid, mail: Mail, forever: bool, expired: bool, prio: Tid -> nat) returns (out: Outcome)
      requires Linked()
      modifies this, msgPool
      ensures Linked()
      ensures (State(), out) == SendTry(old(State()), t, mail, forever, expired, PlaceOf(byPriority, old(senders.waiting), prio, prio(t)))
    {
      if entry == msgPool.Length {
        if expired {
          senders := Done(senders, t);
          return Returns(EFULL);
        }
        var place := FindPlace(byPriority, senders.waiting, prio, prio(t));
        senders := Join(senders, t, mail, forever, place);
        return Goes;
      }
      msgPool[inOffset] := mail;
      inOffset := inOffset + 1;
      if inOffset >= msgPool.Length { inOffset := 0; }
      entry := entry + 1;
      mails := mails + [mail];
      senders := Done(senders, t);
      receivers := ResumeFirst(receivers);
      out := Returns(EOK);
    }

    /** One pass of the loop of rt_mb_recv. */
    method TryRecv(t: Tid, forever: bool, expired: bool, prio: Tid -> nat) returns (out: Outcome)
      requires Linked()
      modifies this
      ensures Linked()
      ensures (State(), out) == RecvTry(old(State()), t, forever, expired, PlaceOf(byPriority, old(receivers.waiting), prio, prio(t)))
    {
      if entry == 0 {
        if expired {
          receivers := Done(receivers, t);
          return Returns(ETIMEOUT);
        }
        var place := FindPlace(byPriority, receivers.waiting, prio, prio(t));
        receivers := Join(receivers, t, (), forever, place);
        return Goes;
      }
      out := Delivers(msgPool[outOffset]);
      outOffset := outOffset + 1;
      if outOffset >= msgPool.Length { outOffset := 0; }
      entry := entry - 1;
      mails := mails[1..];
      receivers := Done(receivers, t);
      senders := ResumeFirst(senders);
    }

    method ResetBox()
      requires Linked()
      modifies this
      ensures Linked() && State() == Reset(old(State()))
    {
      receivers := FailAll(receivers);
      senders := FailAll(senders);
      entry, inOffset, outOffset := 0, 0, 0;
      mails := [];
    }
  }
}
