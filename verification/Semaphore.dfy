/** Counting semaphores (ipc.c): a release hands its token to the first waiter or adds it to a 16-bit
    counter. Every token is accounted for. */
module Semaphores {
  import opened Sequences
  import opened WaitLists
  import opened WaitOrder

  const MODULUS: nat := 0x1_0000      // value is 16 bits wide

  datatype Sem = Sem(value: nat, side: Side<()>)

  datatype Outcome = Returns(error: Error) | Goes

  // ----- rt_sem_take, rt_sem_release, rt_sem_control

  function Take(s: Sem, t: Tid, wait: bool, forever: bool, place: nat): (Sem, Outcome) {
    if s.value > 0 then (Sem(s.value - 1, Done(s.side, t)), Returns(EOK))
    else if !wait then (s.(side := Done(s.side, t)), Returns(ETIMEOUT))
    else (s.(side := Join(s.side, t, (), forever, place)), Goes)
  }

  /** After its rt_schedule the call returns what the thread finds as its error, whether it is off the list or not. */
  function TakeReturn(s: Sem, t: Tid): (Sem, Outcome)
    requires InCall(s.side, t)
  {
    (s.(side := Done(s.side, t)), Returns(s.side.threads[t].error))
  }

  function Release(s: Sem): Sem {
    if s.side.waiting != [] then s.(side := ResumeFirst(s.side)) else s.(value := (s.value + 1) % MODULUS)
  }

  function Reset(s: Sem, value: nat): Sem { Sem(value % MODULUS, FailAll(s.side)) }

  datatype Step =
    | DoTake(t: Tid, wait: bool, forever: bool, place: nat) | DoTakeReturn(t: Tid) | DoRelease
    | DoTimeout(t: Tid) | DoResume(t: Tid) | DoReset(value: nat)

  predicate Legal(s: Sem, step: Step) {
    match step
    case DoTake(t, wait, forever, _) => OutOf(s.side, t) && (forever ==> wait)
    case DoTakeReturn(t) => InCall(s.side, t)
    case DoRelease => true
    case DoTimeout(t) => t in s.side.waiting && t in s.side.threads && s.side.threads[t].Waits? && !s.side.threads[t].forever
    case DoResume(t) => t in s.side.waiting
    case DoReset(_) => true
  }

  function Apply(s: Sem, step: Step): (Sem, Outcome)
    requires Legal(s, step)
  {
    match step
    case DoTake(t, wait, forever, place) => Take(s, t, wait, forever, place)
    case DoTakeReturn(t) => TakeReturn(s, t)
    case DoRelease => (Release(s), Goes)
    case DoTimeout(t) => (s.(side := Expire(s.side, t)), Goes)
    case DoResume(t) => (s.(side := Stray(s.side, t)), Goes)
    case DoReset(value) => (Reset(s, value), Goes)
  }

  // ----- the account

  /** What the callers see: releases made, and takes that returned EOK. */
  datatype Account = Account(released: int, taken: int)

  function Booked(a: Account, step: Step, out: Outcome): Account {
    if step.DoRelease? then a.(released := a.released + 1)
    else if out == Returns(EOK) then a.(taken := a.taken + 1)
    else a
  }

  /** Nobody waits while there is a token, and a thread waits in one place only. */
  ghost predicate Inv(s: Sem) { s.value < MODULUS && SideOk(s.side) && (s.side.waiting != [] ==> s.value == 0) }

  /** Tokens put in are in the counter, on their way to a woken thread, or taken. */
  ghost predicate Balanced(s: Sem, initial: int, a: Account) { initial + a.released == s.value + |Woken(s.side)| + a.taken }

  /** The call comes back while its thread is on the list. */
  predicate InVain(s: Sem, step: Step) { step.DoTakeReturn? && step.t in s.side.waiting }

  /** What upsets the account: a waiter resumed from outside and one that comes back in vain take a token
      nobody released, a counter at its limit loses all, and a reset sets what it likes. */
  predicate Keeps(s: Sem, step: Step) {
    match step
    case DoResume(_) => false
    case DoTakeReturn(t) => t !in s.side.waiting
    case DoRelease => s.side.waiting != [] || s.value + 1 < MODULUS
    case DoReset(value) => value % MODULUS == s.value
    case _ => true
  }

  lemma StepInv(s: Sem, step: Step)
    requires Inv(s) && Legal(s, step)
    ensures Inv(Apply(s, step).0) <==> !InVain(s, step)
  {
    match step
    case DoTake(t, wait, forever, place) =>
      DoneSpec(s.side, t);
      JoinSpec(s.side, t, (), forever, place);
    case DoTakeReturn(t) => if t in s.side.waiting { VainSpec(s.side, t, (), true, 0); } else { DoneSpec(s.side, t); }
    case DoRelease => ResumeFirstSpec(s.side);
    case DoTimeout(t) => ExpireSpec(s.side, t);
    case DoResume(t) => StraySpec(s.side, t);
    case DoReset(_) => FailAllSpec(s.side);
  }

  lemma NoneWoken(side: Side<()>, t: Tid)
    requires OutOf(side, t)
    ensures t !in Woken(side)
  {
  }

  lemma ReturnCounts(s: Sem, t: Tid)
    requires Inv(s) && GoesOn(s.side, t)
    ensures var (r, out) := TakeReturn(s, t); |Woken(r.side)| == |Woken(s.side)| - (if out == Returns(EOK) then 1 else 0)
  {
    DoneSpec(s.side, t);
    if s.side.threads[t].error == EOK {
      assert t in Woken(s.side);
    } else {
      assert Woken(s.side) - {t} == Woken(s.side);
    }
  }

  /** A take that comes back in vain reports success, and the account does not notice. */
  lemma VainCounts(s: Sem, t: Tid)
    requires Inv(s) && t in s.side.waiting
    ensures InCall(s.side, t)
    ensures var (r, out) := TakeReturn(s, t); out == Returns(EOK) && Woken(r.side) == Woken(s.side) && r.value == s.value
  {
  }

  lemma TakeCounts(s: Sem, t: Tid, wait: bool, forever: bool, place: nat)
    requires Inv(s) && OutOf(s.side, t)
    ensures Woken(Take(s, t, wait, forever, place).0.side) == Woken(s.side)
  {
    NoneWoken(s.side, t);
    DoneSpec(s.side, t);
    JoinSpec(s.side, t, (), forever, place);
    assert Woken(s.side) - {t} == Woken(s.side);
  }

  /** Exactly when a step keeps the account. */
  lemma StepBalances(s: Sem, step: Step, initial: int, a: Account)
    requires Inv(s) && Legal(s, step) && Balanced(s, initial, a)
    ensures var (r, out) := Apply(s, step); Balanced(r, initial, Booked(a, step, out)) <==> Keeps(s, step)
  {
    match step
    case DoTake(t, wait, forever, place) => TakeCounts(s, t, wait, forever, place);
    case DoTakeReturn(t) => if t in s.side.waiting { VainCounts(s, t); } else { ReturnCounts(s, t); }
    case DoRelease => ResumeFirstSpec(s.side);
    case DoTimeout(t) => ExpireSpec(s.side, t);
    case DoResume(t) => StraySpec(s.side, t);
    case DoReset(_) => FailAllSpec(s.side);
  }

  // ----- runs

  predicate LegalRun(s: Sem, steps: seq<Step>)
    decreases |steps|
  {
    steps == [] || (Legal(s, steps[0]) && LegalRun(Apply(s, steps[0]).0, steps[1..]))
  }

  predicate KeepsRun(s: Sem, steps: seq<Step>)
    requires LegalRun(s, steps)
    decreases |steps|
  {
    steps == [] || (Keeps(s, steps[0]) && KeepsRun(Apply(s, steps[0]).0, steps[1..]))
  }

  function Run(s: Sem, steps: seq<Step>): Sem
    requires LegalRun(s, steps)
    decreases |steps|
  {
    if steps == [] then s else Run(Apply(s, steps[0]).0, steps[1..])
  }

  function RunAccount(s: Sem, steps: seq<Step>, a: Account): Account
    requires LegalRun(s, steps)
    decreases |steps|
  {
    if steps == [] then a
    else
      var (r, out) := Apply(s, steps[0]);
      RunAccount(r, steps[1..], Booked(a, steps[0], out))
  }

  function Init(value: nat): Sem { Sem(value % MODULUS, Side([], map[])) }

  lemma {:induction false} RunBalances(s: Sem, steps: seq<Step>, initial: int, a: Account)
    requires Inv(s) && Balanced(s, initial, a) && LegalRun(s, steps) && KeepsRun(s, steps)
    ensures Inv(Run(s, steps)) && Balanced(Run(s, steps), initial, RunAccount(s, steps, a))
    decreases |steps|
  {
    if steps != [] {
      var (r, out) := Apply(s, steps[0]);
      StepInv(s, steps[0]);
      StepBalances(s, steps[0], initial, a);
      RunBalances(r, steps[1..], initial, Booked(a, steps[0], out));
    }
  }

  /** The account is in balance in every state of the run. */
  ghost predicate BalancedThroughout(s: Sem, steps: seq<Step>, initial: int, a: Account)
    requires LegalRun(s, steps)
    decreases |steps|
  {
    Balanced(s, initial, a) &&
    (steps == [] ||
     var (r, out) := Apply(s, steps[0]);
     BalancedThroughout(r, steps[1..], initial, Booked(a, steps[0], out)))
  }

  lemma {:induction false} RunBalancesExactly(s: Sem, steps: seq<Step>, initial: int, a: Account)
    requires Inv(s) && Balanced(s, initial, a) && LegalRun(s, steps)
    ensures BalancedThroughout(s, steps, initial, a) <==> KeepsRun(s, steps)
    decreases |steps|
  {
    if steps != [] {
      var (r, out) := Apply(s, steps[0]);
      StepInv(s, steps[0]);
      StepBalances(s, steps[0], initial, a);
      if Keeps(s, steps[0]) { RunBalancesExactly(r, steps[1..], initial, Booked(a, steps[0], out)); }
    }
  }

  /** No more takes succeed than tokens were put in; so a semaphore of one that is released only after
      a take lets one thread in at a time. */
  lemma TakesAreCovered(value: nat, steps: seq<Step>)
    requires value < MODULUS && LegalRun(Init(value), steps) && KeepsRun(Init(value), steps)
    ensures var a := RunAccount(Init(value), steps, Account(0, 0)); a.taken <= value + a.released
  {
    var s := Init(value);
    assert Woken(s.side) == {};
    RunBalances(s, steps, value, Account(0, 0));
  }

  /** A take that waits for ever on an empty semaphore, with the scheduler locked. */
  function TakeInVain(t: Tid): seq<Step> { [DoTake(t, true, true, 0), DoTakeReturn(t)] }

  /** It succeeds although no token was put in. */
  lemma VainTakeSucceeds(t: Tid)
    ensures LegalRun(Init(0), TakeInVain(t)) && !KeepsRun(Init(0), TakeInVain(t))
    ensures RunAccount(Init(0), TakeInVain(t), Account(0, 0)) == Account(0, 1)
  {
    var s, steps := Init(0), TakeInVain(t);
    var r := Apply(s, steps[0]).0;
    assert r.side.waiting == [t] && steps[1..] == [DoTakeReturn(t)];
    assert LegalRun(r, steps[1..]) && !KeepsRun(r, steps[1..]);
    assert RunAccount(r, steps[1..], Account(0, 0)) == Account(0, 1);
  }

  // ----- what the calls return, and who is resumed

  /** The calls under way, from the steps and their results alone. */
  function Noted(c: Calls<()>, s: Sem, step: Step, out: Outcome): Calls<()> {
    match step
    case DoTake(t, _, forever, _) => if out.Goes? then Entered(c, t, (), forever) else c
    case DoTakeReturn(t) => c - {t}
    case DoTimeout(t) => TimedOut(c, t)
    case DoReset(_) => Failed(c, s.side.waiting)
    case _ => c
  }

  /** A take gets its token at once exactly if there is one, and a timeout exactly if there is none and it must not
      wait; one that waited returns RT_EOK unless it timed out or the semaphore was reset meanwhile. */
  lemma StepResults(s: Sem, c: Calls<()>, step: Step)
    requires Knows(s.side, c) && Legal(s, step)
    ensures var (r, out) := Apply(s, step); Knows(r.side, Noted(c, s, step, out))
    ensures var out := Apply(s, step).1;
            step.DoTake? ==> && (out == Returns(EOK) <==> s.value > 0) && (out == Returns(ETIMEOUT) <==> s.value == 0 && !step.wait)
                             && (out == Goes <==> s.value == 0 && step.wait)
    ensures step.DoTakeReturn? ==> step.t in c && Apply(s, step).1 == Returns(c[step.t].fate)
  {
    match step
    case DoTake(t, wait, forever, place) =>
      DoneKnown(s.side, c, t);
      assert c - {t} == c;
      JoinKnown(s.side, c, t, (), forever, place);
    case DoTakeReturn(t) => DoneKnown(s.side, c, t);
    case DoTimeout(t) => ExpireKnown(s.side, c, t);
    case DoReset(_) => FailAllKnown(s.side, c);
    case _ =>
  }

  function RunCalls(s: Sem, c: Calls<()>, steps: seq<Step>): Calls<()>
    requires LegalRun(s, steps)
    decreases |steps|
  {
    if steps == [] then c
    else
      var (r, out) := Apply(s, steps[0]);
      RunCalls(r, Noted(c, s, steps[0], out), steps[1..])
  }

  lemma {:induction false} RunKnows(s: Sem, c: Calls<()>, steps: seq<Step>)
    requires Knows(s.side, c) && LegalRun(s, steps)
    ensures Knows(Run(s, steps).side, RunCalls(s, c, steps))
    decreases |steps|
  {
    if steps != [] {
      var (r, out) := Apply(s, steps[0]);
      StepResults(s, c, steps[0]);
      RunKnows(r, Noted(c, s, steps[0], out), steps[1..]);
    }
  }

  /** A release resumes the first, which is at least as urgent as all that stay, and adds to the counter only if
      nobody waits. */
  lemma ReleaseWakes(s: Sem, rank: Tid -> nat)
    requires Inv(s) && InOrder(s.side.waiting, rank)
    ensures var r := Release(s);
      if s.side.waiting == [] then r.side == s.side && r.value == (if s.value == 0xffff then 0 else s.value + 1)
      else r.value == s.value == 0 && Wakes(s.side, r.side, s.side.waiting[0], rank)
  {
    if s.side.waiting != [] { WakesFirst(s.side, rank); }
  }

  // ----- in place

  class Semaphore {
    const byPriority: bool         // RT_IPC_FLAG_PRIO
    var value: nat
    var side: Side<()>

    ghost function State(): Sem
      reads this
    {
      Sem(value, side)
    }

    constructor (v: nat, byPriority: bool)
      requires v < MODULUS
      ensures State() == Init(v) && this.byPriority == byPriority
    {
      this.byPriority := byPriority;
      value, side := v, Side([], map[]);
    }

    /** rt_sem_take up to its rt_schedule; `prio` are the current priorities. */
    method TakeEnter(t: Tid, wait: bool, forever: bool, prio: Tid -> nat) returns (out: Outcome)
      modifies this
      ensures (State(), out) == Take(old(State()), t, wait, forever, PlaceOf(byPriority, old(side.waiting), prio, prio(t)))
    {
      if value > 0 {
        value := value - 1;
        side := Done(side, t);
        return Returns(EOK);
      }
      if !wait {
        side := Done(side, t);
        return Returns(ETIMEOUT);
      }
      var place := FindPlace(byPriority, side.waiting, prio, prio(t));
      side := Join(side, t, (), forever, place);
      return Goes;
    }

    /** rt_sem_release up to its rt_schedule, and whether one is due. */
    method Give() returns (due: bool)
      modifies this
      ensures State() == Release(old(State())) && (due <==> old(side).waiting != [])
    {
      due := false;
      if side.waiting != [] {
        side := ResumeFirst(side);
        due := true;
      } else {
        value := (value + 1) % MODULUS;
      }
    }
  }
}
