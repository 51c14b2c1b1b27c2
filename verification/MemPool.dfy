/** Memory pools (mempool.c): blocks of one size on a free list that runs through their header words.
    Blocks are numbered; -1 plays the null pointer. */
module MemPools {
  import opened Sequences
  import opened WaitLists
  import opened WaitOrder

  const NIL: int := -1

  /** `free` is block_list from its head on. The most recent waiter is the first in line. */
  datatype Pool = Pool(total: nat, free: seq<nat>, freeCount: nat, side: Side<()>)

  datatype Outcome = Gets(block: nat) | Fails(error: Error) | Goes

  function Countup(n: nat): seq<nat> { seq(n, i => i) }

  /** rt_mp_init */
  function Init(total: nat): Pool { Pool(total, Countup(total), total, Side([], map[])) }

  /** The loop of rt_mp_alloc, on entry and after every wait; `expired` once no time is left. */
  function AllocTry(p: Pool, t: Tid, forever: bool, expired: bool): (Pool, Outcome) {
    if p.freeCount > 0 && p.free != [] then
      (p.(free := p.free[1..], freeCount := p.freeCount - 1, side := Done(p.side, t)), Gets(p.free[0]))
    else if expired then (p.(side := Done(p.side, t)), Fails(ETIMEOUT))
    else (p.(side := Join(p.side, t, (), forever, 0)), Goes)
  }

  function AllocRetry(p: Pool, t: Tid, expired: bool): (Pool, Outcome)
    requires InCall(p.side, t)
  {
    var pc := p.side.threads[t];
    if pc.error != EOK then (p.(side := Done(p.side, t)), Fails(pc.error))
    else AllocTry(p, t, pc.forever, expired && !pc.forever)
  }

  /** rt_mp_free */
  function Free(p: Pool, b: nat): Pool { p.(free := [b] + p.free, freeCount := p.freeCount + 1, side := ResumeFirst(p.side)) }

  datatype Step =
    | DoAlloc(t: Tid, forever: bool, expired: bool) | DoAllocRetry(t: Tid, expired: bool)
    | DoFree(b: nat) | DoTimeout(t: Tid) | DoResume(t: Tid)

  /** `out` are the blocks the callers hold: they free no other. */
  predicate Legal(p: Pool, out: set<nat>, step: Step) {
    match step
    case DoAlloc(t, forever, expired) => OutOf(p.side, t) && !(forever && expired)
    case DoAllocRetry(t, _) => InCall(p.side, t)
    case DoFree(b) => b in out
    case DoTimeout(t) => t in p.side.waiting && t in p.side.threads && p.side.threads[t].Waits? && !p.side.threads[t].forever
    case DoResume(t) => t in p.side.waiting
  }

  function Apply(p: Pool, out: set<nat>, step: Step): (Pool, Outcome)
    requires Legal(p, out, step)
  {
    match step
    case DoAlloc(t, forever, expired) => AllocTry(p, t, forever, expired)
    case DoAllocRetry(t, expired) => AllocRetry(p, t, expired)
    case DoFree(b) => (Free(p, b), Goes)
    case DoTimeout(t) => (p.(side := Expire(p.side, t)), Goes)
    case DoResume(t) => (p.(side := Stray(p.side, t)), Goes)
  }

  /** The call goes on while its thread is on the list. */
  predicate InVain(p: Pool, step: Step) { step.DoAllocRetry? && step.t in p.side.waiting }

  /** What the callers hold, from the results alone. */
  function Held(out: set<nat>, step: Step, r: Outcome): set<nat> {
    if step.DoFree? then out - {step.b} else if r.Gets? then out + {r.block} else out
  }

  // ----- the invariant

  /** The free count is the length of the free list, and every block is either on it or handed out. */
  ghost predicate BlocksOk(p: Pool, out: set<nat>) {
    && p.freeCount == |p.free| && Distinct(p.free)
    && (forall b :: b in p.free ==> b < p.total && b !in out)
    && (forall b :: b in out ==> b < p.total)
    && forall b: nat :: b < p.total ==> b in p.free || b in out
  }

  ghost predicate Inv(p: Pool, out: set<nat>) { BlocksOk(p, out) && SideOk(p.side) && Served(p.side, p.freeCount) }

  lemma TakeInv(p: Pool, out: set<nat>, t: Tid)
    requires Inv(p, out) && (OutOf(p.side, t) || GoesOn(p.side, t)) && p.free != []
    ensures p.free[0] !in out
    ensures Inv(p.(free := p.free[1..], freeCount := p.freeCount - 1, side := Done(p.side, t)), out + {p.free[0]})
  {
    DoneSpec(p.side, t);
    FewerByOne(Woken(p.side), t);
    TailSpec(p.free);
    assert p.free[0] in p.free;
  }

  lemma TryInv(p: Pool, out: set<nat>, t: Tid, forever: bool, expired: bool)
    requires Inv(p, out) && (OutOf(p.side, t) || (GoesOn(p.side, t) && p.side.threads[t].error == EOK))
    ensures var (r, o) := AllocTry(p, t, forever, expired); Inv(r, if o.Gets? then out + {o.block} else out)
    ensures var o := AllocTry(p, t, forever, expired).1; (o.Gets? ==> o.block !in out) && (o.Gets? <==> p.freeCount > 0)
  {
    if p.free != [] {
      TakeInv(p, out, t);
    } else {
      DoneSpec(p.side, t);
      JoinSpec(p.side, t, (), forever, 0);
    }
  }

  lemma RetryInv(p: Pool, out: set<nat>, t: Tid, expired: bool)
    requires Inv(p, out) && GoesOn(p.side, t)
    ensures var (r, o) := AllocRetry(p, t, expired); Inv(r, if o.Gets? then out + {o.block} else out) && (o.Gets? ==> o.block !in out)
  {
    var pc := p.side.threads[t];
    if pc.error == EOK {
      TryInv(p, out, t, pc.forever, expired && !pc.forever);
    } else {
      DoneSpec(p.side, t);
      assert Woken(p.side) - {t} == Woken(p.side);
    }
  }

  lemma FreeInv(p: Pool, out: set<nat>, b: nat)
    requires Inv(p, out) && b in out
    ensures Inv(Free(p, b), out - {b})
  {
    PushSpec(p.free, b);
    ResumeFirstSpec(p.side);
  }

  /** Blocks are conserved all the same. */
  lemma StepBlocks(p: Pool, out: set<nat>, step: Step)
    requires BlocksOk(p, out) && Legal(p, out, step)
    ensures var (r, o) := Apply(p, out, step); BlocksOk(r, Held(out, step, o)) && r.total == p.total && (o.Gets? ==> o.block !in out)
  {
    if step.DoFree? {
      PushSpec(p.free, step.b);
    } else if p.free != [] {
      TailSpec(p.free);
      assert p.free[0] in p.free;
    }
  }

  lemma VainBreaks(p: Pool, out: set<nat>, step: Step)
    requires Inv(p, out) && Legal(p, out, step) && InVain(p, step)
    ensures !SideOk(Apply(p, out, step).0.side)
  {
    VainSpec(p.side, step.t, (), p.side.threads[step.t].forever, 0);
  }

  /** Every step conserves the blocks, hands out none twice, and loses no wakeup, whoever gets in between. */
  lemma StepInv(p: Pool, out: set<nat>, step: Step)
    requires Inv(p, out) && Legal(p, out, step) && !InVain(p, step)
    ensures var (r, o) := Apply(p, out, step); Inv(r, Held(out, step, o)) && r.total == p.total && (o.Gets? ==> o.block !in out)
  {
    match step
    case DoAlloc(t, forever, expired) => TryInv(p, out, t, forever, expired);
    case DoAllocRetry(t, expired) => RetryInv(p, out, t, expired);
    case DoFree(b) => FreeInv(p, out, b);
    case DoTimeout(t) => ExpireSpec(p.side, t);
    case DoResume(t) => StraySpec(p.side, t);
  }

  predicate LegalRun(p: Pool, out: set<nat>, steps: seq<Step>)
    decreases |steps|
  {
    steps == [] ||
    (Legal(p, out, steps[0]) &&
     var (r, o) := Apply(p, out, steps[0]); LegalRun(r, Held(out, steps[0], o), steps[1..]))
  }

  function Run(p: Pool, out: set<nat>, steps: seq<Step>): (Pool, set<nat>)
    requires LegalRun(p, out, steps)
    decreases |steps|
  {
    if steps == [] then (p, out)
    else
      var (r, o) := Apply(p, out, steps[0]);
      Run(r, Held(out, steps[0], o), steps[1..])
  }

  predicate NoneInVain(p: Pool, out: set<nat>, steps: seq<Step>)
    requires LegalRun(p, out, steps)
    decreases |steps|
  {
    steps == [] ||
    (!InVain(p, steps[0]) &&
     var (r, o) := Apply(p, out, steps[0]); NoneInVain(r, Held(out, steps[0], o), steps[1..]))
  }

  ghost predicate InvThroughout(p: Pool, out: set<nat>, steps: seq<Step>)
    requires LegalRun(p, out, steps)
    decreases |steps|
  {
    Inv(p, out) &&
    (steps == [] ||
     var (r, o) := Apply(p, out, steps[0]); InvThroughout(r, Held(out, steps[0], o), steps[1..]))
  }

  lemma StepInvExactly(p: Pool, out: set<nat>, step: Step)
    requires Inv(p, out) && Legal(p, out, step)
    ensures var (r, o) := Apply(p, out, step); Inv(r, Held(out, step, o)) <==> !InVain(p, step)
  {
    if InVain(p, step) { VainBreaks(p, out, step); } else { StepInv(p, out, step); }
  }

  lemma {:induction false} RunKeeps(p: Pool, out: set<nat>, steps: seq<Step>)
    requires Inv(p, out) && LegalRun(p, out, steps) && NoneInVain(p, out, steps)
    ensures var (r, o) := Run(p, out, steps); Inv(r, o) && r.total == p.total
    decreases |steps|
  {
    if steps != [] {
      StepInv(p, out, steps[0]);
      var (r, o) := Apply(p, out, steps[0]);
      RunKeeps(r, Held(out, steps[0], o), steps[1..]);
    }
  }

  lemma {:induction false} RunKeepsExactly(p: Pool, out: set<nat>, steps: seq<Step>)
    requires Inv(p, out) && LegalRun(p, out, steps)
    ensures InvThroughout(p, out, steps) <==> NoneInVain(p, out, steps)
    decreases |steps|
  {
    if steps != [] {
      StepInvExactly(p, out, steps[0]);
      var (r, o) := Apply(p, out, steps[0]);
      if !InVain(p, steps[0]) { RunKeepsExactly(r, Held(out, steps[0], o), steps[1..]); }
    }
  }

  /** Whatever the wait list comes to, blocks are neither lost nor handed out twice. */
  lemma {:induction false} RunBlocks(p: Pool, out: set<nat>, steps: seq<Step>)
    requires BlocksOk(p, out) && LegalRun(p, out, steps)
    ensures var (r, o) := Run(p, out, steps); BlocksOk(r, o) && r.total == p.total
    decreases |steps|
  {
    if steps != [] {
      StepBlocks(p, out, steps[0]);
      var (r, o) := Apply(p, out, steps[0]);
      RunBlocks(r, Held(out, steps[0], o), steps[1..]);
    }
  }

  lemma Conserved(p: Pool, out: set<nat>)
    requires BlocksOk(p, out)
    ensures p.freeCount + |out| == p.total
  {
    ElementsOf(p.free);
    assert Elems(p.free) + out == UpTo(p.total) && Elems(p.free) !! out;
  }

  lemma CountupSpec(n: nat)
    ensures Distinct(Countup(n)) && forall b: nat :: b in Countup(n) <==> b < n
  {
    forall b: nat | b < n ensures b in Countup(n) { assert Countup(n)[b] == b; }
  }

  /** Over every run from a fresh pool free plus held is the total, and no wakeup is lost as long as nobody goes on in vain. */
  lemma PoolConserves(total: nat, steps: seq<Step>)
    requires LegalRun(Init(total), {}, steps)
    ensures var (p, out) := Run(Init(total), {}, steps); p.freeCount + |out| == total
    ensures InvThroughout(Init(total), {}, steps) <==> NoneInVain(Init(total), {}, steps)
    ensures NoneInVain(Init(total), {}, steps) ==> var p := Run(Init(total), {}, steps).0; Served(p.side, p.freeCount)
  {
    CountupSpec(total);
    RunKeepsExactly(Init(total), {}, steps);
    if NoneInVain(Init(total), {}, steps) { RunKeeps(Init(total), {}, steps); }
    RunBlocks(Init(total), {}, steps);
    var (p, out) := Run(Init(total), {}, steps);
    Conserved(p, out);
  }

  // ----- what the calls return, and who is resumed

  /** The calls under way, from the steps and their results alone. */
  function Noted(c: Calls<()>, step: Step, o: Outcome): Calls<()> {
    match step
    case DoAlloc(t, forever, _) => if o.Goes? then Entered(c, t, (), forever) else c
    case DoAllocRetry(t, _) =>
      if t !in c then c else if o.Goes? then Entered(c, t, (), c[t].forever) else c - {t}
    case DoTimeout(t) => TimedOut(c, t)
    case _ => c
  }

  /** A try gets a block exactly if one is free, and a timeout exactly if none is and no time is left. */
  predicate Answers(p: Pool, o: Outcome, expired: bool) {
    (o.Gets? <==> p.free != []) && (o == Fails(ETIMEOUT) <==> p.free == [] && expired) && (o == Goes <==> p.free == [] && !expired)
  }

  /** A call that waited returns the error it was given meanwhile, if any, and else tries again. */
  predicate GoesOnAs(p: Pool, c: Call<()>, expired: bool, o: Outcome) {
    if c.fate == EOK then Answers(p, o, expired && !c.forever) else o == Fails(c.fate)
  }

  lemma StepResults(p: Pool, out: set<nat>, c: Calls<()>, step: Step)
    requires BlocksOk(p, out) && Knows(p.side, c) && Legal(p, out, step)
    ensures var (r, o) := Apply(p, out, step); Knows(r.side, Noted(c, step, o))
    ensures step.DoAlloc? ==> Answers(p, Apply(p, out, step).1, step.expired)
    ensures step.DoAllocRetry? ==> step.t in c && GoesOnAs(p, c[step.t], step.expired, Apply(p, out, step).1)
  {
    match step
    case DoAlloc(t, forever, expired) =>
      DoneKnown(p.side, c, t);
      assert c - {t} == c;
      JoinKnown(p.side, c, t, (), forever, 0);
    case DoAllocRetry(t, expired) =>
      DoneKnown(p.side, c, t);
      JoinKnown(p.side, c, t, (), c[t].forever, 0);
    case DoTimeout(t) => ExpireKnown(p.side, c, t);
    case _ =>
  }

  function RunCalls(p: Pool, out: set<nat>, c: Calls<()>, steps: seq<Step>): Calls<()>
    requires LegalRun(p, out, steps)
    decreases |steps|
  {
    if steps == [] then c
    else
      var (r, o) := Apply(p, out, steps[0]);
      RunCalls(r, Held(out, steps[0], o), Noted(c, steps[0], o), steps[1..])
  }

  lemma {:induction false} RunKnows(p: Pool, out: set<nat>, c: Calls<()>, steps: seq<Step>)
    requires BlocksOk(p, out) && Knows(p.side, c) && LegalRun(p, out, steps)
    ensures Knows(Run(p, out, steps).0.side, RunCalls(p, out, c, steps))
    decreases |steps|
  {
    if steps != [] {
      var (r, o) := Apply(p, out, steps[0]);
      StepBlocks(p, out, steps[0]);
      StepResults(p, out, c, steps[0]);
      RunKnows(r, Held(out, steps[0], o), Noted(c, steps[0], o), steps[1..]);
    }
  }

  /** The block freed last is handed out first. */
  lemma LastFreedFirst(p: Pool, out: set<nat>, b: nat, t: Tid, forever: bool, expired: bool)
    requires BlocksOk(p, out) && b in out
    ensures AllocTry(Free(p, b), t, forever, expired).1 == Gets(b)
  {
  }

  /** With `rank` saying how late a thread came, the latest first: one that joins goes in front, and a release
      resumes the one that came last. */
  lemma LastComesFirst(p: Pool, t: Tid, forever: bool, b: nat, rank: Tid -> nat)
    requires SideOk(p.side) && InOrder(p.side.waiting, rank)
    ensures p.side.waiting != [] ==> Wakes(p.side, Free(p, b).side, p.side.waiting[0], rank)
    ensures p.side.waiting == [] ==> Free(p, b).side == p.side
    ensures (forall u :: u in p.side.waiting ==> rank(t) <= rank(u)) && p.free == [] ==>
              InOrder(AllocTry(p, t, forever, false).0.side.waiting, rank)
  {
    if p.side.waiting != [] { WakesFirst(p.side, rank); }
  }

  // ----- in place

  /** A header word: the next free block, or the pool the block belongs to. */
  datatype Word = Link(next: int) | Owner(pool: nat)

  /** From block `b` the links lead through `q`. */
  predicate Chain(header: seq<Word>, b: int, q: seq<nat>)
    decreases |q|
  {
    if q == [] then b == NIL
    else b == q[0] && q[0] < |header| && header[q[0]].Link? && Chain(header, header[q[0]].next, q[1..])
  }

  lemma {:induction false} ChainFrame(header: seq<Word>, header': seq<Word>, b: int, q: seq<nat>)
    requires Chain(header, b, q) && |header'| == |header| && forall x :: x in q && x < |header| ==> header'[x] == header[x]
    ensures Chain(header', b, q)
    decreases |q|
  {
    if q != [] { ChainFrame(header, header', header[q[0]].next, q[1..]); }
  }

  lemma {:induction false} ChainUp(header: seq<Word>, n: nat, total: nat)
    requires n <= total == |header| && forall i :: 0 <= i < total ==> header[i] == Link(if i + 1 < total then i + 1 else NIL)
    ensures Chain(header, if n < total then n else NIL, Countup(total)[n..])
    decreases total - n
  {
    if n < total { ChainUp(header, n + 1, total); }
  }

  class MemPool {
    const id: nat
    var header: array<Word>
    var blockList: int
    var freeCount: nat             // block_free_count
    var side: Side<()>
    ghost var free: seq<nat>

    ghost function State(): Pool
      reads this
    {
      Pool(header.Length, free, freeCount, side)
    }

    /** The links are the free list, and the header of every other block names the pool. */
    ghost predicate Linked()
      reads this, header
    {
      Chain(header[..], blockList, free) && forall b: nat :: b < header.Length && b !in free ==> header[b] == Owner(id)
    }

    /** rt_mp_init, for a pool that holds at least one block. */
    constructor (id: nat, total: nat)
      requires total > 0
      ensures Linked() && fresh(header) && header.Length == total && State() == Init(total) && this.id == id
    {
      var words := new Word[total];
      var offset := 0;
      while offset < total
        invariant 0 <= offset <= total
        invariant forall i :: 0 <= i < offset ==> words[i] == Link(i + 1)
      {
        words[offset] := Link(offset + 1);
        offset := offset + 1;
      }
      words[offset - 1] := Link(NIL);
      this.id, header, blockList, freeCount, side := id, words, 0, total, Side([], map[]);
      free := Countup(total);
      new;
      CountupSpec(total);
      ChainUp(header[..], 0, total);
      assert Countup(total)[0..] == Countup(total);
    }

    /** The first block leaves the list; its header names the pool. */
    method Pop() returns (block: nat)
      requires Linked() && Distinct(free) && free != [] && freeCount > 0
      modifies `blockList, `freeCount, `free, header
      ensures Linked() && block == old(free[0]) && free == old(free)[1..] && freeCount == old(freeCount) - 1
    {
      ghost var words := header[..];
      TailSpec(free);
      freeCount := freeCount - 1;
      block := blockList;
      blockList := header[block].next;
      header[block] := Owner(id);
      free := free[1..];
      ChainFrame(words, header[..], blockList, free);
    }

    /** One pass of the loop of rt_mp_alloc. */
    method Try(t: Tid, forever: bool, expired: bool) returns (out: Outcome)
      requires Linked() && Distinct(free) && freeCount == |free|
      modifies this, header
      ensures Linked() && header == old(header) && (State(), out) == AllocTry(old(State()), t, forever, expired)
    {
      if freeCount == 0 {
        if expired {
          side := Done(side, t);
          return Fails(ETIMEOUT);
        }
        side := Join(side, t, (), forever, 0);
        return Goes;
      }
      var block := Pop();
      side := Done(side, t);
      out := Gets(block);
    }

    /** rt_mp_free up to its rt_schedule, and whether one is due. */
    method Release(block: nat) returns (due: bool)
      requires Linked() && block < header.Length && block !in free && header[block] == Owner(id)
      modifies this, header
      ensures Linked() && header == old(header) && State() == Free(old(State()), block)
      ensures due <==> old(side).waiting != []
    {
      ghost var words := header[..];
      freeCount := freeCount + 1;
      header[block] := Link(blockList);
      ChainFrame(words, header[..], blockList, free);
      blockList := block;
      assert ([block] + free)[1..] == free;
      free := [block] + free;
      due := side.waiting != [];
      side := ResumeFirst(side);
    }
  }
}
