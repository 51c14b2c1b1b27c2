/** The event object of ipc.c: the send loop takes waiters off the list it walks and clears bits of
    the word it tests. */
module Events {
  import opened EventSpec
  import opened Sequences
  import opened WaitOrder

  /** What the loop has done and what it would still do make up the whole scan. */
  ghost predicate Scanned(all: (Event, seq<Delivery>), bits: set<Bit>, front: seq<Waiter>, rest: seq<Waiter>, resumed: seq<Delivery>) {
    var (e, ds) := Scan(bits, rest);
    all == (Event(e.bits, front + e.waiters), resumed + ds)
  }

  lemma ScanPasses(all: (Event, seq<Delivery>), bits: set<Bit>, front: seq<Waiter>, w: Waiter, rest: seq<Waiter>, resumed: seq<Delivery>)
    requires Scanned(all, bits, front, [w] + rest, resumed)
    ensures var got := Received(w.want, w.option, bits);
      if Satisfied(w.want, w.option, bits)
      then Scanned(all, if w.option.clear then bits - got else bits, front, rest, resumed + [Delivery(w.thread, got, w.option.clear)])
      else Scanned(all, bits, front + [w], rest, resumed)
  {
    assert ([w] + rest)[1..] == rest;
    var got := Received(w.want, w.option, bits);
    var (e, ds) := Scan(if Satisfied(w.want, w.option, bits) && w.option.clear then bits - got else bits, rest);
    assert resumed + ([Delivery(w.thread, got, w.option.clear)] + ds) == resumed + [Delivery(w.thread, got, w.option.clear)] + ds;
    assert front + ([w] + e.waiters) == front + [w] + e.waiters;
  }

  /** The priorities of waiters, given those of threads. */
  function Urgency(prio: Tid -> nat): Waiter -> nat { (w: Waiter) => prio(w.thread) }

  class EventObject {
    const byPriority: bool         // RT_IPC_FLAG_PRIO
    var bits: set<Bit>             // event->set
    var waiters: seq<Waiter>       // suspend_thread

    ghost function State(): Event
      reads this
    {
      Event(bits, waiters)
    }

    constructor (byPriority: bool)
      ensures State() == Event({}, []) && this.byPriority == byPriority
    {
      this.byPriority := byPriority;
      bits, waiters := {}, [];
    }

    /** rt_event_send; the threads it resumes, in order, and whether it went through. */
    method EventSend(raised: set<Bit>) returns (ok: bool, resumed: seq<Delivery>)
      modifies this
      ensures ok <==> raised != {}
      ensures (State(), resumed) == old(Send(State(), raised))
    {
      if raised == {} { return false, []; }
      bits := bits + raised;
      resumed := [];
      var n := 0;
      ghost var all := Scan(bits, waiters);
      assert waiters[0..] == waiters && waiters[..0] + all.0.waiters == all.0.waiters && [] + all.1 == all.1;
      assert Scanned(all, bits, waiters[..0], waiters[0..], resumed);
      while n < |waiters|
        invariant 0 <= n <= |waiters|
        invariant Scanned(all, bits, waiters[..n], waiters[n..], resumed)
        decreases |waiters| - n
      {
        var w := waiters[n];
        ghost var rest := waiters[n + 1..];
        assert waiters[n..] == [w] + rest;
        ScanPasses(all, bits, waiters[..n], w, rest, resumed);
        var event_set, status := w.want, false;
        if w.option.all {
          status := w.want * bits == w.want;
        } else if w.option.any {
          if w.want * bits != {} {
            event_set := w.want * bits;
            status := true;
          }
        }
        if status {
          if w.option.clear { bits := bits - event_set; }
          Unlink(n);
          assert waiters[n..] == rest;
          resumed := resumed + [Delivery(w.thread, event_set, w.option.clear)];
        } else {
          assert waiters[..n + 1] == waiters[..n] + [w] && waiters[n + 1..] == rest;
          n := n + 1;
        }
      }
      assert waiters[n..] == [] && waiters[..n] + [] == waiters && resumed + [] == resumed;
      ok := true;
    }

    /** The waiter is resumed and with that leaves the list. */
    method Unlink(n: nat)
      requires n < |waiters|
      modifies `waiters
      ensures |waiters| == |old(waiters)| - 1 && waiters[..n] == old(waiters[..n]) && waiters[n..] == old(waiters[n + 1..])
    {
      waiters := waiters[..n] + waiters[n + 1..];
    }

    /** rt_event_recv up to its rt_schedule; `prio` are the current priorities. */
    method EventRecv(t: Tid, want: set<Bit>, option: Option, wait: bool, prio: Tid -> nat) returns (outcome: Outcome)
      requires option.all || option.any
      modifies this
      ensures (State(), outcome) == old(Recv(State(), t, want, option, wait, PlaceOf(byPriority, waiters, Urgency(prio), prio(t))))
    {
      if want == {} { return Refused; }
      var status := false;
      if option.all {
        status := bits * want == want;
      } else if option.any {
        status := bits * want != {};
      }
      assert bits * want == want * bits;
      if status {
        outcome := Got(bits * want);
        if option.clear { bits := bits - want; }
      } else if !wait {
        outcome := TimedOut;
      } else {
        var place := FindPlace(byPriority, waiters, Urgency(prio), prio(t));
        waiters := Insert(waiters, place, Waiter(t, want, option, false));
        outcome := Waits;
      }
    }

    /** rt_event_control with RT_IPC_CMD_RESET; the threads it resumes with an error, in order. */
    method EventReset() returns (failed: seq<Tid>)
      modifies this
      ensures State() == Event({}, [])
      ensures |failed| == |old(waiters)| && forall i :: 0 <= i < |failed| ==> failed[i] == old(waiters)[i].thread
    {
      failed := [];
      ghost var all := waiters;
      while waiters != []
        invariant |failed| + |waiters| == |all| && waiters == all[|failed|..]
        invariant forall i :: 0 <= i < |failed| ==> failed[i] == all[i].thread
        decreases |waiters|
      {
        failed := failed + [waiters[0].thread];
        waiters := waiters[1..];
      }
      bits := {};
    }
  }
}
