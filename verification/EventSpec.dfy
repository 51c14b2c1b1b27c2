/** Event objects (ipc.c). An event word is the set of its bits; a waiter is a thread with the set
    and options it filled in before it was suspended. */
module EventSpec {
  import opened Sequences

  type Tid = nat
  type Bit = nat

  /** RT_EVENT_FLAG_AND, RT_EVENT_FLAG_OR, RT_EVENT_FLAG_CLEAR */
  datatype Option = Option(all: bool, any: bool, clear: bool)

  /** `gone` once the call came back although its thread is still on the list. */
  datatype Waiter = Waiter(thread: Tid, want: set<Bit>, option: Option, gone: bool)

  datatype Event = Event(bits: set<Bit>, waiters: seq<Waiter>)

  /** A receive that came to its end with these bits. */
  datatype Delivery = Delivery(thread: Tid, bits: set<Bit>, clear: bool)

  /** The condition both calls test: AND if that is asked for, else OR. */
  predicate Satisfied(want: set<Bit>, option: Option, bits: set<Bit>) {
    if option.all then want * bits == want else option.any && want * bits != {}
  }

  /** What a satisfied waiter ends up with in its event_set. */
  function Received(want: set<Bit>, option: Option, bits: set<Bit>): set<Bit> {
    if option.all then want else want * bits
  }

  /** The loop of rt_event_send over the wait list. */
  function Scan(bits: set<Bit>, waiters: seq<Waiter>): (Event, seq<Delivery>)
    decreases |waiters|
  {
    if waiters == [] then (Event(bits, []), [])
    else
      var w := waiters[0];
      if Satisfied(w.want, w.option, bits) then
        var got := Received(w.want, w.option, bits);
        var (e, ds) := Scan(if w.option.clear then bits - got else bits, waiters[1..]);
        (e, [Delivery(w.thread, got, w.option.clear)] + ds)
      else
        var (e, ds) := Scan(bits, waiters[1..]);
        (Event(e.bits, [w] + e.waiters), ds)
  }

  /** rt_event_send */
  function Send(e: Event, raised: set<Bit>): (Event, seq<Delivery>) {
    if raised == {} then (e, []) else Scan(e.bits + raised, e.waiters)
  }

  datatype Outcome = Got(bits: set<Bit>) | TimedOut | Waits | Refused

  /** rt_event_recv up to its rt_schedule; `place` is where rt_ipc_list_suspend puts the thread. */
  function Recv(e: Event, t: Tid, want: set<Bit>, option: Option, wait: bool, place: nat): (Event, Outcome) {
    if want == {} then (e, Refused)
    else if Satisfied(want, option, e.bits) then
      (e.(bits := if option.clear then e.bits - want else e.bits), Got(e.bits * want))
    else if !wait then (e, TimedOut)
    else (e.(waiters := Insert(e.waiters, place, Waiter(t, want, option, false))), Waits)
  }

  /** The call of `t` waits on the list. */
  predicate Waiting(ws: seq<Waiter>, t: Tid)
    decreases |ws|
  {
    ws != [] && ((ws[0].thread == t && !ws[0].gone) || Waiting(ws[1..], t))
  }

  function Pick(ws: seq<Waiter>, t: Tid): (w: Waiter)
    requires Waiting(ws, t)
    ensures w in ws && w.thread == t && !w.gone
    decreases |ws|
  {
    if ws[0].thread == t && !ws[0].gone then ws[0] else Pick(ws[1..], t)
  }

  function Mark(ws: seq<Waiter>, t: Tid): seq<Waiter>
    requires Waiting(ws, t)
    decreases |ws|
  {
    if ws[0].thread == t && !ws[0].gone then [ws[0].(gone := true)] + ws[1..] else [ws[0]] + Mark(ws[1..], t)
  }

  /** A timeout takes the thread off the wait list. */
  function Leave(ws: seq<Waiter>, t: Tid): seq<Waiter>
    decreases |ws|
  {
    if ws == [] then [] else if ws[0].thread == t then ws[1..] else [ws[0]] + Leave(ws[1..], t)
  }

  datatype Step =
    | DoSend(raised: set<Bit>)
    | DoRecv(t: Tid, want: set<Bit>, option: Option, wait: bool, place: nat)
    | DoTimeout(t: Tid)
    | DoResume(t: Tid)
    | DoReturnInVain(t: Tid)
    | DoReset

  /** One of AND and OR is asked for, as the source asserts, and a thread is in one call at a time. A receive may
      come back while its thread is on the list: its rt_schedule found the scheduler locked, or nothing else ready. */
  predicate Legal(e: Event, s: Step) {
    match s
    case DoRecv(t, _, option, _, _) => (option.all || option.any) && !Waiting(e.waiters, t)
    case DoTimeout(t) => Waiting(e.waiters, t)
    case DoResume(t) => Waiting(e.waiters, t)
    case DoReturnInVain(t) => Waiting(e.waiters, t)
    case _ => true
  }

  /** The new state and the receives that ended with RT_EOK. One that was resumed from outside, or not at all, finds
      in its event_set all it asked for. */
  function Apply(e: Event, s: Step): (Event, seq<Delivery>)
    requires Legal(e, s)
  {
    match s
    case DoSend(raised) => Send(e, raised)
    case DoRecv(t, want, option, wait, place) =>
      var (r, o) := Recv(e, t, want, option, wait, place);
      (r, if o.Got? then [Delivery(t, o.bits, option.clear)] else [])
    case DoTimeout(t) => (e.(waiters := Leave(e.waiters, t)), [])
    case DoResume(t) =>
      var w := Pick(e.waiters, t);
      (e.(waiters := Leave(e.waiters, t)), [Delivery(t, w.want, w.option.clear)])
    case DoReturnInVain(t) =>
      var w := Pick(e.waiters, t);
      (e.(waiters := Mark(e.waiters, t)), [Delivery(t, w.want, w.option.clear)])
    case DoReset => (Event({}, []), [])
  }

  // ----- the promises

  /** What is asked for is there: with AND all of it, else some of it. */
  predicate Met(want: set<Bit>, all: bool, bits: set<Bit>) { if all then want <= bits else !(want !! bits) }

  /** Nobody is left waiting for what is there. */
  ghost predicate NobodySatisfied(e: Event) {
    forall w :: w in e.waiters ==> w.want != {} && (w.option.all || w.option.any) && !Met(w.want, w.option.all, e.bits)
  }

  /** How many receives with CLEAR took bit `b`. */
  function Consumed(ds: seq<Delivery>, b: Bit): nat
    decreases |ds|
  {
    if ds == [] then 0 else (if ds[0].clear && b in ds[0].bits then 1 else 0) + Consumed(ds[1..], b)
  }

  function Holds(e: Event, b: Bit): nat { if b in e.bits then 1 else 0 }

  /** Bit `b` goes from 0 to 1. */
  function Raises(e: Event, s: Step, b: Bit): nat { if s.DoSend? && b in s.raised && b !in e.bits then 1 else 0 }

  /** Bit `b` is wiped out by a reset. */
  function Wipes(e: Event, s: Step, b: Bit): nat { if s.DoReset? && b in e.bits then 1 else 0 }
}
