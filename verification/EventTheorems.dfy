/** No waiter is left satisfied, and no raised bit is consumed twice. */
module EventTheorems {
  import opened EventSpec
  import opened Sequences

  /** The test of both calls: with AND that all bits asked for are there, with OR that some are. */
  lemma SatisfiedIs(want: set<Bit>, option: Option, bits: set<Bit>)
    requires option.all || option.any
    ensures Satisfied(want, option, bits) <==> Met(want, option.all, bits)
    ensures Satisfied(want, option, bits) ==> Received(want, option, bits) == want * bits
  {
    Within(want, bits);
  }

  lemma Within(want: set<Bit>, bits: set<Bit>)
    ensures want * bits == want <==> want <= bits
    ensures want * bits == {} <==> want !! bits
  {
    if want * bits == {} {
      forall b | b in want ensures b !in bits { assert b in bits ==> b in want * bits; }
    }
  }

  /** A receive is refused exactly if it asks for nothing; it gets what is there of what it asks for exactly if that
      is enough, and otherwise gives up or waits as it was told. */
  lemma RecvExactly(e: Event, t: Tid, want: set<Bit>, option: Option, wait: bool, place: nat)
    requires option.all || option.any
    ensures var (r, o) := Recv(e, t, want, option, wait, place); var met := Met(want, option.all, e.bits);
      && (o == Refused <==> want == {})
      && (o == Got(want * e.bits) <==> want != {} && met) && (o.Got? ==> o.bits == want * e.bits)
      && (o == TimedOut <==> want != {} && !met && !wait)
      && (o == Waits <==> want != {} && !met && wait)
      && r.bits == (if o.Got? && option.clear then e.bits - want else e.bits)
      && (if o == Waits then r.waiters == Insert(e.waiters, place, Waiter(t, want, option, false)) else r.waiters == e.waiters)
  {
    SatisfiedIs(want, option, e.bits);
    assert e.bits * want == want * e.bits;
  }

  // ----- a send, turn by turn

  ghost predicate Asking(ws: seq<Waiter>) { forall w :: w in ws ==> w.option.all || w.option.any }

  /** The bits when it is the turn of waiter `i`: those whose turn was before took theirs if they clear. */
  function TurnBits(bits: set<Bit>, ws: seq<Waiter>, i: nat): set<Bit>
    requires i <= |ws|
  {
    if i == 0 then bits
    else
      var b, w := TurnBits(bits, ws, i - 1), ws[i - 1];
      if Met(w.want, w.option.all, b) && w.option.clear then b - w.want else b
  }

  function Resumed(bits: set<Bit>, ws: seq<Waiter>, i: nat): seq<Delivery>
    requires i <= |ws|
  {
    if i == 0 then []
    else
      var b, w := TurnBits(bits, ws, i - 1), ws[i - 1];
      Resumed(bits, ws, i - 1) + if Met(w.want, w.option.all, b) then [Delivery(w.thread, w.want * b, w.option.clear)] else []
  }

  function Left(bits: set<Bit>, ws: seq<Waiter>, i: nat): seq<Waiter>
    requires i <= |ws|
  {
    if i == 0 then []
    else Left(bits, ws, i - 1) + if Met(ws[i - 1].want, ws[i - 1].option.all, TurnBits(bits, ws, i - 1)) then [] else [ws[i - 1]]
  }

  /** The scan so far, and what is still to come. */
  lemma {:induction false} ScanFrom(bits: set<Bit>, ws: seq<Waiter>, i: nat)
    requires i <= |ws| && Asking(ws)
    ensures var (e, ds) := Scan(TurnBits(bits, ws, i), ws[i..]);
            Scan(bits, ws) == (Event(e.bits, Left(bits, ws, i) + e.waiters), Resumed(bits, ws, i) + ds)
    decreases i
  {
    if i == 0 {
      var (e, ds) := Scan(bits, ws);
      assert ws[0..] == ws && [] + e.waiters == e.waiters && [] + ds == ds;
    } else {
      ScanFrom(bits, ws, i - 1);
      OneTurn(bits, ws, i - 1);
    }
  }

  lemma OneTurn(bits: set<Bit>, ws: seq<Waiter>, i: nat)
    requires i < |ws| && Asking(ws)
    ensures var (e, ds) := Scan(TurnBits(bits, ws, i), ws[i..]); var (e', ds') := Scan(TurnBits(bits, ws, i + 1), ws[i + 1..]);
      && e.bits == e'.bits
      && Left(bits, ws, i) + e.waiters == Left(bits, ws, i + 1) + e'.waiters
      && Resumed(bits, ws, i) + ds == Resumed(bits, ws, i + 1) + ds'
  {
    var b, w := TurnBits(bits, ws, i), ws[i];
    assert w in ws && ws[i..][0] == w && ws[i..][1..] == ws[i + 1..];
    SatisfiedIs(w.want, w.option, b);
    assert b - w.want * b == b - w.want;
    var (e', ds') := Scan(TurnBits(bits, ws, i + 1), ws[i + 1..]);
    if Met(w.want, w.option.all, b) {
      var d := Delivery(w.thread, w.want * b, w.option.clear);
      assert Resumed(bits, ws, i) + ([d] + ds') == Resumed(bits, ws, i) + [d] + ds';
      assert Left(bits, ws, i) + [] == Left(bits, ws, i);
    } else {
      assert Left(bits, ws, i) + ([w] + e'.waiters) == Left(bits, ws, i) + [w] + e'.waiters;
      assert Resumed(bits, ws, i) + [] == Resumed(bits, ws, i);
    }
  }

  /** A send resumes each waiter, in order, exactly if at its turn the bits are there that it asks for. */
  lemma SendExactly(e: Event, raised: set<Bit>)
    requires raised != {} && Asking(e.waiters)
    ensures var bits, ws := e.bits + raised, e.waiters;
            Send(e, raised) == (Event(TurnBits(bits, ws, |ws|), Left(bits, ws, |ws|)), Resumed(bits, ws, |ws|))
  {
    var bits, ws := e.bits + raised, e.waiters;
    ScanFrom(bits, ws, |ws|);
    assert ws[|ws|..] == [] && Left(bits, ws, |ws|) + [] == Left(bits, ws, |ws|) && Resumed(bits, ws, |ws|) + [] == Resumed(bits, ws, |ws|);
  }

  // ----- timeouts, resumes from outside, resets

  /** The list without the entry of `t`. */
  ghost predicate Without(ws: seq<Waiter>, t: Tid, rest: seq<Waiter>) {
    exists i :: 0 <= i < |ws| && ws[i].thread == t && rest == ws[..i] + ws[i + 1..]
  }

  lemma {:induction false} LeaveIs(ws: seq<Waiter>, t: Tid) returns (i: nat)
    requires Waiting(ws, t)
    ensures i < |ws| && ws[i].thread == t && Leave(ws, t) == ws[..i] + ws[i + 1..]
    decreases |ws|
  {
    if ws[0].thread == t {
      i := 0;
      assert ws[..0] + ws[1..] == ws[1..];
    } else {
      var j := LeaveIs(ws[1..], t);
      i := j + 1;
      Behind(ws, j);
    }
  }

  lemma Behind(ws: seq<Waiter>, j: nat)
    requires j + 1 < |ws|
    ensures [ws[0]] + (ws[1..][..j] + ws[1..][j + 1..]) == ws[..j + 1] + ws[j + 2..]
  {
    assert ws[1..][..j] == ws[1..j + 1] && ws[1..][j + 1..] == ws[j + 2..];
    assert [ws[0]] + ws[1..j + 1] == ws[..j + 1];
  }

  /** A timeout or a resume takes one thread off the list and changes no bit; a reset leaves no bit and nobody. */
  lemma LeavesExactly(e: Event, s: Step)
    requires Legal(e, s) && (s.DoTimeout? || s.DoResume? || s.DoReset?)
    ensures var r := Apply(e, s).0;
            if s.DoReset? then r.bits == {} && r.waiters == [] else r.bits == e.bits && Without(e.waiters, s.t, r.waiters)
  {
    if !s.DoReset? { var i := LeaveIs(e.waiters, s.t); }
  }

  // ----- nobody is left satisfied

  /** Fewer bits satisfy no more waiters, and the scan only takes bits and waiters away, so whoever is left is not
      satisfied by what is left. */
  lemma {:induction false} ScanLeavesNobody(bits: set<Bit>, waiters: seq<Waiter>)
    requires Asking(waiters) && forall w :: w in waiters ==> w.want != {}
    ensures Scan(bits, waiters).0.bits <= bits
    ensures forall w :: w in Scan(bits, waiters).0.waiters ==> w in waiters
    ensures NobodySatisfied(Scan(bits, waiters).0)
    decreases |waiters|
  {
    if waiters != [] {
      var w := waiters[0];
      SatisfiedIs(w.want, w.option, bits);
      if Satisfied(w.want, w.option, bits) {
        var got := Received(w.want, w.option, bits);
        ScanLeavesNobody(if w.option.clear then bits - got else bits, waiters[1..]);
      } else {
        ScanLeavesNobody(bits, waiters[1..]);
      }
    }
  }

  lemma {:induction false} LeaveSpec(ws: seq<Waiter>, t: Tid)
    ensures forall w :: w in Leave(ws, t) ==> w in ws
    decreases |ws|
  {
    if ws != [] && ws[0].thread != t { LeaveSpec(ws[1..], t); }
  }

  lemma {:induction false} MarkSpec(ws: seq<Waiter>, t: Tid)
    requires Waiting(ws, t)
    ensures |Mark(ws, t)| == |ws| && exists w :: w in Mark(ws, t) && w.gone
    ensures forall v :: v in Mark(ws, t) ==> v in ws || v == Pick(ws, t).(gone := true)
    decreases |ws|
  {
    if ws[0].thread == t && !ws[0].gone {
      assert Mark(ws, t)[0] in Mark(ws, t);
    } else {
      MarkSpec(ws[1..], t);
      var w :| w in Mark(ws[1..], t) && w.gone;
      assert w in Mark(ws, t);
    }
  }

  lemma StepLeavesNobody(e: Event, s: Step)
    requires NobodySatisfied(e) && Legal(e, s)
    ensures NobodySatisfied(Apply(e, s).0)
  {
    match s
    case DoSend(raised) => if raised != {} { ScanLeavesNobody(e.bits + raised, e.waiters); }
    case DoRecv(t, want, option, wait, place) =>
      RecvExactly(e, t, want, option, wait, place);
    case DoTimeout(t) => LeaveSpec(e.waiters, t);
    case DoResume(t) => LeaveSpec(e.waiters, t);
    case DoReturnInVain(t) => MarkSpec(e.waiters, t);
    case DoReset =>
  }

  // ----- who is on the list

  ghost predicate OneEach(ws: seq<Waiter>) { forall i, j :: 0 <= i < j < |ws| ==> ws[i].thread != ws[j].thread }

  /** Nobody is left satisfied, and each waiter is a call that waits, the only one of its thread. */
  ghost predicate Sound(e: Event) {
    && NobodySatisfied(e) && OneEach(e.waiters)
    && forall w :: w in e.waiters ==> !w.gone
  }

  lemma {:induction false} ScanThins(bits: set<Bit>, waiters: seq<Waiter>)
    requires OneEach(waiters)
    ensures OneEach(Scan(bits, waiters).0.waiters) && forall w :: w in Scan(bits, waiters).0.waiters ==> w in waiters
    decreases |waiters|
  {
    if waiters != [] {
      var w := waiters[0];
      var rest := waiters[1..];
      if Satisfied(w.want, w.option, bits) {
        ScanThins(if w.option.clear then bits - Received(w.want, w.option, bits) else bits, rest);
      } else {
        ScanThins(bits, rest);
        Front(w, rest, Scan(bits, rest).0.waiters);
      }
    }
  }

  lemma Front(w: Waiter, rest: seq<Waiter>, left: seq<Waiter>)
    requires OneEach([w] + rest) && OneEach(left) && forall v :: v in left ==> v in rest
    ensures OneEach([w] + left)
  {
    forall j | 0 <= j < |left| ensures left[j].thread != w.thread {
      assert left[j] in rest;
      var i :| 0 <= i < |rest| && rest[i] == left[j];
      assert ([w] + rest)[i + 1] == rest[i] && ([w] + rest)[0] == w;
    }
  }

  lemma {:induction false} LeaveThins(ws: seq<Waiter>, t: Tid)
    requires OneEach(ws)
    ensures OneEach(Leave(ws, t))
    decreases |ws|
  {
    if ws != [] && ws[0].thread != t {
      LeaveThins(ws[1..], t);
      LeaveSpec(ws[1..], t);
      assert [ws[0]] + ws[1..] == ws;
      Front(ws[0], ws[1..], Leave(ws[1..], t));
    }
  }

  lemma {:induction false} NotWaiting(ws: seq<Waiter>, t: Tid)
    requires !Waiting(ws, t) && forall w :: w in ws ==> !w.gone
    ensures forall w :: w in ws ==> w.thread != t
    decreases |ws|
  {
    if ws != [] {
      NotWaiting(ws[1..], t);
      assert ws == [ws[0]] + ws[1..];
    }
  }

  lemma JoinOneEach(ws: seq<Waiter>, w: Waiter, place: nat)
    requires OneEach(ws) && forall v :: v in ws ==> v.thread != w.thread
    ensures OneEach(Insert(ws, place, w)) && forall v :: v in Insert(ws, place, w) <==> v in ws || v == w
  {
    assert place <= |ws| ==> ws == ws[..place] + ws[place..];
  }

  /** The list stays one of calls that wait exactly as long as none comes back in vain. */
  lemma StepSound(e: Event, s: Step)
    requires Sound(e) && Legal(e, s)
    ensures Sound(Apply(e, s).0) <==> !s.DoReturnInVain?
  {
    StepLeavesNobody(e, s);
    match s
    case DoSend(raised) => if raised != {} { ScanThins(e.bits + raised, e.waiters); }
    case DoRecv(t, want, option, wait, place) =>
      NotWaiting(e.waiters, t);
      JoinOneEach(e.waiters, Waiter(t, want, option, false), place);
    case DoTimeout(t) =>
      LeaveThins(e.waiters, t);
      LeaveSpec(e.waiters, t);
    case DoResume(t) =>
      LeaveThins(e.waiters, t);
      LeaveSpec(e.waiters, t);
    case DoReturnInVain(t) => MarkSpec(e.waiters, t);
    case DoReset =>
  }

  // ----- no receive is deceived

  /** Every bit a receive ends with was set. */
  ghost predicate Honest(e: Event, s: Step)
    requires Legal(e, s)
  {
    forall d :: d in Apply(e, s).1 ==> d.bits <= if s.DoSend? then e.bits + s.raised else e.bits
  }

  /** rt_thread_resume on a receiver, and a receive that comes back although nobody resumed its thread. */
  predicate Deceives(s: Step) { s.DoResume? || s.DoReturnInVain? }

  lemma StepHonest(e: Event, s: Step)
    requires Sound(e) && Legal(e, s)
    ensures Honest(e, s) <==> !Deceives(s)
  {
    if Deceives(s) {
      var w := Pick(e.waiters, s.t);
      assert Delivery(s.t, w.want, w.option.clear) in Apply(e, s).1;
      Within(w.want, e.bits);
    } else if s.DoSend? {
      forall d | d in Apply(e, s).1 ensures d.bits <= e.bits + s.raised { ScanFits(e.bits + s.raised, e.waiters, d); }
    }
  }

  // ----- conservation

  /** Over a scan each bit that was there is either still there or went to exactly one receiver
      that clears it. */
  lemma {:induction false} ScanConserves(bits: set<Bit>, waiters: seq<Waiter>, b: Bit)
    ensures (if b in bits then 1 else 0) == Consumed(Scan(bits, waiters).1, b) + Holds(Scan(bits, waiters).0, b)
    decreases |waiters|
  {
    if waiters != [] {
      var w := waiters[0];
      if Satisfied(w.want, w.option, bits) {
        var got := Received(w.want, w.option, bits);
        ReceivedIsThere(w.want, w.option, bits);
        var left := if w.option.clear then bits - got else bits;
        ScanConserves(left, waiters[1..], b);
        assert Scan(bits, waiters).1[1..] == Scan(left, waiters[1..]).1;
      } else {
        ScanConserves(bits, waiters[1..], b);
      }
    }
  }

  lemma ReceivedIsThere(want: set<Bit>, option: Option, bits: set<Bit>)
    requires Satisfied(want, option, bits)
    ensures Received(want, option, bits) == want * bits
  {
  }

  /** The bit was held or raised, and is taken, held or wiped out. */
  ghost predicate Accounted(e: Event, s: Step, b: Bit)
    requires Legal(e, s)
  {
    Holds(e, b) + Raises(e, s, b) == Consumed(Apply(e, s).1, b) + Holds(Apply(e, s).0, b) + Wipes(e, s, b)
  }

  /** No receive with CLEAR is deceived. */
  predicate Fair(e: Event, s: Step)
    requires Legal(e, s)
  {
    Deceives(s) ==> !Pick(e.waiters, s.t).option.clear
  }

  lemma StepConserves(e: Event, s: Step, b: Bit)
    requires Legal(e, s) && Fair(e, s)
    ensures Accounted(e, s, b)
  {
    match s
    case DoSend(raised) => if raised != {} { ScanConserves(e.bits + raised, e.waiters, b); }
    case DoRecv(t, want, option, wait, place) =>
      var ds := Apply(e, s).1;
      if ds != [] { assert ds[1..] == []; }
    case DoTimeout(t) =>
    case DoResume(t) =>
    case DoReturnInVain(t) =>
    case DoReset =>
  }

  /** A receive that is deceived takes bits with it that nobody raised. */
  lemma StepConservesExactly(e: Event, s: Step)
    requires Sound(e) && Legal(e, s)
    ensures (forall b :: Accounted(e, s, b)) <==> Fair(e, s)
  {
    if Fair(e, s) {
      forall b ensures Accounted(e, s, b) { StepConserves(e, s, b); }
    } else {
      var w := Pick(e.waiters, s.t);
      var b :| b in w.want;
      assert Apply(e, s).1 == [Delivery(s.t, w.want, true)];
      assert !Accounted(e, s, b);
    }
  }

  // ----- what a receive gets

  /** Each receive ends with bits it asked for: all of them for AND, at least one for OR. */
  ghost predicate Fits(d: Delivery, want: set<Bit>, option: Option) {
    && d.bits <= want && d.clear == option.clear
    && (option.all ==> d.bits == want) && (!option.all ==> d.bits != {})
  }

  lemma {:induction false} ScanFits(bits: set<Bit>, waiters: seq<Waiter>, d: Delivery)
    requires d in Scan(bits, waiters).1
    ensures d.bits <= bits && exists w :: w in waiters && w.thread == d.thread && Fits(d, w.want, w.option)
    decreases |waiters|
  {
    var w := waiters[0];
    if Satisfied(w.want, w.option, bits) {
      var got := Received(w.want, w.option, bits);
      var left := if w.option.clear then bits - got else bits;
      ReceivedIsThere(w.want, w.option, bits);
      if d == Delivery(w.thread, got, w.option.clear) {
        assert w in waiters && Fits(d, w.want, w.option);
      } else {
        ScanFits(left, waiters[1..], d);
      }
    } else {
      ScanFits(bits, waiters[1..], d);
    }
  }

  // ----- runs

  predicate LegalRun(e: Event, steps: seq<Step>)
    decreases |steps|
  {
    steps == [] || (Legal(e, steps[0]) && LegalRun(Apply(e, steps[0]).0, steps[1..]))
  }

  function Run(e: Event, steps: seq<Step>): (Event, seq<Delivery>)
    requires LegalRun(e, steps)
    decreases |steps|
  {
    if steps == [] then (e, [])
    else
      var (r, ds) := Apply(e, steps[0]);
      var (end, more) := Run(r, steps[1..]);
      (end, ds + more)
  }

  function Raised(e: Event, steps: seq<Step>, b: Bit): nat
    requires LegalRun(e, steps)
    decreases |steps|
  {
    if steps == [] then 0 else Raises(e, steps[0], b) + Raised(Apply(e, steps[0]).0, steps[1..], b)
  }

  function Wiped(e: Event, steps: seq<Step>, b: Bit): nat
    requires LegalRun(e, steps)
    decreases |steps|
  {
    if steps == [] then 0 else Wipes(e, steps[0], b) + Wiped(Apply(e, steps[0]).0, steps[1..], b)
  }

  predicate FairRun(e: Event, steps: seq<Step>)
    requires LegalRun(e, steps)
    decreases |steps|
  {
    steps == [] || (Fair(e, steps[0]) && FairRun(Apply(e, steps[0]).0, steps[1..]))
  }

  ghost predicate HonestThroughout(e: Event, steps: seq<Step>)
    requires LegalRun(e, steps)
    decreases |steps|
  {
    steps == [] || (Honest(e, steps[0]) && HonestThroughout(Apply(e, steps[0]).0, steps[1..]))
  }

  lemma {:induction false} ConsumedConcat(ds: seq<Delivery>, es: seq<Delivery>, b: Bit)
    ensures Consumed(ds + es, b) == Consumed(ds, b) + Consumed(es, b)
    decreases |ds|
  {
    if ds == [] {
      assert ds + es == es;
    } else {
      ConsumedConcat(ds[1..], es, b);
      assert (ds + es)[1..] == ds[1..] + es;
    }
  }

  /** In no reachable state does a suspended receiver's condition hold. */
  lemma {:induction false} RunLeavesNobody(e: Event, steps: seq<Step>)
    requires NobodySatisfied(e) && LegalRun(e, steps)
    ensures NobodySatisfied(Run(e, steps).0)
    decreases |steps|
  {
    if steps != [] {
      StepLeavesNobody(e, steps[0]);
      RunLeavesNobody(Apply(e, steps[0]).0, steps[1..]);
    }
  }

  /** Over a run every raise of a bit is accounted for: taken once by a receiver with CLEAR, still
      held, or wiped out. So with CLEAR everywhere no raised bit reaches two receivers. */
  lemma {:induction false} RunConserves(e: Event, steps: seq<Step>, b: Bit)
    requires LegalRun(e, steps) && FairRun(e, steps)
    ensures Holds(e, b) + Raised(e, steps, b) == Consumed(Run(e, steps).1, b) + Holds(Run(e, steps).0, b) + Wiped(e, steps, b)
    decreases |steps|
  {
    if steps != [] {
      var (r, ds) := Apply(e, steps[0]);
      StepConserves(e, steps[0], b);
      RunConserves(r, steps[1..], b);
      ConsumedConcat(ds, Run(r, steps[1..]).1, b);
    }
  }

  /** All receives of a run end with bits that were set exactly when none is resumed from outside or comes back in vain. */
  lemma {:induction false} RunHonestExactly(e: Event, steps: seq<Step>)
    requires Sound(e) && LegalRun(e, steps)
    ensures HonestThroughout(e, steps) <==> forall i :: 0 <= i < |steps| ==> !Deceives(steps[i])
    decreases |steps|
  {
    if steps != [] {
      StepHonest(e, steps[0]);
      if !Deceives(steps[0]) {
        StepSound(e, steps[0]);
        RunHonestExactly(Apply(e, steps[0]).0, steps[1..]);
        assert forall i :: 0 < i < |steps| ==> steps[i] == steps[1..][i - 1];
      }
    }
  }
}
