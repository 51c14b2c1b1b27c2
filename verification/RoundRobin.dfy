/** Time slicing among threads of one priority: the exact time until each gets its turn. */
module RoundRobin {
  import opened Arithmetic
  import opened KernelSpec
  import opened KernelTheorems

  function Tock(k: Kernel): Kernel { if Sane(k) then Tick(k) else k }

  predicate TickAt(ks: seq<Kernel>, n: nat)
    requires n + 1 < |ks|
  {
    ks[n + 1] == Tock(ks[n])
  }

  /** The states of a run of ticks only, one after the other. */
  ghost predicate Ticking(ks: seq<Kernel>) { ks != [] && forall n: nat :: n + 1 < |ks| ==> TickAt(ks, n) }

  lemma TickingFrom(ks: seq<Kernel>, m: nat)
    requires Ticking(ks) && m < |ks|
    ensures Ticking(ks[m..])
  {
    forall n: nat | n + 1 < |ks[m..]| ensures TickAt(ks[m..], n) { assert TickAt(ks, m + n); }
  }

  /** The threads queued behind the current one. */
  function Behind(k: Kernel): seq<Tid>
    requires Sane(k)
  {
    k.ready[k.threads[k.current].prio]
  }

  predicate Slice(c: Tcb) { 0 < c.remTick < WRAP && 0 < c.initTick < WRAP && !c.yielding }

  /** The scheduler is open, nobody more urgent is ready, and all who share have a slice left. */
  ghost predicate Sharing(k: Kernel) {
    && SchedInv(k) && k.lock == 0 && k.threads[k.current].stat == Running
    && Behind(k) != [] && Highest(k.group, 0) == k.threads[k.current].prio
    && Slice(k.threads[k.current])
    && forall i :: 0 <= i < |Behind(k)| ==> Behind(k)[i] in k.threads && Slice(k.threads[Behind(k)[i]])
  }

  function Left(k: Kernel, n: nat): Tcb
    requires Sane(k) && n <= k.threads[k.current].remTick
  {
    var c := k.threads[k.current];
    c.(remTick := c.remTick - n)
  }

  lemma LeftSharing(k: Kernel, n: nat)
    requires Sharing(k) && n < k.threads[k.current].remTick
    ensures Sharing(Set(k, k.current, Left(k, n)))
  {
    SetInv(k, k.current, Left(k, n));
  }

  lemma NoneGone(k: Kernel)
    requires Sane(k)
    ensures Set(k, k.current, Left(k, 0)) == k
  {
    assert k.threads == k.threads[k.current := k.threads[k.current]];
  }

  /** Within its slice the current thread goes on, one tick less each time. */
  lemma {:induction false} CountDown(ks: seq<Kernel>, n: nat)
    requires Ticking(ks) && Sane(ks[0]) && n < ks[0].threads[ks[0].current].remTick < WRAP && n < |ks|
    ensures ks[n] == Set(ks[0], ks[0].current, Left(ks[0], n))
    decreases n
  {
    if n == 0 {
      NoneGone(ks[0]);
    } else {
      CountDown(ks, n - 1);
      assert TickAt(ks, n - 1);
      CountOn(ks[0], ks[n - 1], ks[n], n - 1);
    }
  }

  lemma CountOn(k: Kernel, now: Kernel, next: Kernel, n: nat)
    requires Sane(k) && n + 1 < k.threads[k.current].remTick < WRAP
    requires now == Set(k, k.current, Left(k, n)) && next == Tock(now)
    ensures next == Set(k, k.current, Left(k, n + 1))
  {
    assert now.threads[now.current].remTick == k.threads[k.current].remTick - n;
    OneLeft(now);
    SetAgain(k, k.current, Left(k, n), Left(k, n + 1));
  }

  lemma OneLeft(k: Kernel)
    requires Sane(k) && 1 < k.threads[k.current].remTick < WRAP
    ensures Tock(k) == Set(k, k.current, Left(k, 1))
  {
  }

  lemma SetAgain(k: Kernel, t: Tid, c: Tcb, d: Tcb)
    ensures Set(Set(k, t, c), t, d) == Set(k, t, d)
  {
    assert k.threads[t := c][t := d] == k.threads[t := d];
  }

  /** At the end of the slice the first in line runs, and the old thread queues up last with a full slice. */
  ghost predicate Rotated(k: Kernel, r: Kernel)
    requires Sane(k) && Behind(k) != []
  {
    var c := k.threads[k.current];
    && Same(k, r) && r.lock == k.lock && r.current == Behind(k)[0] && r.threads[r.current].prio == c.prio && r.threads[r.current].stat == Running
    && Behind(r) == Behind(k)[1..] + [k.current] && Highest(r.group, 0) == c.prio
    && (forall t :: t in k.threads && t != k.current && t != r.current ==> r.threads[t] == k.threads[t])
    && r.threads[k.current] == c.(stat := Ready, remTick := c.initTick)
    && r.threads[r.current] == k.threads[r.current].(stat := Running)
  }

  lemma LastTick(k: Kernel)
    requires Sharing(k) && k.threads[k.current].remTick == 1
    ensures SchedInv(Tick(k)) && Rotated(k, Tick(k))
  {
    var c := k.threads[k.current];
    var d := c.(remTick := c.initTick, yielding := true);
    var k1 := Set(k, k.current, d);
    SetInv(k, k.current, d);
    ScheduleInv(k1);
    assert Lane(k, c.prio) && Behind(k)[0] in Behind(k);
    assert Tick(k) == SwitchTo(k1, Behind(k)[0]);
    SwitchRotates(k, d);
  }

  /** What the switch does to the list of the priority in question, and to the group. */
  lemma SwitchedList(k: Kernel, to: Tid)
    requires Sane(k) && to in k.threads && to != k.current && k.threads[k.current].stat == Running
    requires k.threads[to].prio == k.threads[k.current].prio && Behind(k) != [] && Behind(k)[0] == to
    ensures var r := SwitchTo(k, to); var p := k.threads[to].prio;
            r.ready[p] == Behind(k)[1..] + [k.current] && forall u :: u in r.group ==> u in k.group || u == p
  {
    assert Behind(k) + [k.current] == [to] + (Behind(k)[1..] + [k.current]);
  }

  lemma SwitchRotates(k: Kernel, d: Tcb)
    requires Sharing(k) && d == k.threads[k.current].(remTick := k.threads[k.current].initTick, yielding := true)
    requires Behind(k)[0] in k.threads && Behind(k)[0] != k.current && SchedInv(SwitchTo(Set(k, k.current, d), Behind(k)[0]))
    ensures Rotated(k, SwitchTo(Set(k, k.current, d), Behind(k)[0]))
  {
    var p, to := k.threads[k.current].prio, Behind(k)[0];
    var r := SwitchTo(Set(k, k.current, d), to);
    assert Lane(k, p) && to in Behind(k);
    SwitchedList(Set(k, k.current, d), to);
    assert Lane(r, p);
    SameHighest(k.group, r.group, p);
  }

  lemma SameHighest(g: set<nat>, g': set<nat>, p: nat)
    requires Highest(g, 0) == p < PRIORITIES && p in g' && forall u :: u in g' ==> u in g || u == p
    ensures Highest(g', 0) == p
  {
    HighestSpec(g, 0);
    HighestIs(g', 0, p);
  }

  lemma RotatedSharing(k: Kernel, r: Kernel)
    requires Sharing(k) && Rotated(k, r) && SchedInv(r)
    ensures Sharing(r)
  {
    var p := k.threads[k.current].prio;
    assert Lane(k, p) && Lane(r, p);
    forall i | 0 <= i < |Behind(r)| ensures Behind(r)[i] in r.threads && Slice(r.threads[Behind(r)[i]]) {
      if i < |Behind(k)| - 1 {
        assert Behind(r)[i] == Behind(k)[i + 1];
        assert Behind(k)[i + 1] in Behind(k) && Behind(k)[0] in Behind(k);
      }
    }
  }

  lemma RotatedFrom(k: Kernel, n: nat, r: Kernel)
    requires Sharing(k) && n < k.threads[k.current].remTick && Rotated(Set(k, k.current, Left(k, n)), r)
    ensures Rotated(k, r)
  {
    assert Lane(k, k.threads[k.current].prio) && Behind(k)[0] in Behind(k);
  }

  lemma EndOfSlice(ks: seq<Kernel>)
    requires Ticking(ks) && Sharing(ks[0]) && ks[0].threads[ks[0].current].remTick < |ks|
    ensures var r := ks[ks[0].threads[ks[0].current].remTick]; Rotated(ks[0], r) && Sharing(r)
  {
    var n := ks[0].threads[ks[0].current].remTick - 1;
    CountDown(ks, n);
    LastOne(ks[0]);
    assert TickAt(ks, n);
  }

  lemma LastOne(k: Kernel)
    requires Sharing(k)
    ensures var r := Tock(Set(k, k.current, Left(k, k.threads[k.current].remTick - 1)));
            Rotated(k, r) && Sharing(r)
  {
    var n := k.threads[k.current].remTick - 1;
    var k1 := Set(k, k.current, Left(k, n));
    LeftSharing(k, n);
    LastTick(k1);
    RotatedSharing(k1, Tick(k1));
    RotatedFrom(k, n, Tick(k1));
  }

  /** The remaining ticks of the first `i` in a queue. */
  function Slices(k: Kernel, q: seq<Tid>, i: nat): nat
    requires i <= |q|
  {
    if i == 0 || q[i - 1] !in k.threads then 0 else Slices(k, q, i - 1) + k.threads[q[i - 1]].remTick
  }

  lemma {:induction false} SlicesShift(k: Kernel, r: Kernel, i: nat)
    requires Sharing(k) && Rotated(k, r) && Sharing(r) && i < |Behind(k)|
    ensures Slices(k, Behind(k), i + 1) == k.threads[Behind(k)[0]].remTick + Slices(r, Behind(r), i)
  {
    assert Lane(k, k.threads[k.current].prio);
    if i > 0 {
      SlicesShift(k, r, i - 1);
      assert Behind(r)[i - 1] == Behind(k)[i] && Behind(k)[i] in Behind(k);
    }
  }

  function WaitingTime(k: Kernel, i: nat): nat
    requires Sane(k) && i <= |Behind(k)|
  {
    k.threads[k.current].remTick + Slices(k, Behind(k), i)
  }

  lemma SameUntil(ks: seq<Kernel>, n: nat)
    requires Ticking(ks) && Sharing(ks[0]) && n < ks[0].threads[ks[0].current].remTick && n < |ks|
    ensures ks[n].current == ks[0].current
  {
    CountDown(ks, n);
  }

  lemma BehindIsOther(k: Kernel, i: nat)
    requires Sharing(k) && i < |Behind(k)|
    ensures Behind(k)[i] != k.current && (i > 0 ==> Behind(k)[i] != Behind(k)[0])
  {
    assert Lane(k, k.threads[k.current].prio) && Behind(k)[i] in Behind(k);
  }

  /** Thread `t` runs at time `w` and not before. */
  predicate FirstRuns(ks: seq<Kernel>, t: Tid, w: nat)
    requires w < |ks|
  {
    ks[w].current == t && forall n :: 0 <= n < w ==> ks[n].current != t
  }

  lemma NotBefore(ks: seq<Kernel>, i: nat, m: nat)
    requires Ticking(ks) && Sharing(ks[0]) && i < |Behind(ks[0])| && m <= ks[0].threads[ks[0].current].remTick && m <= |ks|
    ensures forall n :: 0 <= n < m ==> ks[n].current != Behind(ks[0])[i]
  {
    BehindIsOther(ks[0], i);
    forall n: nat | n < m ensures ks[n].current != Behind(ks[0])[i] { SameUntil(ks, n); }
  }

  /** The thread at place `i` of the queue first runs after exactly the ticks left to the current
      thread and to those in front of it. */
  lemma {:induction false} ExactWaitingTime(ks: seq<Kernel>, i: nat)
    requires Ticking(ks) && Sharing(ks[0]) && i < |Behind(ks[0])| && WaitingTime(ks[0], i) < |ks|
    ensures FirstRuns(ks, Behind(ks[0])[i], WaitingTime(ks[0], i))
    decreases i
  {
    var m := ks[0].threads[ks[0].current].remTick;
    NotBefore(ks, i, m);
    EndOfSlice(ks);
    if i > 0 {
      Later(ks[0], ks[m], i);
      TickingFrom(ks, m);
      ExactWaitingTime(ks[m..], i - 1);
      FirstAfter(ks, m, WaitingTime(ks[m], i - 1), Behind(ks[0])[i]);
    }
  }

  lemma FirstAfter(ks: seq<Kernel>, m: nat, w: nat, t: Tid)
    requires m + w < |ks| && FirstRuns(ks[m..], t, w) && forall n :: 0 <= n < m ==> ks[n].current != t
    ensures FirstRuns(ks, t, m + w)
  {
    forall n | 0 <= n < m + w ensures ks[n].current != t { if n >= m { assert ks[n] == ks[m..][n - m]; } }
  }

  lemma Later(k: Kernel, r: Kernel, i: nat)
    requires Sharing(k) && Rotated(k, r) && Sharing(r) && 0 < i < |Behind(k)|
    ensures |Behind(r)| == |Behind(k)| && Behind(r)[i - 1] == Behind(k)[i]
    ensures WaitingTime(k, i) == k.threads[k.current].remTick + WaitingTime(r, i - 1)
  {
    SlicesShift(k, r, i - 1);
  }
}
