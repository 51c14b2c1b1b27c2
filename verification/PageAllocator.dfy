/** rt_page_alloc and rt_page_free on the linked list itself (slab.c:236-334).
    The header of a run lives in its first page, so the two header fields are
    arrays indexed by page number; -1 plays the null pointer. */
module PageAllocators {
  import opened PageRuns

  const NIL: int := -1

  function Append(xs: Runs, ys: Runs): Runs {
    if xs.Nil? then ys else Cons(xs.first, Append(xs.rest, ys))
  }

  function Snoc(xs: Runs, r: Run): Runs { Append(xs, Cons(r, Nil)) }

  lemma {:induction false} AppendSnoc(xs: Runs, r: Run, ys: Runs)
    ensures Append(Snoc(xs, r), ys) == Append(xs, Cons(r, ys))
  {
    if xs.Cons? { AppendSnoc(xs.rest, r, ys); }
  }

  // ----- the abstract operations, past the runs the loops skip

  /** Every run ends before page `p`; no two runs of a canonical list share a header. */
  predicate Below(xs: Runs, p: int) {
    xs.Cons? ==> xs.first.End() < p && Below(xs.rest, p)
  }

  predicate Shorter(xs: Runs, n: nat) {
    xs.Cons? ==> xs.first.len < n && Shorter(xs.rest, n)
  }

  predicate Above(ys: Runs, p: int) {
    ys.Cons? ==> p < ys.first.start && Above(ys.rest, p)
  }

  lemma {:induction false} TakeAfter(xs: Runs, ys: Runs, n: nat)
    requires Shorter(xs, n)
    ensures Take(Append(xs, ys), n) == (Append(xs, Take(ys, n).0), Take(ys, n).1)
  {
    if xs.Cons? { TakeAfter(xs.rest, ys, n); }
  }

  lemma {:induction false} ReleaseAfter(xs: Runs, ys: Runs, r: Run)
    requires Below(xs, r.start)
    ensures Release(Append(xs, ys), r) == Append(xs, Release(ys, r))
  {
    if xs.Cons? { ReleaseAfter(xs.rest, ys, r); }
  }

  lemma {:induction false} BelowSnoc(xs: Runs, r: Run, p: int)
    ensures Below(Snoc(xs, r), p) <==> Below(xs, p) && r.End() < p
  {
    if xs.Cons? { BelowSnoc(xs.rest, r, p); }
  }

  lemma {:induction false} ShorterSnoc(xs: Runs, r: Run, n: nat)
    ensures Shorter(Snoc(xs, r), n) <==> Shorter(xs, n) && r.len < n
  {
    if xs.Cons? { ShorterSnoc(xs.rest, r, n); }
  }

  lemma {:induction false} BelowMonotone(xs: Runs, p: int, q: int)
    requires Below(xs, p) && p <= q
    ensures Below(xs, q)
  {
    if xs.Cons? { BelowMonotone(xs.rest, p, q); }
  }

  lemma {:induction false} CanonicalAbove(rs: Runs, p: int)
    requires Canonical(rs) && (rs.Cons? ==> p < rs.first.start)
    ensures Above(rs, p)
  {
    if rs.Cons? { CanonicalAbove(rs.rest, p); }
  }

  lemma {:induction false} CanonicalAppend(xs: Runs, ys: Runs)
    requires Canonical(Append(xs, ys))
    ensures Canonical(xs) && Canonical(ys) && (ys.Cons? ==> Below(xs, ys.first.start))
  {
    if xs.Cons? {
      CanonicalAppend(xs.rest, ys);
    }
  }

  // ----- list segments

  /** Following the links from `b` visits the runs `rs` and arrives at `e`. */
  predicate Segment(next: seq<int>, page: seq<nat>, b: int, rs: Runs, e: int)
    decreases rs
  {
    if rs.Nil? then b == e
    else b == rs.first.start && b < |next| && rs.first.End() <= |page| && 0 < rs.first.len
         && page[b] == rs.first.len && Segment(next, page, next[b], rs.rest, e)
  }

  lemma {:induction false} SegmentSnoc(next: seq<int>, page: seq<nat>, b: int, xs: Runs, m: int, r: Run)
    requires Segment(next, page, b, xs, m)
    requires m == r.start && m < |next| && r.End() <= |page| && 0 < r.len && page[m] == r.len
    ensures Segment(next, page, b, Snoc(xs, r), next[m])
    decreases xs
  {
    if xs.Cons? { SegmentSnoc(next, page, next[b], xs.rest, m, r); }
  }

  lemma {:induction false} SegmentAppend(next: seq<int>, page: seq<nat>, b: int, xs: Runs, m: int, ys: Runs, e: int)
    requires Segment(next, page, b, xs, m) && Segment(next, page, m, ys, e)
    ensures Segment(next, page, b, Append(xs, ys), e)
    decreases xs
  {
    if xs.Cons? { SegmentAppend(next, page, next[b], xs.rest, m, ys, e); }
  }

  /** Writing a header past the segment, or before it, does not disturb it. */
  lemma {:induction false} WritePast(next: seq<int>, page: seq<nat>, b: int, xs: Runs, e: int, a: nat, t: int, n: nat)
    requires Segment(next, page, b, xs, e) && Below(xs, a) && a < |next| && a < |page|
    ensures Segment(next[a := t], page[a := n], b, xs, e)
    decreases xs
  {
    if xs.Cons? { WritePast(next, page, next[b], xs.rest, e, a, t, n); }
  }

  lemma {:induction false} WriteBefore(next: seq<int>, page: seq<nat>, b: int, ys: Runs, e: int, a: nat, t: int, n: nat)
    requires Segment(next, page, b, ys, e) && Above(ys, a) && a < |next| && a < |page|
    ensures Segment(next[a := t], page[a := n], b, ys, e)
    decreases ys
  {
    if ys.Cons? { WriteBefore(next, page, next[b], ys.rest, e, a, t, n); }
  }

  /** First page of the last run; no run stands for the list head. */
  function Last(xs: Runs): int {
    if xs.Nil? then NIL else if xs.rest.Nil? then xs.first.start else Last(xs.rest)
  }

  lemma {:induction false} LastSnoc(xs: Runs, r: Run)
    ensures Last(Snoc(xs, r)) == r.start
  {
    if xs.Cons? { LastSnoc(xs.rest, r); }
  }

  lemma {:induction false} LastFacts(next: seq<int>, page: seq<nat>, b: int, xs: Runs, m: int, p: int)
    requires Segment(next, page, b, xs, m) && xs.Cons? && Below(xs, p) && Canonical(xs)
    ensures 0 <= Last(xs) < |next| && Last(xs) < |page| && Last(xs) < p && next[Last(xs)] == m
    ensures b <= Last(xs)
    decreases xs
  {
    if xs.rest.Cons? { LastFacts(next, page, next[b], xs.rest, m, p); }
  }

  /** Redirecting the last link of a segment. */
  lemma {:induction false} Relink(next: seq<int>, page: seq<nat>, b: int, xs: Runs, m: int, t: int, p: int)
    requires Segment(next, page, b, xs, m) && xs.Cons? && Below(xs, p) && Canonical(xs)
    ensures 0 <= Last(xs) < |next| && Segment(next[Last(xs) := t], page, b, xs, t)
    decreases xs
  {
    LastFacts(next, page, b, xs, m, p);
    if xs.rest.Cons? {
      LastFacts(next, page, next[b], xs.rest, m, p);
      Relink(next, page, next[b], xs.rest, m, t, p);
    }
  }

  /** Run `r`, whose header leads to `ys`, is linked in after `xs`. */
  lemma LinkIn(next: seq<int>, page: seq<nat>, head: int, xs: Runs, b: int, r: Run, t: int, ys: Runs,
               next': seq<int>, page': seq<nat>, head': int)
    requires Segment(next, page, head, xs, b) && Segment(next, page, t, ys, NIL)
    requires Canonical(xs) && Below(xs, r.start) && Above(ys, r.start)
    requires r.len > 0 && r.End() <= |page| && r.start < |next|
    requires page' == page[r.start := r.len]
    requires if xs.Nil? then next' == next[r.start := t] && head' == r.start
             else 0 <= Last(xs) < |next| && next' == next[r.start := t][Last(xs) := r.start] && head' == head
    ensures Segment(next', page', head', Append(xs, Cons(r, ys)), NIL)
  {
    var next1 := next[r.start := t];
    WritePast(next, page, head, xs, b, r.start, t, r.len);
    WriteBefore(next, page, t, ys, NIL, r.start, t, r.len);
    if xs.Cons? {
      Relink(next1, page', head, xs, b, r.start, r.start);
      LastFacts(next1, page', head, xs, b, r.start);
      AboveMonotone(ys, r.start, Last(xs));
      WriteBefore(next1, page', t, ys, NIL, Last(xs), r.start, page'[Last(xs)]);
      assert page'[Last(xs) := page'[Last(xs)]] == page';
    }
    SegmentAppend(next', page', head', xs, r.start, Cons(r, ys), NIL);
  }

  /** The link after `xs` is led past the next run. */
  lemma LinkOut(next: seq<int>, page: seq<nat>, head: int, xs: Runs, b: int, t: int, ys: Runs, next': seq<int>, head': int)
    requires Segment(next, page, head, xs, b) && Segment(next, page, t, ys, NIL)
    requires Canonical(xs) && Below(xs, b) && Above(ys, b)
    requires if xs.Nil? then next' == next && head' == t
             else 0 <= Last(xs) < |next| && next' == next[Last(xs) := t] && head' == head
    ensures Segment(next', page, head', Append(xs, ys), NIL)
  {
    if xs.Cons? {
      Relink(next, page, head, xs, b, t, b);
      LastFacts(next, page, head, xs, b, b);
      AboveMonotone(ys, b, Last(xs));
      WriteBefore(next, page, t, ys, NIL, Last(xs), t, page[Last(xs)]);
      assert page[Last(xs) := page[Last(xs)]] == page;
    }
    SegmentAppend(next', page, head', xs, t, ys, NIL);
  }

  lemma {:induction false} AboveMonotone(ys: Runs, p: int, q: int)
    requires Above(ys, p) && q <= p
    ensures Above(ys, q)
  {
    if ys.Cons? { AboveMonotone(ys.rest, p, q); }
  }

  lemma {:induction false} ApartAppend(xs: Runs, ys: Runs, r: Run)
    requires Apart(Append(xs, ys), r)
    ensures Apart(ys, r)
  {
    if xs.Cons? { ApartAppend(xs.rest, ys, r); }
  }

  lemma ReleaseHere(xs: Runs, ys: Runs, r: Run)
    requires Canonical(Append(xs, ys)) && Apart(Append(xs, ys), r) && r.len > 0 && Below(xs, r.start) && ys.Cons?
    ensures Release(Append(xs, ys), r) == Append(xs, Release(ys, r))
    ensures ys.first.End() <= r.start || r.End() <= ys.first.start
    ensures ys.first.End() == r.start && ys.rest.Cons? ==> r.End() <= ys.rest.first.start
  {
    CanonicalAppend(xs, ys);
    ApartAppend(xs, ys, r);
    ApartFirst(ys, r);
    if ys.rest.Cons? { ApartFirst(ys.rest, r); }
    ReleaseAfter(xs, ys, r);
  }

  /** A loop position: `xs` already passed, `prev` the last of them, `b` the first of `ys`. */
  ghost predicate At(next: seq<int>, page: seq<nat>, head: int, prev: int, b: int, xs: Runs, ys: Runs) {
    && |next| == |page|
    && prev == Last(xs)
    && Canonical(Append(xs, ys))
    && Segment(next, page, head, xs, b) && Segment(next, page, b, ys, NIL)
  }

  lemma AtFacts(next: seq<int>, page: seq<nat>, head: int, prev: int, b: int, xs: Runs, ys: Runs)
    requires At(next, page, head, prev, b, xs, ys) && ys.Cons?
    ensures Canonical(xs) && Canonical(ys) && Below(xs, b) && Above(ys.rest, ys.first.End())
    ensures xs.Cons? ==> 0 <= prev < |next| && prev < b && next[prev] == b
  {
    CanonicalAppend(xs, ys);
    CanonicalAbove(ys.rest, ys.first.End());
    if xs.Cons? { LastFacts(next, page, head, xs, b, b); }
  }

  lemma AtNext(next: seq<int>, page: seq<nat>, head: int, prev: int, b: int, xs: Runs, ys: Runs)
    requires At(next, page, head, prev, b, xs, ys) && ys.Cons?
    ensures Append(Snoc(xs, ys.first), ys.rest) == Append(xs, ys)
    ensures At(next, page, head, b, next[b], Snoc(xs, ys.first), ys.rest)
  {
    AppendSnoc(xs, ys.first, ys.rest);
    SegmentSnoc(next, page, head, xs, b, ys.first);
    LastSnoc(xs, ys.first);
  }

  class PageAllocator {
    var head: int
    var next: seq<int>
    var page: seq<nat>
    ghost var runs: Runs

    ghost predicate Linked()
      reads this
    {
      |next| == |page| && Segment(next, page, head, runs, NIL)
    }

    ghost predicate Valid()
      reads this
    {
      Linked() && Canonical(runs)
    }

    /** rt_page_init: the heap is one run. */
    constructor (npages: nat)
      requires npages > 0
      ensures Valid() && |page| == npages && runs == Cons(Run(0, npages), Nil)
    {
      next := seq(npages, _ => NIL);
      page := seq(npages, _ => 0);
      head := NIL;
      runs := Nil;
      new;
      PageFree(0, npages);
    }

    /** `*prev = target`, where no predecessor means the list head. */
    method SetLink(prev: int, target: int)
      requires prev == NIL || 0 <= prev < |next|
      modifies `head, `next
      ensures head == if prev == NIL then target else old(head)
      ensures next == if prev == NIL then old(next) else old(next)[prev := target]
    {
      if prev == NIL { head := target; } else { next := next[prev := target]; }
    }

    /** Cuts `npages` low pages off the run at `b`. */
    method Split(prev: int, b: nat, npages: nat, ghost xs: Runs, ghost ys: Runs)
      requires At(next, page, head, prev, b, xs, ys) && ys.Cons? && 0 < npages < ys.first.len
      modifies this
      ensures Linked() && |page| == old(|page|)
      ensures runs == Append(xs, Cons(Run(b + npages, ys.first.len - npages), ys.rest))
    {
      AtFacts(next, page, head, prev, b, xs, ys);
      ghost var n0, p0, h0, r := next, page, head, Run(b + npages, ys.first.len - npages);
      var n := b + npages;
      next := next[n := next[b]];
      page := page[n := page[b] - npages];
      SetLink(prev, n);
      BelowMonotone(xs, b, n);
      AboveMonotone(ys.rest, ys.first.End(), n);
      LinkIn(n0, p0, h0, xs, b, r, n0[b], ys.rest, next, page, head);
      runs := Append(xs, Cons(r, ys.rest));
    }

    /** Takes the run at `b` out of the list. */
    method Unlink(prev: int, b: nat, ghost xs: Runs, ghost ys: Runs)
      requires At(next, page, head, prev, b, xs, ys) && ys.Cons?
      modifies this
      ensures Linked() && |page| == old(|page|) && runs == Append(xs, ys.rest)
    {
      AtFacts(next, page, head, prev, b, xs, ys);
      ghost var n0, h0 := next, head;
      SetLink(prev, next[b]);
      AboveMonotone(ys.rest, ys.first.End(), b);
      LinkOut(n0, page, h0, xs, b, n0[b], ys.rest, next, head);
      runs := Append(xs, ys.rest);
    }

    method PageAlloc(npages: nat) returns (b: int)
      requires Valid()
      modifies this
      ensures Valid() && |page| == old(|page|)
      ensures (runs, b) == Alloc(old(runs), npages)
    {
      if npages == 0 { return NIL; }
      TakeSpec(runs, npages);
      var prev := NIL;
      b := head;
      ghost var xs, ys := Nil, runs;
      while b != NIL
        invariant unchanged(this) && runs == Append(xs, ys) && At(next, page, head, prev, b, xs, ys)
        invariant Shorter(xs, npages)
        decreases ys
      {
        TakeAfter(xs, ys, npages);
        if page[b] > npages {
          Split(prev, b, npages, xs, ys);
          return;
        }
        if page[b] == npages {
          Unlink(prev, b, xs, ys);
          return;
        }
        AtNext(next, page, head, prev, b, xs, ys);
        ShorterSnoc(xs, ys.first, npages);
        prev, b, xs, ys := b, next[b], Snoc(xs, ys.first), ys.rest;
      }
      TakeAfter(xs, ys, npages);
    }

    /** Appends `npages` pages to the run at `b`, and the next run if they reach it. */
    method ExtendUp(b: nat, npages: nat, ghost prev: int, ghost xs: Runs, ghost ys: Runs)
      requires At(next, page, head, prev, b, xs, ys) && ys.Cons? && npages > 0
      requires ys.first.End() + npages <= |page|
      requires ys.rest.Cons? ==> ys.first.End() + npages <= ys.rest.first.start
      modifies this
      ensures Linked() && |page| == old(|page|)
      ensures runs == Append(xs, Release(ys, Run(ys.first.End(), npages)))
    {
      AtFacts(next, page, head, prev, b, xs, ys);
      AboveMonotone(ys.rest, ys.first.End(), b);
      assert Segment(next, page, next[b], ys.rest, NIL);
      if b + page[b] + npages == next[b] {
        Resize(b, page[b] + npages + page[next[b]], next[next[b]], xs, ys, ys.rest.rest);
      } else {
        Resize(b, page[b] + npages, next[b], xs, ys, ys.rest);
      }
    }

    /** Writes the length and the link of the run at `b`. */
    method Resize(b: nat, len: nat, link: int, ghost xs: Runs, ghost ys: Runs, ghost zs: Runs)
      requires At(next, page, head, Last(xs), b, xs, ys) && ys.Cons? && Segment(next, page, link, zs, NIL) && Above(zs, b)
      requires 0 < len && b + len <= |page|
      modifies this
      ensures Linked() && |page| == old(|page|) && runs == Append(xs, Cons(Run(b, len), zs))
    {
      AtFacts(next, page, head, Last(xs), b, xs, ys);
      ghost var n0, p0 := next, page;
      page := page[b := len];
      next := next[b := link];
      LinkIn(n0, p0, head, xs, b, Run(b, len), link, zs, next, page, head);
      runs := Append(xs, Cons(Run(b, len), zs));
    }

    /** Puts the header of the run at `b` `npages` pages lower. */
    method ExtendDown(prev: int, b: nat, npages: nat, ghost xs: Runs, ghost ys: Runs)
      requires At(next, page, head, prev, b, xs, ys) && ys.Cons? && 0 < npages <= b && Below(xs, b - npages)
      modifies this
      ensures Linked() && |page| == old(|page|)
      ensures runs == Append(xs, Cons(Run(b - npages, ys.first.len + npages), ys.rest))
    {
      AtFacts(next, page, head, prev, b, xs, ys);
      var addr := b - npages;
      ghost var n0, p0, h0, r := next, page, head, Run(addr, ys.first.len + npages);
      page := page[addr := page[b] + npages];
      next := next[addr := next[b]];
      SetLink(prev, addr);
      AboveMonotone(ys.rest, ys.first.End(), addr);
      LinkIn(n0, p0, h0, xs, b, r, n0[b], ys.rest, next, page, head);
      runs := Append(xs, Cons(r, ys.rest));
    }

    /** Links a run of its own before the one at `b`. */
    method Insert(prev: int, b: int, addr: nat, npages: nat, ghost xs: Runs, ghost ys: Runs)
      requires At(next, page, head, prev, b, xs, ys) && npages > 0 && addr + npages <= |page|
      requires Below(xs, addr) && (ys.Cons? ==> addr + npages < b)
      modifies this
      ensures Linked() && |page| == old(|page|) && runs == Append(xs, Cons(Run(addr, npages), ys))
    {
      CanonicalAppend(xs, ys);
      CanonicalAbove(ys, addr);
      if xs.Cons? { LastFacts(next, page, head, xs, b, addr); }
      ghost var n0, p0, h0, r := next, page, head, Run(addr, npages);
      page := page[addr := npages];
      next := next[addr := b];
      SetLink(prev, addr);
      LinkIn(n0, p0, h0, xs, b, r, b, ys, next, page, head);
      runs := Append(xs, Cons(r, ys));
    }

    method PageFree(addr: nat, npages: nat)
      requires Valid() && npages > 0 && addr + npages <= |page|
      requires Apart(runs, Run(addr, npages))
      modifies this
      ensures Valid() && |page| == old(|page|)
      ensures runs == Release(old(runs), Run(addr, npages))
    {
      ghost var r := Run(addr, npages);
      ReleaseCanonical(runs, r);
      var prev, b := NIL, head;
      ghost var xs, ys := Nil, runs;
      while b != NIL
        invariant unchanged(this) && runs == Append(xs, ys) && At(next, page, head, prev, b, xs, ys)
        invariant Below(xs, addr)
        decreases ys
      {
        ReleaseHere(xs, ys, r);
        if b + page[b] == addr {
          ExtendUp(b, npages, prev, xs, ys);
          return;
        }
        if b == addr + npages {
          ExtendDown(prev, b, npages, xs, ys);
          return;
        }
        if b > addr + npages { break; }
        AtNext(next, page, head, prev, b, xs, ys);
        BelowSnoc(xs, ys.first, addr);
        prev, b, xs, ys := b, next[b], Snoc(xs, ys.first), ys.rest;
      }
      ReleaseAfter(xs, ys, r);
      Insert(prev, b, addr, npages, xs, ys);
    }
  }
}
