/** The page allocator under the slab allocator (slab.c): a list of runs of free
    pages, linked through the first page of each run. */
module PageRuns {

  /** `len` free pages starting at page number `start`. */
  datatype Run = Run(start: nat, len: nat) {
    function End(): nat { start + len }
    predicate Covers(p: nat) { start <= p < start + len }
  }

  datatype Runs = Nil | Cons(first: Run, rest: Runs)

  /** Sorted, disjoint and fully coalesced: a gap between any two neighbours. */
  predicate Canonical(rs: Runs) {
    rs.Cons? ==> rs.first.len > 0 && (rs.rest.Cons? ==> rs.first.End() < rs.rest.first.start) && Canonical(rs.rest)
  }

  /** Page `p` belongs to one of the runs. */
  predicate Free(rs: Runs, p: nat) {
    rs.Cons? && (rs.first.Covers(p) || Free(rs.rest, p))
  }

  /** First fit; a longer run loses its low pages. */
  function Take(rs: Runs, n: nat): (Runs, int) {
    if rs.Nil? then (Nil, -1)
    else if rs.first.len > n then (Cons(Run(rs.first.start + n, rs.first.len - n), rs.rest), rs.first.start)
    else if rs.first.len == n then (rs.rest, rs.first.start)
    else (Cons(rs.first, Take(rs.rest, n).0), Take(rs.rest, n).1)
  }

  /** rt_page_alloc: a request for no pages is refused before the list is read. */
  function Alloc(rs: Runs, n: nat): (Runs, int) {
    if n == 0 then (rs, -1) else Take(rs, n)
  }

  /** rt_page_free: sorted insertion, merging with either neighbour. */
  function Release(rs: Runs, r: Run): Runs {
    if rs.Nil? then Cons(r, Nil)
    else if rs.first.End() == r.start then
      if rs.rest.Cons? && r.End() == rs.rest.first.start
      then Cons(Run(rs.first.start, rs.first.len + r.len + rs.rest.first.len), rs.rest.rest)
      else Cons(Run(rs.first.start, rs.first.len + r.len), rs.rest)
    else if rs.first.start == r.End() then Cons(Run(r.start, rs.first.len + r.len), rs.rest)
    else if rs.first.start > r.End() then Cons(r, rs)
    else Cons(rs.first, Release(rs.rest, r))
  }

  /** None of the pages of `r` is free. */
  ghost predicate Apart(rs: Runs, r: Run) {
    forall p :: r.Covers(p) ==> !Free(rs, p)
  }

  // ----- a canonical list is determined by the pages it covers

  lemma {:induction false} FreeFromFirst(rs: Runs, p: nat)
    requires Canonical(rs) && Free(rs, p)
    ensures rs.first.start <= p && p != rs.first.End()
  {
    if !rs.first.Covers(p) { FreeFromFirst(rs.rest, p); }
  }

  lemma {:induction false} CanonicalUnique(a: Runs, b: Runs)
    requires Canonical(a) && Canonical(b)
    requires forall p: nat :: Free(a, p) <==> Free(b, p)
    ensures a == b
  {
    if a.Cons? { assert Free(a, a.first.start); }
    if b.Cons? { assert Free(b, b.first.start); }
    if a.Cons? && b.Cons? {
      var ea, eb := a.first.End(), b.first.End();
      FreeFromFirst(b, a.first.start);
      FreeFromFirst(a, b.first.start);
      forall p: nat | Free(a, p) ensures p != a.first.End() { FreeFromFirst(a, p); }
      forall p: nat | Free(b, p) ensures p != b.first.End() { FreeFromFirst(b, p); }
      assert !Free(a, ea) && !Free(b, eb);
      assert ea < eb ==> Free(b, ea);
      assert eb < ea ==> Free(a, eb);
      forall p: nat ensures Free(a.rest, p) <==> Free(b.rest, p) {
        assert Free(a, p) <==> Free(b, p);
        if Free(a.rest, p) { FreeFromFirst(a.rest, p); }
        if Free(b.rest, p) { FreeFromFirst(b.rest, p); }
      }
      CanonicalUnique(a.rest, b.rest);
    }
  }

  // ----- allocation

  ghost predicate Contiguous(rs: Runs, start: nat, n: nat) {
    forall p :: start <= p < start + n ==> Free(rs, p)
  }

  predicate SomeRun(rs: Runs, n: nat) {
    rs.Cons? && (rs.first.len >= n || SomeRun(rs.rest, n))
  }

  /** A free stretch lies inside one run, so only a run that long can serve it. */
  lemma {:induction false} StretchNeedsLongRun(rs: Runs, start: nat, n: nat)
    requires Canonical(rs) && n > 0 && Contiguous(rs, start, n)
    ensures SomeRun(rs, n)
  {
    assert Free(rs, start);
    var e := rs.first.End();
    if rs.first.Covers(start) {
      forall p: nat | Free(rs, p) ensures p != rs.first.End() { FreeFromFirst(rs, p); }
      assert start + n > e ==> Free(rs, e);
    } else {
      FreeFromFirst(rs, start);
      forall p | start <= p < start + n ensures Free(rs.rest, p) { assert Free(rs, p); }
      StretchNeedsLongRun(rs.rest, start, n);
    }
  }

  lemma {:induction false} TakeSpec(rs: Runs, n: nat)
    requires Canonical(rs) && n > 0
    ensures Canonical(Take(rs, n).0)
    ensures rs.Cons? && Take(rs, n).0.Cons? ==> Take(rs, n).0.first.start >= rs.first.start
    ensures Take(rs, n).1 == -1 <==> !SomeRun(rs, n)
    ensures Take(rs, n).1 == -1 ==> Take(rs, n).0 == rs
    ensures Take(rs, n).1 != -1 ==> rs.Cons? && Take(rs, n).1 >= rs.first.start && Contiguous(rs, Take(rs, n).1, n)
  {
    if rs.Cons? && rs.first.len < n { TakeSpec(rs.rest, n); }
  }

  lemma {:induction false} TakePages(rs: Runs, n: nat, p: nat)
    requires Canonical(rs) && n > 0 && Take(rs, n).1 >= 0
    ensures Free(Take(rs, n).0, p) <==> Free(rs, p) && !(Take(rs, n).1 <= p < Take(rs, n).1 + n)
  {
    if Free(rs.rest, p) { FreeFromFirst(rs.rest, p); }
    if rs.first.len < n {
      TakePages(rs.rest, n, p);
      TakeSpec(rs.rest, n);
    }
  }

  /** The pages from `p` on are the first n free ones in a row. */
  ghost predicate LowestStretch(rs: Runs, p: nat, n: nat) {
    Contiguous(rs, p, n) && forall q: nat :: Contiguous(rs, q, n) ==> p <= q
  }

  lemma {:induction false} TakeLowest(rs: Runs, n: nat, q: nat)
    requires Canonical(rs) && n > 0 && Take(rs, n).1 != -1 && Contiguous(rs, q, n)
    ensures Take(rs, n).1 <= q
  {
    assert Free(rs, q);
    FreeFromFirst(rs, q);
    if rs.first.len < n {
      var e := rs.first.End();
      forall p: nat | Free(rs, p) ensures p != e { FreeFromFirst(rs, p); }
      assert rs.first.Covers(q) && q + n > e ==> Free(rs, e);
      forall p | q <= p < q + n ensures Free(rs.rest, p) { assert Free(rs, p); }
      TakeLowest(rs.rest, n, q);
    }
  }

  /** First fit hands out the lowest pages there are. */
  lemma AllocLowest(rs: Runs, n: nat)
    requires Canonical(rs) && Alloc(rs, n).1 != -1
    ensures Alloc(rs, n).1 >= 0 && LowestStretch(rs, Alloc(rs, n).1, n)
  {
    AllocExact(rs, n);
    forall q: nat | Contiguous(rs, q, n) ensures Alloc(rs, n).1 <= q { TakeLowest(rs, n, q); }
  }

  /** Allocation fails exactly when no n contiguous pages are free; otherwise it
      hands out n pages that were free and takes exactly those. */
  lemma {:induction false} AllocExact(rs: Runs, n: nat)
    requires Canonical(rs)
    ensures Canonical(Alloc(rs, n).0)
    ensures Alloc(rs, n).1 == -1 <==> n == 0 || forall start: nat :: !Contiguous(rs, start, n)
    ensures Alloc(rs, n).1 == -1 ==> Alloc(rs, n).0 == rs
    ensures Alloc(rs, n).1 != -1 ==>
              && Alloc(rs, n).1 >= 0
              && Contiguous(rs, Alloc(rs, n).1, n)
              && forall p: nat :: Free(Alloc(rs, n).0, p) <==> Free(rs, p) && !(Alloc(rs, n).1 <= p < Alloc(rs, n).1 + n)
  {
    if n > 0 {
      TakeSpec(rs, n);
      forall start: nat | Contiguous(rs, start, n) ensures SomeRun(rs, n) { StretchNeedsLongRun(rs, start, n); }
      if Take(rs, n).1 != -1 {
        forall p: nat ensures Free(Take(rs, n).0, p) <==> Free(rs, p) && !(Take(rs, n).1 <= p < Take(rs, n).1 + n) {
          TakePages(rs, n, p);
        }
      }
    }
  }

  // ----- release

  lemma ApartFirst(rs: Runs, r: Run)
    requires Canonical(rs) && rs.Cons? && r.len > 0 && Apart(rs, r)
    ensures rs.first.End() <= r.start || r.End() <= rs.first.start
    ensures Apart(rs.rest, r)
  {
    assert Free(rs, rs.first.start);
    assert rs.first.Covers(r.start) ==> Free(rs, r.start);
    assert r.Covers(r.start);
  }

  /** Releasing pages that are not free keeps the list canonical ... */
  lemma {:induction false} ReleaseCanonical(rs: Runs, r: Run)
    requires Canonical(rs) && r.len > 0 && Apart(rs, r)
    ensures Canonical(Release(rs, r)) && Release(rs, r).Cons?
    ensures Release(rs, r).first.start == if rs.Nil? || r.start < rs.first.start then r.start else rs.first.start
  {
    if rs.Cons? {
      ApartFirst(rs, r);
      if rs.rest.Cons? { ApartFirst(rs.rest, r); }
      ReleaseCanonical(rs.rest, r);
    }
  }

  /** ... and adds exactly those pages. */
  lemma {:induction false} ReleasePages(rs: Runs, r: Run, p: nat)
    requires Canonical(rs) && r.len > 0 && Apart(rs, r)
    ensures Free(Release(rs, r), p) <==> Free(rs, p) || r.Covers(p)
  {
    if rs.Cons? {
      ApartFirst(rs, r);
      ReleasePages(rs.rest, r, p);
    }
  }

  /** rt_page_free undoes rt_page_alloc: not just the same pages, the same list. */
  lemma {:induction false} AllocThenRelease(rs: Runs, n: nat)
    requires Canonical(rs) && Alloc(rs, n).1 != -1
    ensures Alloc(rs, n).1 >= 0
    ensures Release(Alloc(rs, n).0, Run(Alloc(rs, n).1, n)) == rs
  {
    AllocExact(rs, n);
    var rest, r := Alloc(rs, n).0, Run(Alloc(rs, n).1, n);
    ReleaseCanonical(rest, r);
    forall p: nat ensures Free(rs, p) <==> Free(Release(rest, r), p) { ReleasePages(rest, r, p); }
    CanonicalUnique(rs, Release(rest, r));
  }

  // ----- releasing many runs, in any order

  ghost function ReleaseAll(rs: Runs, freed: seq<Run>): Runs
    decreases |freed|
  {
    if freed == [] then rs else ReleaseAll(Release(rs, freed[0]), freed[1..])
  }

  /** The runs given back are not free yet and do not overlap. */
  ghost predicate AllApart(rs: Runs, freed: seq<Run>) {
    && (forall i :: 0 <= i < |freed| ==> freed[i].len > 0 && Apart(rs, freed[i]))
    && (forall i, j, p :: 0 <= i < j < |freed| && freed[i].Covers(p) ==> !freed[j].Covers(p))
  }

  ghost predicate CoveredBy(freed: seq<Run>, p: nat) { exists r :: r in freed && r.Covers(p) }

  lemma {:induction false} ReleaseAllSpec(rs: Runs, freed: seq<Run>)
    requires Canonical(rs) && AllApart(rs, freed)
    ensures Canonical(ReleaseAll(rs, freed))
    ensures forall p: nat :: Free(ReleaseAll(rs, freed), p) <==> Free(rs, p) || CoveredBy(freed, p)
    decreases |freed|
  {
    if freed != [] {
      var r, rs' := freed[0], Release(rs, freed[0]);
      ReleaseCanonical(rs, r);
      forall p: nat ensures Free(rs', p) <==> Free(rs, p) || r.Covers(p) { ReleasePages(rs, r, p); }
      assert AllApart(rs', freed[1..]);
      ReleaseAllSpec(rs', freed[1..]);
      assert freed == [r] + freed[1..];
      assert forall p :: CoveredBy(freed, p) <==> r.Covers(p) || CoveredBy(freed[1..], p);
    }
  }

  /** The final list does not depend on the order in which runs are given back. */
  lemma {:induction false} ReleaseOrderIrrelevant(rs: Runs, xs: seq<Run>, ys: seq<Run>)
    requires Canonical(rs) && AllApart(rs, xs) && AllApart(rs, ys)
    requires multiset(xs) == multiset(ys)
    ensures ReleaseAll(rs, xs) == ReleaseAll(rs, ys)
  {
    ReleaseAllSpec(rs, xs);
    ReleaseAllSpec(rs, ys);
    assert forall r :: r in xs <==> r in multiset(xs);
    assert forall r :: r in ys <==> r in multiset(ys);
    CanonicalUnique(ReleaseAll(rs, xs), ReleaseAll(rs, ys));
  }
}
