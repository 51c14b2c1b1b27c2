/** What mem.c promises, proved of the block list for every heap and every request. */
module HeapTheorems {
  import opened Arithmetic
  import opened HeapSpec

  // ----- allocation

  lemma {:induction false} FindFitSpec(bs: Blocks, from: nat, n: nat, end: nat, lo: nat, hi: nat)
    requires Tiles(bs, lo, hi)
    ensures var a := FindFit(bs, from, n, end); a != NULL ==>
              a >= from && a >= lo && FreeAt(bs, a) && a + HDR + n < end && PayloadAt(bs, a) >= n
  {
    if bs.Cons? { FindFitSpec(bs.rest, from, n, end, bs.first.next, hi); }
  }

  lemma {:induction false} FreeAtRange(bs: Blocks, a: int, lo: nat, hi: nat)
    requires Tiles(bs, lo, hi) && (FreeAt(bs, a) || UsedAt(bs, a))
    ensures lo <= a && a + HDR < hi && a + HDR + PayloadAt(bs, a) <= hi && PayloadAt(bs, a) > 0
  {
    TilesUp(bs.rest, bs.first.next, hi);
    if bs.first.at != a { FreeAtRange(bs.rest, a, bs.first.next, hi); }
  }

  lemma {:induction false} TilesUp(bs: Blocks, lo: nat, hi: nat)
    requires Tiles(bs, lo, hi)
    ensures lo <= hi
  {
    if bs.Cons? { TilesUp(bs.rest, bs.first.next, hi); }
  }

  lemma {:induction false} CarveShape(bs: Blocks, a: int, n: nat, lo: nat, hi: nat)
    requires Tiles(bs, lo, hi) && NoFreePair(bs) && FreeAt(bs, a) && PayloadAt(bs, a) >= n >= MIN
    ensures Tiles(Carve(bs, a, n), lo, hi) && NoFreePair(Carve(bs, a, n))
    ensures Carve(bs, a, n).Cons? && (bs.first.used ==> Carve(bs, a, n).first.used)
    ensures UsedAt(Carve(bs, a, n), a) && n <= PayloadAt(Carve(bs, a, n), a) < n + HDR + MIN
    ensures forall i :: Live(bs, i) ==> Live(Carve(bs, a, n), i)
  {
    if bs.first.at != a {
      FreeAtRange(bs.rest, a, bs.first.next, hi);
      CarveShape(bs.rest, a, n, bs.first.next, hi);
    }
  }

  lemma {:induction false} CarveSpec(bs: Blocks, a: int, n: nat, lo: nat, hi: nat)
    requires Tiles(bs, lo, hi) && FreeAt(bs, a) && PayloadAt(bs, a) >= n >= MIN
    ensures forall b :: FreeAt(bs, b) && b != a ==> FreeAt(Carve(bs, a, n), b)
    ensures forall b :: FreeAt(Carve(bs, a, n), b) && b <= a ==> FreeAt(bs, b)
    ensures forall b :: UsedAt(bs, b) ==> UsedAt(Carve(bs, a, n), b) && PayloadAt(Carve(bs, a, n), b) == PayloadAt(bs, b)
  {
    if bs.first.at != a {
      FreeAtRange(bs.rest, a, bs.first.next, hi);
      CarveSpec(bs.rest, a, n, bs.first.next, hi);
    } else {
      forall b | FreeAt(bs.rest, b) || UsedAt(bs.rest, b) ensures b >= bs.first.next { FreeAtRange(bs.rest, b, bs.first.next, hi); }
      forall b | b >= bs.first.next
        ensures (FreeAt(Carve(bs, a, n), b) <==> FreeAt(bs.rest, b)) && (UsedAt(Carve(bs, a, n), b) <==> UsedAt(bs.rest, b))
        ensures PayloadAt(Carve(bs, a, n), b) == PayloadAt(bs.rest, b)
      {
      }
    }
  }

  /** Counting the extent taken keeps used_mem the sum of the extents in use. */
  lemma {:induction false} CarveUsed(bs: Blocks, a: int, n: nat, lo: nat, hi: nat)
    requires Tiles(bs, lo, hi) && FreeAt(bs, a) && PayloadAt(bs, a) >= n
    ensures UsedSize(Carve(bs, a, n)) == UsedSize(bs) + Extent(bs, a, n)
    ensures PayloadAt(Carve(bs, a, n), a) + HDR == Extent(bs, a, n)
  {
    if bs.first.at != a { CarveUsed(bs.rest, a, n, bs.first.next, hi); }
  }

  lemma {:induction false} NextFreeSpec(bs: Blocks, from: nat, end: nat, lo: nat)
    requires Tiles(bs, lo, end)
    ensures NextFree(bs, from, end) == end || (from <= NextFree(bs, from, end) && FreeAt(bs, NextFree(bs, from, end)))
    ensures forall b :: FreeAt(bs, b) && b >= from ==> NextFree(bs, from, end) <= b
  {
    if bs.Cons? {
      NextFreeSpec(bs.rest, from, end, bs.first.next);
      forall b | FreeAt(bs.rest, b) ensures b >= bs.first.next { FreeAtRange(bs.rest, b, bs.first.next, end); }
      if NextFree(bs.rest, from, end) == bs.first.at { TilesUp(bs.rest, bs.first.next, end); }
    }
  }

  lemma {:induction false} MallocWordsInv(h: Heap, n: nat)
    requires Inv(h) && MIN <= n
    ensures Inv(MallocWords(h, n).0)
    ensures LowestFree(h) ==> LowestFree(MallocWords(h, n).0)
    ensures var (h', p) := MallocWords(h, n);
            p == NULL ==> h' == h
    ensures var (h', p) := MallocWords(h, n);
            p != NULL ==>
              && p >= HDR && FreeAt(h.blocks, p - HDR) && UsedAt(h'.blocks, p - HDR)
              && n <= PayloadAt(h'.blocks, p - HDR) < n + HDR + MIN
    ensures forall i :: Live(h.blocks, i) ==> Live(MallocWords(h, n).0.blocks, i)
    ensures forall b :: UsedAt(h.blocks, b) ==>
              UsedAt(MallocWords(h, n).0.blocks, b) && PayloadAt(MallocWords(h, n).0.blocks, b) == PayloadAt(h.blocks, b)
  {
    FindFitSpec(h.blocks, h.lfree, n, h.end, 0, h.end);
    var a := FindFit(h.blocks, h.lfree, n, h.end);
    if a != NULL {
      CarveShape(h.blocks, a, n, 0, h.end);
      CarveSpec(h.blocks, a, n, 0, h.end);
      CarveUsed(h.blocks, a, n, 0, h.end);
      NextFreeSpec(Carve(h.blocks, a, n), h.lfree, h.end, 0);
    }
  }

  // ----- release

  /** Two free neighbours only at `a`. */
  predicate FreePairOnlyAt(bs: Blocks, a: int) {
    bs.Cons? ==>
      && (bs.rest.Cons? && !bs.first.used && !bs.rest.first.used ==> bs.first.at == a || bs.rest.first.at == a)
      && FreePairOnlyAt(bs.rest, a)
  }

  lemma {:induction false} MarkFreeSpec(bs: Blocks, a: nat, lo: nat, hi: nat)
    requires Tiles(bs, lo, hi) && NoFreePair(bs) && UsedAt(bs, a)
    ensures Tiles(MarkFree(bs, a), lo, hi) && FreeAt(MarkFree(bs, a), a) && FreePairOnlyAt(MarkFree(bs, a), a)
    ensures MarkFree(bs, a).Cons? && MarkFree(bs, a).first == if bs.first.at == a then bs.first.(used := false) else bs.first
    ensures PayloadAt(MarkFree(bs, a), a) == PayloadAt(bs, a)
    ensures MergedAt(MarkFree(bs, a), a) == MergedAt(bs, a)
    ensures UsedSize(MarkFree(bs, a)) == UsedSize(bs) - HDR - PayloadAt(bs, a)
    ensures forall b :: b != a ==> (FreeAt(MarkFree(bs, a), b) <==> FreeAt(bs, b))
    ensures forall b :: UsedAt(MarkFree(bs, a), b) <==> UsedAt(bs, b) && b != a
    ensures forall b :: PayloadAt(MarkFree(bs, a), b) == PayloadAt(bs, b)
    ensures forall i :: Live(MarkFree(bs, a), i) <==> Live(bs, i) && !(a + HDR <= i < a + HDR + PayloadAt(bs, a))
  {
    LiveRange(bs.rest, bs.first.next, hi);
    if bs.first.at != a {
      MarkFreeSpec(bs.rest, a, bs.first.next, hi);
      FreeAtRange(bs.rest, a, bs.first.next, hi);
    } else {
      NoPairAnywhere(bs.rest, a);
    }
  }

  lemma {:induction false} NoPairAnywhere(bs: Blocks, a: int)
    requires NoFreePair(bs)
    ensures FreePairOnlyAt(bs, a)
  {
    if bs.Cons? { NoPairAnywhere(bs.rest, a); }
  }

  lemma {:induction false} LiveRange(bs: Blocks, lo: nat, hi: nat)
    requires Tiles(bs, lo, hi)
    ensures forall i :: Live(bs, i) ==> lo + HDR <= i < hi
  {
    if bs.Cons? {
      LiveRange(bs.rest, bs.first.next, hi);
      TilesUp(bs.rest, bs.first.next, hi);
    }
  }

  lemma {:induction false} PlugSpec(bs: Blocks, a: nat, lo: nat, hi: nat)
    requires Tiles(bs, lo, hi) && FreePairOnlyAt(bs, a) && FreeAt(bs, a)
    ensures Tiles(Plug(bs, a), lo, hi) && NoFreePair(Plug(bs, a))
    ensures Plug(bs, a).Cons? && Plug(bs, a).first.used == bs.first.used
    ensures FreeAt(Plug(bs, a), MergedAt(bs, a)) && lo <= MergedAt(bs, a) <= a
    ensures MergedAt(bs, a) == a || FreeAt(bs, MergedAt(bs, a))
    ensures forall b :: FreeAt(Plug(bs, a), b) ==> FreeAt(bs, b)
    ensures forall b :: FreeAt(bs, b) && b != a && b != a + HDR + PayloadAt(bs, a) ==> FreeAt(Plug(bs, a), b)
    ensures forall b :: UsedAt(Plug(bs, a), b) <==> UsedAt(bs, b)
    ensures forall b :: UsedAt(bs, b) ==> PayloadAt(Plug(bs, a), b) == PayloadAt(bs, b)
    ensures UsedSize(Plug(bs, a)) == UsedSize(bs)
    ensures forall i :: Live(Plug(bs, a), i) <==> Live(bs, i)
  {
    forall b | FreeAt(bs.rest, b) || UsedAt(bs.rest, b) ensures b >= bs.first.next { FreeAtRange(bs.rest, b, bs.first.next, hi); }
    if bs.first.at == a {
      if bs.rest.Cons? {
        var rr := bs.rest.rest;
        forall b | FreeAt(rr, b) || UsedAt(rr, b) ensures b >= bs.rest.first.next { FreeAtRange(rr, b, bs.rest.first.next, hi); }
        PairFreeBeyond(bs.rest, a, bs.first.next, hi);
      }
    } else {
      PlugSpec(bs.rest, a, bs.first.next, hi);
      var r := Plug(bs.rest, a);
      forall b | FreeAt(r.rest, b) || UsedAt(r.rest, b) ensures b >= r.first.next { FreeAtRange(r.rest, b, r.first.next, hi); }
    }
  }

  lemma {:induction false} PairFreeBeyond(bs: Blocks, a: int, lo: nat, hi: nat)
    requires Tiles(bs, lo, hi) && a < lo && FreePairOnlyAt(bs, a)
    ensures NoFreePair(bs)
  {
    if bs.Cons? { PairFreeBeyond(bs.rest, a, bs.first.next, hi); }
  }

  lemma {:induction false} FreeBlockInv(h: Heap, a: nat)
    requires Inv(h) && UsedAt(h.blocks, a)
    ensures Inv(FreeBlock(h, a))
    ensures LowestFree(h) ==> LowestFree(FreeBlock(h, a))
    ensures FreeBlock(h, a).used == h.used - HDR - PayloadAt(h.blocks, a)
    ensures forall b :: UsedAt(FreeBlock(h, a).blocks, b) <==> UsedAt(h.blocks, b) && b != a
    ensures forall b :: UsedAt(FreeBlock(h, a).blocks, b) ==> PayloadAt(FreeBlock(h, a).blocks, b) == PayloadAt(h.blocks, b)
    ensures forall i :: Live(FreeBlock(h, a).blocks, i) <==>
              Live(h.blocks, i) && !(a + HDR <= i < a + HDR + PayloadAt(h.blocks, a))
  {
    var bs := MarkFree(h.blocks, a);
    FreeAtRange(h.blocks, a, 0, h.end);
    MarkFreeSpec(h.blocks, a, 0, h.end);
    PlugSpec(bs, a, 0, h.end);
    NotBoth(h.blocks, a);
    NotBoth(h.blocks, h.lfree);
  }

  lemma {:induction false} NotBoth(bs: Blocks, a: int)
    ensures !(FreeAt(bs, a) && UsedAt(bs, a))
  {
    if bs.Cons? { NotBoth(bs.rest, a); }
  }

  // ----- shrinking in place

  lemma {:induction false} CutSpec(bs: Blocks, a: nat, n: nat, lo: nat, hi: nat)
    requires Tiles(bs, lo, hi) && NoFreePair(bs) && UsedAt(bs, a) && 0 < n && n + HDR < PayloadAt(bs, a)
    ensures var c := a + HDR + n;
      && Tiles(Cut(bs, a, n), lo, hi) && FreeAt(Cut(bs, a, n), c) && FreePairOnlyAt(Cut(bs, a, n), c)
      && Cut(bs, a, n).Cons? && Cut(bs, a, n).first.used == bs.first.used
      && PayloadAt(Cut(bs, a, n), c) == PayloadAt(bs, a) - n - HDR && PayloadAt(Cut(bs, a, n), a) == n
      && MergedAt(Cut(bs, a, n), c) == c
      && UsedSize(Cut(bs, a, n)) == UsedSize(bs) - (PayloadAt(bs, a) - n)
      && (forall b :: FreeAt(Cut(bs, a, n), b) <==> FreeAt(bs, b) || b == c)
      && (forall b :: UsedAt(Cut(bs, a, n), b) <==> UsedAt(bs, b))
      && (forall b :: UsedAt(bs, b) && b != a ==> PayloadAt(Cut(bs, a, n), b) == PayloadAt(bs, b))
      && (forall i :: Live(Cut(bs, a, n), i) <==> Live(bs, i) && !(c <= i < a + HDR + PayloadAt(bs, a)))
  {
    LiveRange(bs.rest, bs.first.next, hi);
    forall b | FreeAt(bs.rest, b) || UsedAt(bs.rest, b) ensures b >= bs.first.next { FreeAtRange(bs.rest, b, bs.first.next, hi); }
    if bs.first.at != a {
      CutSpec(bs.rest, a, n, bs.first.next, hi);
      FreeAtRange(bs.rest, a, bs.first.next, hi);
    } else {
      NoPairAnywhere(bs.rest, a + HDR + n);
      var tail := Cut(bs, a, n).rest;
      assert forall i :: Live(tail, i) <==> Live(bs.rest, i);
    }
  }

  /** Shrinking keeps the shape, but lfree is only kept lowest when the remainder does
      not come to lie in front of it unnoticed: it stays the lowest free block if and
      only if it was in front of the block already, or is the block that follows it. */
  lemma {:induction false} ShrinkInv(h: Heap, a: nat, n: nat)
    requires Inv(h) && UsedAt(h.blocks, a) && 0 < n && n + HDR < PayloadAt(h.blocks, a)
    ensures Inv(Shrink(h, a, n))
    ensures LowestFree(h) ==>
              (LowestFree(Shrink(h, a, n)) <==>
                h.lfree < a || (h.lfree == a + HDR + PayloadAt(h.blocks, a) && h.lfree != h.end))
    ensures Shrink(h, a, n).used == h.used - (PayloadAt(h.blocks, a) - n)
    ensures UsedAt(Shrink(h, a, n).blocks, a) && PayloadAt(Shrink(h, a, n).blocks, a) == n
    ensures forall b :: UsedAt(Shrink(h, a, n).blocks, b) <==> UsedAt(h.blocks, b)
    ensures forall b :: UsedAt(h.blocks, b) && b != a ==> PayloadAt(Shrink(h, a, n).blocks, b) == PayloadAt(h.blocks, b)
    ensures forall i :: Live(Shrink(h, a, n).blocks, i) <==>
              Live(h.blocks, i) && !(a + HDR + n <= i < a + HDR + PayloadAt(h.blocks, a))
  {
    var c, bs := a + HDR + n, Cut(h.blocks, a, n);
    FreeAtRange(h.blocks, a, 0, h.end);
    CutSpec(h.blocks, a, n, 0, h.end);
    PlugSpec(bs, c, 0, h.end);
    NotBoth(h.blocks, a);
    NotBoth(h.blocks, h.lfree);
    assert FreeAt(Shrink(h, a, n).blocks, c);
    if h.lfree != h.end { assert h.lfree < a || h.lfree >= a + HDR + PayloadAt(h.blocks, a) by { Disjoint(h.blocks, a, h.lfree, 0, h.end); } }
  }

  lemma {:induction false} Disjoint(bs: Blocks, a: int, b: int, lo: nat, hi: nat)
    requires Tiles(bs, lo, hi) && UsedAt(bs, a) && FreeAt(bs, b)
    ensures b < a || b >= a + HDR + PayloadAt(bs, a)
  {
    if bs.first.at == a {
      FreeAtRange(bs.rest, b, bs.first.next, hi);
    } else if bs.first.at == b {
      FreeAtRange(bs.rest, a, bs.first.next, hi);
    } else {
      Disjoint(bs.rest, a, b, bs.first.next, hi);
    }
  }

  // ----- first fit and exact failure

  /** A free block that holds n words, other than an exact fit at the very end of the heap. */
  predicate Candidate(bs: Blocks, b: int, n: nat, end: nat) {
    FreeAt(bs, b) && PayloadAt(bs, b) >= n && !(PayloadAt(bs, b) == n && b + HDR + n == end)
  }

  lemma {:induction false} FindFitExact(bs: Blocks, from: nat, n: nat, lo: nat, end: nat)
    requires Tiles(bs, lo, end)
    ensures FindFit(bs, from, n, end) == NULL <==> forall b :: b >= from ==> !Candidate(bs, b, n, end)
    ensures FindFit(bs, from, n, end) != NULL ==>
              && Candidate(bs, FindFit(bs, from, n, end), n, end)
              && forall b :: b >= from && Candidate(bs, b, n, end) ==> FindFit(bs, from, n, end) <= b
  {
    if bs.Cons? {
      FindFitExact(bs.rest, from, n, bs.first.next, end);
      FindFitSpec(bs.rest, from, n, end, bs.first.next, end);
      TilesUp(bs.rest, bs.first.next, end);
      forall b | FreeAt(bs.rest, b) ensures b >= bs.first.next { FreeAtRange(bs.rest, b, bs.first.next, end); }
      assert Candidate(bs, bs.first.at, n, end) <==>
             !bs.first.used && bs.first.Payload() >= n && !(bs.first.Payload() == n && bs.first.next == end);
      assert forall b :: b != bs.first.at ==> (Candidate(bs, b, n, end) <==> Candidate(bs.rest, b, n, end));
      assert !Candidate(bs.rest, bs.first.at, n, end);
    }
  }

  lemma FirstFitWords(h: Heap, n: nat)
    requires Inv(h) && LowestFree(h) && MIN <= n
    ensures var p := MallocWords(h, n).1;
      && (p == NULL <==> forall b :: !Candidate(h.blocks, b, n, h.end))
      && (p != NULL ==> Candidate(h.blocks, p - HDR, n, h.end)
                        && forall b :: Candidate(h.blocks, b, n, h.end) ==> p - HDR <= b)
  {
    FindFitExact(h.blocks, h.lfree, n, 0, h.end);
    FindFitSpec(h.blocks, h.lfree, n, h.end, 0, h.end);
  }

  /** The words a request needs, as the size arithmetic has it. */
  function Needed(bytes: nat): nat { if AlignWords(bytes) < MIN then MIN else AlignWords(bytes) }

  lemma {:induction false} CandidateFits(bs: Blocks, b: int, n: nat, lo: nat, hi: nat)
    requires Tiles(bs, lo, hi) && FreeAt(bs, b)
    ensures b >= lo && b + HDR + PayloadAt(bs, b) <= hi
  {
    if bs.first.at != b {
      CandidateFits(bs.rest, b, n, bs.first.next, hi);
    } else {
      TilesUp(bs.rest, bs.first.next, hi);
    }
  }

  /** On runs of allocation and release alone, rt_malloc returns the lowest block that can serve
      the request, and fails only when there is none; the test against the heap size refuses nothing that
      would fit. */
  lemma FirstFitExact(h: Heap, bytes: nat)
    requires Inv(h) && LowestFree(h) && bytes < WRAP
    ensures var p := Malloc(h, bytes).1;
      && (p == NULL <==> bytes == 0 || forall b :: !Candidate(h.blocks, b, Needed(bytes), h.end))
      && (p != NULL ==> Candidate(h.blocks, p - HDR, Needed(bytes), h.end)
                        && forall b :: Candidate(h.blocks, b, Needed(bytes), h.end) ==> p - HDR <= b)
  {
    FirstFitWords(h, Needed(bytes));
    forall b | Candidate(h.blocks, b, Needed(bytes), h.end) ensures AlignWords(bytes) + HDR <= h.end {
      CandidateFits(h.blocks, b, Needed(bytes), 0, h.end);
    }
  }

  /** The first of the blocks from lfree on that can serve the request, whatever lies in front of lfree. */
  predicate FirstFrom(h: Heap, b: int, n: nat) { b >= h.lfree && Candidate(h.blocks, b, n, h.end) }

  lemma FirstFromLfree(h: Heap, bytes: nat)
    requires Inv(h) && bytes < WRAP
    ensures var p := Malloc(h, bytes).1;
      && (p == NULL <==> bytes == 0 || forall b :: !FirstFrom(h, b, Needed(bytes)))
      && (p != NULL ==> FirstFrom(h, p - HDR, Needed(bytes)) && forall b :: FirstFrom(h, b, Needed(bytes)) ==> p - HDR <= b)
  {
    FindFitExact(h.blocks, h.lfree, Needed(bytes), 0, h.end);
    FindFitSpec(h.blocks, h.lfree, Needed(bytes), h.end, 0, h.end);
    assert forall b :: FirstFrom(h, b, Needed(bytes)) <==> b >= h.lfree && Candidate(h.blocks, b, Needed(bytes), h.end);
    forall b | FirstFrom(h, b, Needed(bytes)) ensures AlignWords(bytes) + HDR <= h.end {
      CandidateFits(h.blocks, b, Needed(bytes), 0, h.end);
    }
  }

  /** A served request is covered by the block exactly when its rounding does not wrap, and then the block is hardly
      longer: what is left over could not be a block of its own. */
  lemma RequestCovered(h: Heap, bytes: nat)
    requires Inv(h) && bytes < WRAP && Malloc(h, bytes).1 != NULL
    ensures UsedAt(Malloc(h, bytes).0.blocks, Malloc(h, bytes).1 - HDR)
    ensures 4 * PayloadAt(Malloc(h, bytes).0.blocks, Malloc(h, bytes).1 - HDR) >= bytes <==> bytes <= WRAP - 4
    ensures bytes <= WRAP - 4 ==>
              4 * PayloadAt(Malloc(h, bytes).0.blocks, Malloc(h, bytes).1 - HDR) < (if bytes < 12 then 12 else bytes + 3) + 24
  {
    var n := AlignWords(bytes);
    MallocWordsInv(h, if n < MIN then MIN else n);
  }

  /** The wrapped request, concretely: almost four gigabytes are served with twelve bytes. */
  lemma WrappedRequest()
    ensures Malloc(Init(40), 0xFFFF_FFFE) == (Heap(43, Cons(Block(0, 6, true), Cons(Block(6, 43, false), Nil)), 6, 6, 6), HDR)
  {
  }

  // ----- release undoes allocation

  lemma {:induction false} PlugCarve(bs: Blocks, a: nat, n: nat, lo: nat, hi: nat)
    requires Tiles(bs, lo, hi) && NoFreePair(bs) && FreeAt(bs, a) && PayloadAt(bs, a) >= n >= MIN
    ensures Plug(MarkFree(Carve(bs, a, n), a), a) == bs
    ensures MergedAt(Carve(bs, a, n), a) == a
  {
    if bs.first.at != a {
      FreeAtRange(bs.rest, a, bs.first.next, hi);
      PlugCarve(bs.rest, a, n, bs.first.next, hi);
      CarveShape(bs.rest, a, n, bs.first.next, hi);
    }
  }

  /** rt_free(rt_malloc(n)) restores the blocks, lfree and used_mem. */
  lemma FreeUndoesMalloc(h: Heap, bytes: nat)
    requires Inv(h) && Malloc(h, bytes).1 != NULL
    ensures Free(Malloc(h, bytes).0, Malloc(h, bytes).1) == h.(max := Malloc(h, bytes).0.max)
  {
    var n := AlignWords(bytes);
    var m := if n < MIN then MIN else n;
    var a := FindFit(h.blocks, h.lfree, m, h.end);
    FindFitSpec(h.blocks, h.lfree, m, h.end, 0, h.end);
    FreeAtRange(h.blocks, a, 0, h.end);
    PlugCarve(h.blocks, a, m, 0, h.end);
    CarveShape(h.blocks, a, m, 0, h.end);
    CarveSpec(h.blocks, a, m, 0, h.end);
    CarveUsed(h.blocks, a, m, 0, h.end);
    NextFreeSpec(Carve(h.blocks, a, m), h.lfree, h.end, 0);
    NotBoth(Carve(h.blocks, a, m), a);
  }

  // ----- realloc

  predicate LegalPointer(h: Heap, p: int) { p == NULL || UsedAt(h.blocks, p - HDR) }

  predicate Outside(h: Heap, p: int) { p < NULL || p >= h.end }

  function Max(a: int, b: int): int { if a > b then a else b }

  /** What a resize promises: a heap in order, the other blocks untouched, and a block of n words if any, with less
      to spare than would make a block that is worth it. */
  ghost predicate Resized(h: Heap, h': Heap, p: int, q: int, n: nat) {
    && Inv(h') && h'.end == h.end && OthersStay(h, h', p - HDR)
    && (q != NULL ==> UsedAt(h'.blocks, q - HDR) && n <= PayloadAt(h'.blocks, q - HDR) <= Max(n, MIN) + HDR + MIN)
  }

  lemma ResizedInPlace(h: Heap, p: int, n: nat)
    requires Inv(h) && UsedAt(h.blocks, p - HDR) && p >= HDR && 0 < n && n + HDR + MIN < PayloadAt(h.blocks, p - HDR)
    ensures Resized(h, Shrink(h, p - HDR, n), p, p, n)
  {
    ShrinkInv(h, p - HDR, n);
  }

  lemma ResizedByMoving(h: Heap, p: int, n: nat)
    requires Inv(h) && UsedAt(h.blocks, p - HDR) && p >= HDR && 0 < n && n + HDR <= h.end
    ensures var (h1, q) := Malloc(h, 4 * n); if q == NULL then h1 == h else Resized(h, Free(h1, p), p, q, n)
  {
    MoveInv(h, p, n);
  }

  lemma ResizedByFreeing(h: Heap, p: int)
    requires Inv(h) && UsedAt(h.blocks, p - HDR) && p >= HDR
    ensures Resized(h, FreeBlock(h, p - HDR), p, NULL, 0)
  {
    FreeBlockInv(h, p - HDR);
  }

  lemma ResizedFresh(h: Heap, n: nat)
    requires Inv(h) && n + HDR <= h.end
    ensures var (h', q) := Malloc(h, 4 * n); Resized(h, h', NULL, q, n)
  {
    assert AlignWords(4 * n) == n;
    if n > 0 { MallocWordsInv(h, if n < MIN then MIN else n); }
  }

  lemma ReallocInv(h: Heap, p: int, bytes: nat)
    requires Inv(h) && bytes < WRAP && (LegalPointer(h, p) || Outside(h, p))
    ensures var (h', q) := Realloc(h, p, bytes);
      if Outside(h, p) then h' == h else Resized(h, h', p, q, AlignWords(bytes))
  {
    var n := AlignWords(bytes);
    if n + HDR <= h.end && !Outside(h, p) {
      if p == NULL {
        ResizedFresh(h, n);
      } else {
        FreeAtRange(h.blocks, p - HDR, 0, h.end);
        if n == 0 {
          ResizedByFreeing(h, p);
        } else if n + HDR + MIN < PayloadAt(h.blocks, p - HDR) {
          ResizedInPlace(h, p, n);
        } else {
          ResizedByMoving(h, p, n);
        }
      }
    }
  }

  /** Blocks in use other than the one at `b` stay where they are. */
  ghost predicate OthersStay(h: Heap, h': Heap, b: int) {
    forall a :: UsedAt(h.blocks, a) && a != b ==> UsedAt(h'.blocks, a) && PayloadAt(h'.blocks, a) == PayloadAt(h.blocks, a)
  }

  lemma MoveInv(h: Heap, p: int, n: nat)
    requires Inv(h) && UsedAt(h.blocks, p - HDR) && p >= HDR && 0 < n && n + HDR <= h.end
    ensures var (h1, q) := Malloc(h, 4 * n);
      if q == NULL then h1 == h else
        && Inv(h1) && Inv(Free(h1, p)) && OthersStay(h, Free(h1, p), p - HDR)
        && UsedAt(Free(h1, p).blocks, q - HDR) && n <= PayloadAt(Free(h1, p).blocks, q - HDR) <= Max(n, MIN) + HDR + MIN
  {
    var (h1, q) := Malloc(h, 4 * n);
    assert AlignWords(4 * n) == n;
    MallocWordsInv(h, if n < MIN then MIN else n);
    NotBoth(h.blocks, p - HDR);
    FreeAtRange(h.blocks, p - HDR, 0, h.end);
    if q != NULL { FreeBlockInv(h1, p - HDR); }
  }

  /** The block keeps its place: it has the size asked for, or is larger by so much that the rest is worth cutting off. */
  predicate KeepsPlace(h: Heap, p: int, n: nat) { PayloadAt(h.blocks, p - HDR) == n || PayloadAt(h.blocks, p - HDR) > n + HDR + MIN }

  /** rt_realloc of a block fails exactly if the rounded size is nothing or more than the heap, or the block can
      neither stay nor be cut and no free block from lfree on can take it; it returns the same block exactly if that
      can stay or be cut, and else the first from lfree on. */
  lemma ReallocExact(h: Heap, p: int, bytes: nat)
    requires Inv(h) && bytes < WRAP && p != NULL && LegalPointer(h, p)
    ensures var q, n := Realloc(h, p, bytes).1, AlignWords(bytes);
      && (q == NULL <==> n == 0 || n + HDR > h.end || (!KeepsPlace(h, p, n) && forall b :: !FirstFrom(h, b, Needed(4 * n))))
      && (q == p <==> 0 < n && KeepsPlace(h, p, n))
      && (q != NULL && q != p ==> FirstFrom(h, q - HDR, Needed(4 * n)) && forall b :: FirstFrom(h, b, Needed(4 * n)) ==> q - HDR <= b)
  {
    var n := AlignWords(bytes);
    FreeAtRange(h.blocks, p - HDR, 0, h.end);
    if 0 < n && n + HDR <= h.end && !KeepsPlace(h, p, n) {
      FirstFromLfree(h, 4 * n);
      NotBoth(h.blocks, p - HDR);
    }
  }

  /** Of no block it is rt_malloc. */
  lemma ReallocOfNothing(h: Heap, bytes: nat)
    requires Inv(h) && bytes < WRAP
    ensures var q, n := Realloc(h, NULL, bytes).1, AlignWords(bytes);
      && (q == NULL <==> n == 0 || forall b :: !FirstFrom(h, b, Needed(4 * n)))
      && (q != NULL ==> FirstFrom(h, q - HDR, Needed(4 * n)) && forall b :: FirstFrom(h, b, Needed(4 * n)) ==> q - HDR <= b)
  {
    var n := AlignWords(bytes);
    if n + HDR <= h.end {
      FirstFromLfree(h, 4 * n);
    } else {
      forall b ensures !FirstFrom(h, b, Needed(4 * n)) {
        if FirstFrom(h, b, Needed(4 * n)) { CandidateFits(h.blocks, b, Needed(4 * n), 0, h.end); }
      }
    }
  }

  /** With lfree the lowest free block, from lfree on is everywhere: a block that moves goes to the lowest that can
      take it, and it does not move only if there is none. */
  lemma MovesToLowest(h: Heap, p: int, bytes: nat)
    requires Inv(h) && LowestFree(h) && bytes < WRAP && LegalPointer(h, p)
    requires var n := AlignWords(bytes); 0 < n && n + HDR <= h.end && (p == NULL || !KeepsPlace(h, p, n))
    ensures var q, n := Realloc(h, p, bytes).1, AlignWords(bytes);
      && (q == NULL <==> forall b :: !Candidate(h.blocks, b, Needed(4 * n), h.end))
      && (q != NULL ==> Candidate(h.blocks, q - HDR, Needed(4 * n), h.end)
                        && forall b :: Candidate(h.blocks, b, Needed(4 * n), h.end) ==> q - HDR <= b)
  {
    var n := AlignWords(bytes);
    forall b ensures Candidate(h.blocks, b, Needed(4 * n), h.end) <==> FirstFrom(h, b, Needed(4 * n)) {}
    if p == NULL { ReallocOfNothing(h, bytes); } else { ReallocExact(h, p, bytes); }
  }

  /** A size that wraps to nothing frees the block, exactly like a size of zero. */
  lemma ReallocFreesExactly(h: Heap, p: int, bytes: nat)
    requires Inv(h) && bytes < WRAP && p != NULL && LegalPointer(h, p)
    ensures !UsedAt(Realloc(h, p, bytes).0.blocks, p - HDR) && Realloc(h, p, bytes).1 == NULL <==> bytes == 0 || bytes > WRAP - 4
  {
    var n := AlignWords(bytes);
    FreeAtRange(h.blocks, p - HDR, 0, h.end);
    if n == 0 {
      FreeBlockInv(h, p - HDR);
    } else if n + HDR <= h.end {
      MoveInv(h, p, n);
    }
    NotBoth(h.blocks, p - HDR);
  }

  /** A pointer from elsewhere is handed back, unless the size is refused before it is looked at. */
  lemma ReallocOutside(h: Heap, p: int, bytes: nat)
    requires Inv(h) && Outside(h, p) && bytes < WRAP
    ensures var n := AlignWords(bytes); Realloc(h, p, bytes) == (h, if n == 0 || n + HDR > h.end then NULL else p)
  {
  }

  /** The old block is given back exactly if another takes its place, or nothing is asked for. */
  lemma ReallocGivesBack(h: Heap, p: int, bytes: nat)
    requires Inv(h) && bytes < WRAP && p != NULL && LegalPointer(h, p)
    ensures var (h', q) := Realloc(h, p, bytes);
            UsedAt(h'.blocks, p - HDR) <==> q == p || (q == NULL && AlignWords(bytes) != 0)
  {
    var n := AlignWords(bytes);
    FreeAtRange(h.blocks, p - HDR, 0, h.end);
    if n == 0 {
      FreeBlockInv(h, p - HDR);
    } else if n + HDR <= h.end {
      if KeepsPlace(h, p, n) {
        if PayloadAt(h.blocks, p - HDR) != n { ShrinkInv(h, p - HDR, n); }
      } else {
        MovedAway(h, p, n);
      }
    }
  }

  lemma MovedAway(h: Heap, p: int, n: nat)
    requires Inv(h) && UsedAt(h.blocks, p - HDR) && p >= HDR && 0 < n && n + HDR <= h.end
    ensures var (h1, q) := Malloc(h, 4 * n); q != p && (if q == NULL then h1 == h else !UsedAt(Free(h1, p).blocks, p - HDR))
  {
    assert AlignWords(4 * n) == n;
    var h1 := Malloc(h, 4 * n).0;
    MallocWordsInv(h, if n < MIN then MIN else n);
    NotBoth(h.blocks, p - HDR);
    FreeAtRange(h.blocks, p - HDR, 0, h.end);
    if Malloc(h, 4 * n).1 != NULL { FreeBlockInv(h1, p - HDR); }
  }

  // ----- the high-water mark

  lemma MaxFollows(h: Heap, op: Op)
    requires Inv(h) && Legal(h, op) && !op.DoRealloc?
    ensures Step(h, op).max == Max(h.max, Step(h, op).used)
  {
    StepInv(h, op);
    if op.DoFree? && op.p != NULL {
      FreeAtRange(h.blocks, op.p - HDR, 0, h.end);
      FreeBlockInv(h, op.p - HDR);
    }
  }

  /** The most words in use in any state of the run. */
  function Peak(h: Heap, ops: seq<Op>): int
    decreases |ops|
  {
    if ops == [] then h.used else Max(h.used, Peak(Step(h, ops[0]), ops[1..]))
  }

  /** max_mem is the peak of used_mem over the run. */
  lemma {:induction false} MaxIsPeak(h: Heap, ops: seq<Op>)
    requires Inv(h) && LegalRun(h, ops) && forall i :: 0 <= i < |ops| ==> !ops[i].DoRealloc?
    ensures Run(h, ops).max == Max(h.max, Peak(h, ops))
    decreases |ops|
  {
    if ops != [] {
      MaxFollows(h, ops[0]);
      StepInv(h, ops[0]);
      MaxIsPeak(Step(h, ops[0]), ops[1..]);
    }
  }

  /** A realloc that moves counts both blocks for the time it takes. */
  lemma ReallocPeak(h: Heap, p: int, bytes: nat)
    requires Inv(h) && bytes < WRAP && p != NULL && LegalPointer(h, p)
    ensures var (h', q) := Realloc(h, p, bytes);
            h'.max == if q == NULL || q == p then h.max
                      else Max(h.max, h'.used + PayloadAt(h.blocks, p - HDR) + HDR)
  {
    var n := AlignWords(bytes);
    FreeAtRange(h.blocks, p - HDR, 0, h.end);
    if 0 < n && n + HDR <= h.end && !KeepsPlace(h, p, n) {
      assert AlignWords(4 * n) == n;
      MallocWordsInv(h, if n < MIN then MIN else n);
      MovedAway(h, p, n);
    }
  }

  // ----- the room for the heap

  /** rt_system_heap_init takes all whole words between the two headers that fit between the addresses, and fails
      exactly if there is none. */
  lemma InitWordsExact(begin: nat, end: nat)
    requires begin + 3 < WRAP
    ensures var n, from := InitWords(begin, end), 4 * ((begin + 3) / 4);
      && begin <= from < begin + 4
      && (n == NULL <==> end < from + 4 * (2 * HDR) || end < 4 * (2 * HDR + 1))
      && (n != NULL ==> n >= 0 && from + 4 * (n + 2 * HDR) <= end < from + 4 * (n + 2 * HDR) + 4)
  {
  }

  // ----- runs

  datatype Op = DoMalloc(bytes: nat) | DoFree(p: int) | DoRealloc(p: int, bytes: nat)

  function Step(h: Heap, op: Op): Heap {
    match op
    case DoMalloc(bytes) => Malloc(h, bytes).0
    case DoFree(p) => Free(h, p)
    case DoRealloc(p, bytes) => Realloc(h, p, bytes).0
  }

  predicate Legal(h: Heap, op: Op) {
    match op
    case DoMalloc(bytes) => bytes < WRAP
    case DoFree(p) => LegalPointer(h, p)
    case DoRealloc(p, bytes) => bytes < WRAP && (LegalPointer(h, p) || Outside(h, p))
  }

  function Run(h: Heap, ops: seq<Op>): Heap
    decreases |ops|
  {
    if ops == [] then h else Run(Step(h, ops[0]), ops[1..])
  }

  predicate LegalRun(h: Heap, ops: seq<Op>)
    decreases |ops|
  {
    ops == [] || (Legal(h, ops[0]) && LegalRun(Step(h, ops[0]), ops[1..]))
  }

  lemma StepInv(h: Heap, op: Op)
    requires Inv(h) && Legal(h, op)
    ensures Inv(Step(h, op)) && Step(h, op).end == h.end
    ensures LowestFree(h) && !op.DoRealloc? ==> LowestFree(Step(h, op))
  {
    match op
    case DoMalloc(bytes) =>
      var n := AlignWords(bytes);
      MallocWordsInv(h, if n < MIN then MIN else n);
    case DoFree(p) =>
      if p != NULL { FreeAtRange(h.blocks, p - HDR, 0, h.end); FreeBlockInv(h, p - HDR); }
    case DoRealloc(p, bytes) =>
      ReallocInv(h, p, bytes);
  }

  /** Every run from rt_system_heap_init keeps the whole invariant; without realloc,
      lfree is the lowest free block throughout. */
  lemma {:induction false} RunInv(h: Heap, ops: seq<Op>)
    requires Inv(h) && LegalRun(h, ops)
    ensures Inv(Run(h, ops))
    ensures LowestFree(h) && (forall i :: 0 <= i < |ops| ==> !ops[i].DoRealloc?) ==> LowestFree(Run(h, ops))
    decreases |ops|
  {
    if ops != [] {
      StepInv(h, ops[0]);
      RunInv(Step(h, ops[0]), ops[1..]);
    }
  }

  lemma InitInv(words: nat)
    requires words >= MIN && 4 * (words + 2 * HDR) <= WRAP
    ensures Inv(Init(words)) && LowestFree(Init(words))
  {
  }

  /** The cost of an lfree that is not lowest: 36 free words, and four bytes are refused. */
  lemma ShrinkHidesFreeBlock()
    ensures var h := Run(Init(40), [DoMalloc(152), DoRealloc(3, 4)]);
            FreeAt(h.blocks, 4) && PayloadAt(h.blocks, 4) == 36 && Malloc(h, 4) == (h, NULL)
  {
    var h1 := Malloc(Init(40), 152).0;
    assert h1 == Heap(43, Cons(Block(0, 43, true), Nil), 43, 43, 43);
    var h2 := Realloc(h1, 3, 4).0;
    assert h2 == Heap(43, Cons(Block(0, 4, true), Cons(Block(4, 43, false), Nil)), 43, 4, 43);
    assert [DoMalloc(152), DoRealloc(3, 4)][1..] == [DoRealloc(3, 4)];
    assert Run(h1, [DoRealloc(3, 4)]) == h2;
  }
}
