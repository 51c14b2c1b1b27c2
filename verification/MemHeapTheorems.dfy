/** The two lists of memheap.c agree, and the counters with them, over every run. */
module MemHeapTheorems {
  import opened Arithmetic
  import opened MemHeapSpec
  import opened Sequences

  // ----- the block list

  lemma {:induction false} TilesUp(bs: Items, lo: nat, hi: nat)
    requires Tiles(bs, lo, hi)
    ensures lo <= hi
  {
    if bs.Cons? { TilesUp(bs.rest, bs.first.next, hi); }
  }

  lemma {:induction false} AtRange(bs: Items, a: int, lo: nat, hi: nat)
    requires Tiles(bs, lo, hi) && (FreeAt(bs, a) || UsedAt(bs, a))
    ensures lo <= a && SizeAt(bs, a) >= MIN && a + HDR + SizeAt(bs, a) <= hi
  {
    TilesUp(bs.rest, bs.first.next, hi);
    if bs.first.at != a { AtRange(bs.rest, a, bs.first.next, hi); }
  }

  lemma {:induction false} NotBoth(bs: Items, a: int)
    ensures !(FreeAt(bs, a) && UsedAt(bs, a))
  {
    if bs.Cons? { NotBoth(bs.rest, a); }
  }

  /** All blocks lie behind the first one. */
  lemma Behind(bs: Items, lo: nat, hi: nat)
    requires Tiles(bs, lo, hi)
    ensures forall b :: FreeAt(bs, b) || UsedAt(bs, b) ==> b >= lo
  {
    forall b | FreeAt(bs, b) || UsedAt(bs, b) ensures b >= lo { AtRange(bs, b, lo, hi); }
  }

  /** Two free neighbours only with the block at `a` in front. */
  predicate PairOnlyFrom(bs: Items, a: int) {
    bs.Cons? ==>
      && (bs.rest.Cons? && !bs.first.used && !bs.rest.first.used ==> bs.first.at == a)
      && PairOnlyFrom(bs.rest, a)
  }

  lemma {:induction false} NoPairAnywhere(bs: Items, a: int)
    requires NoFreePair(bs)
    ensures PairOnlyFrom(bs, a)
  {
    if bs.Cons? { NoPairAnywhere(bs.rest, a); }
  }

  lemma {:induction false} NoPairBeyond(bs: Items, a: int, lo: nat, hi: nat)
    requires Tiles(bs, lo, hi) && a < lo && PairOnlyFrom(bs, a)
    ensures NoFreePair(bs)
  {
    if bs.Cons? { NoPairBeyond(bs.rest, a, bs.first.next, hi); }
  }

  // ----- marking

  lemma {:induction false} MarkSpec(bs: Items, a: int, used: bool, lo: nat, hi: nat)
    requires Tiles(bs, lo, hi) && (FreeAt(bs, a) || UsedAt(bs, a))
    ensures Tiles(Mark(bs, a, used), lo, hi)
    ensures forall b :: SizeAt(Mark(bs, a, used), b) == SizeAt(bs, b)
    ensures forall b :: FreeAt(Mark(bs, a, used), b) <==> if b == a then !used else FreeAt(bs, b)
    ensures forall b :: UsedAt(Mark(bs, a, used), b) <==> if b == a then used else UsedAt(bs, b)
    ensures FreeSize(Mark(bs, a, used)) == FreeSize(bs) + (if used then 0 else SizeAt(bs, a)) - (if FreeAt(bs, a) then SizeAt(bs, a) else 0)
  {
    if bs.first.at != a { MarkSpec(bs.rest, a, used, bs.first.next, hi); }
  }

  lemma {:induction false} MarkUsedPairs(bs: Items, a: int)
    requires NoFreePair(bs)
    ensures NoFreePair(Mark(bs, a, true))
  {
    if bs.Cons? && bs.first.at != a { MarkUsedPairs(bs.rest, a); }
  }

  lemma {:induction false} FreeBeforeSpec(bs: Items, a: int, lo: nat, hi: nat)
    requires Tiles(bs, lo, hi) && a >= 0
    ensures var left := FreeBefore(bs, a);
            left != NULL ==> FreeAt(bs, left) && lo <= left && left + HDR + SizeAt(bs, left) == a && left + HDR + MIN <= a
  {
    if bs.Cons? && bs.rest.Cons? {
      FreeBeforeSpec(bs.rest, a, bs.first.next, hi);
    }
  }

  /** A block that becomes free may now be the second of a free pair, or the first. */
  lemma {:induction false} MarkFreePairs(bs: Items, a: int, lo: nat, hi: nat)
    requires Tiles(bs, lo, hi) && NoFreePair(bs) && UsedAt(bs, a)
    ensures FreeBefore(bs, a) == NULL ==> PairOnlyFrom(Mark(bs, a, false), a)
    ensures FreeBefore(bs, a) != NULL ==> PairOnlyFrom(Join(Mark(bs, a, false), FreeBefore(bs, a)), FreeBefore(bs, a))
  {
    AtRange(bs, a, lo, hi);
    FreeBeforeSpec(bs.rest, a, bs.first.next, hi);
    if bs.first.at == a {
      NoPairAnywhere(bs.rest, a);
    } else {
      MarkFreePairs(bs.rest, a, bs.first.next, hi);
      AtRange(bs.rest, a, bs.first.next, hi);
      if bs.rest.first.at == a { NoPairAnywhere(bs.rest.rest, bs.first.at); }
    }
  }

  // ----- joining

  /** Joining a block with a free one behind it. */
  lemma {:induction false} JoinSpec(bs: Items, a: int, lo: nat, hi: nat)
    requires Tiles(bs, lo, hi) && (FreeAt(bs, a) || UsedAt(bs, a))
    requires var right := a + HDR + SizeAt(bs, a); FreeAt(bs, right)
    ensures var right := a + HDR + SizeAt(bs, a);
      && Tiles(Join(bs, a), lo, hi)
      && SizeAt(Join(bs, a), a) == SizeAt(bs, a) + HDR + SizeAt(bs, right)
      && (forall b :: FreeAt(Join(bs, a), b) <==> FreeAt(bs, b) && b != right)
      && (forall b :: UsedAt(Join(bs, a), b) <==> UsedAt(bs, b))
      && (forall b :: UsedAt(bs, b) && b != a ==> SizeAt(Join(bs, a), b) == SizeAt(bs, b))
  {
    Behind(bs.rest, bs.first.next, hi);
    if bs.first.at == a {
      TilesUp(bs.rest, bs.first.next, hi);
      assert bs.rest.Cons? && bs.rest.first.at == bs.first.next;
      Behind(bs.rest.rest, bs.rest.first.next, hi);
    } else {
      AtRange(bs.rest, a, bs.first.next, hi);
      JoinSpec(bs.rest, a, bs.first.next, hi);
    }
  }

  lemma {:induction false} JoinFreeSize(bs: Items, a: int, lo: nat, hi: nat)
    requires Tiles(bs, lo, hi) && (FreeAt(bs, a) || UsedAt(bs, a))
    requires var right := a + HDR + SizeAt(bs, a); FreeAt(bs, right)
    ensures var right := a + HDR + SizeAt(bs, a);
            FreeSize(Join(bs, a)) == FreeSize(bs) + if FreeAt(bs, a) then HDR else -SizeAt(bs, right)
  {
    if bs.first.at != a {
      AtRange(bs.rest, a, bs.first.next, hi);
      JoinFreeSize(bs.rest, a, bs.first.next, hi);
    }
  }

  /** Joining the one pair that is left. */
  lemma {:induction false} JoinPairs(bs: Items, a: int, lo: nat, hi: nat)
    requires Tiles(bs, lo, hi) && PairOnlyFrom(bs, a) && (FreeAt(bs, a) || UsedAt(bs, a))
    requires var right := a + HDR + SizeAt(bs, a); FreeAt(bs, right)
    ensures NoFreePair(Join(bs, a)) && Join(bs, a).Cons? && (Join(bs, a).first.used <==> bs.first.used)
  {
    if bs.first.at == a {
      NoPairBeyond(bs.rest, a, bs.first.next, hi);
    } else {
      AtRange(bs.rest, a, bs.first.next, hi);
      JoinPairs(bs.rest, a, bs.first.next, hi);
    }
  }

  /** No pair at all if the block behind `a` is not free. */
  lemma {:induction false} NothingToJoin(bs: Items, a: int, lo: nat, hi: nat)
    requires Tiles(bs, lo, hi) && PairOnlyFrom(bs, a) && (FreeAt(bs, a) || UsedAt(bs, a)) && !FreeAt(bs, a + HDR + SizeAt(bs, a))
    ensures NoFreePair(bs)
  {
    if bs.first.at == a {
      NoPairBeyond(bs.rest, a, bs.first.next, hi);
    } else {
      AtRange(bs.rest, a, bs.first.next, hi);
      NothingToJoin(bs.rest, a, bs.first.next, hi);
    }
  }

  // ----- splitting

  lemma {:induction false} SplitSpec(bs: Items, a: int, n: nat, lo: nat, hi: nat)
    requires Tiles(bs, lo, hi) && (FreeAt(bs, a) || UsedAt(bs, a)) && n >= MIN && n + HDR + MIN <= SizeAt(bs, a)
    ensures var cut := a + HDR + n;
      && Tiles(Split(bs, a, n), lo, hi)
      && SizeAt(Split(bs, a, n), a) == n && SizeAt(Split(bs, a, n), cut) == SizeAt(bs, a) - n - HDR
      && (forall b :: FreeAt(Split(bs, a, n), b) <==> FreeAt(bs, b) || b == cut)
      && (forall b :: UsedAt(Split(bs, a, n), b) <==> UsedAt(bs, b))
      && (forall b :: (UsedAt(bs, b) || FreeAt(bs, b)) && b != a ==> SizeAt(Split(bs, a, n), b) == SizeAt(bs, b))
  {
    Behind(bs.rest, bs.first.next, hi);
    if bs.first.at != a {
      AtRange(bs.rest, a, bs.first.next, hi);
      SplitSpec(bs.rest, a, n, bs.first.next, hi);
    }
  }

  lemma {:induction false} SplitFreeSize(bs: Items, a: int, n: nat)
    requires FreeAt(bs, a) || UsedAt(bs, a)
    ensures FreeSize(Split(bs, a, n)) == FreeSize(bs) - HDR + if FreeAt(bs, a) then 0 else SizeAt(bs, a) - n
  {
    if bs.first.at != a { SplitFreeSize(bs.rest, a, n); }
  }

  /** Splitting a used block: the remainder may pair with what is behind it. */
  lemma {:induction false} SplitUsedPairs(bs: Items, a: int, n: nat, lo: nat, hi: nat)
    requires Tiles(bs, lo, hi) && NoFreePair(bs) && UsedAt(bs, a)
    ensures PairOnlyFrom(Split(bs, a, n), a + HDR + n) && Split(bs, a, n).Cons? && (Split(bs, a, n).first.used <==> bs.first.used)
  {
    if bs.first.at == a {
      NoPairAnywhere(bs.rest, a + HDR + n);
    } else {
      SplitUsedPairs(bs.rest, a, n, bs.first.next, hi);
    }
  }

  /** Splitting a free block to hand out its front. */
  lemma {:induction false} SplitFreePairs(bs: Items, a: int, n: nat)
    requires NoFreePair(bs) && FreeAt(bs, a)
    ensures NoFreePair(Mark(Split(bs, a, n), a, true))
    ensures Mark(Split(bs, a, n), a, true).Cons? && (bs.first.used ==> Mark(Split(bs, a, n), a, true).first.used)
  {
    if bs.first.at != a { SplitFreePairs(bs.rest, a, n); }
  }

  // ----- the free list

  /** One block leaves the free list. */
  lemma Leaves(bs: Items, bs': Items, free: seq<int>, a: int)
    requires ListsAgree(bs, free) && forall b :: FreeAt(bs', b) <==> FreeAt(bs, b) && b != a
    ensures ListsAgree(bs', Remove(free, a))
  {
    RemoveSpec(free, a);
  }

  lemma {:induction false} FindSpec(bs: Items, free: seq<int>, n: nat)
    requires NULL !in free
    ensures var a := Find(bs, free, n);
      && (a != NULL ==> a in free && SizeAt(bs, a) >= n)
      && (a == NULL ==> forall b :: b in free ==> SizeAt(bs, b) < n)
    decreases |free|
  {
    if free != [] {
      assert free == [free[0]] + free[1..];
      FindSpec(bs, free[1..], n);
    }
  }

  lemma SearchSpec(h: MemHeap, n: nat)
    requires Inv(h)
    ensures var a := Find(h.items, h.free, n);
      && (a != NULL ==> a >= 0 && FreeAt(h.items, a) && SizeAt(h.items, a) >= n)
      && (a == NULL ==> forall b :: FreeAt(h.items, b) ==> SizeAt(h.items, b) < n)
  {
    Behind(h.items, 0, h.end);
    FindSpec(h.items, h.free, n);
  }

  /** Blocks in use other than the one at `a` are where and what they were. */
  ghost predicate OthersStay(bs: Items, bs': Items, a: int) {
    forall b :: UsedAt(bs, b) && b != a ==> UsedAt(bs', b) && SizeAt(bs', b) == SizeAt(bs, b)
  }

  /** The headers of the blocks, which is all the allocator writes, lie outside every payload in use. */
  lemma HeaderNotInPayload(h: MemHeap, a: int, b: int)
    requires Inv(h) && UsedAt(h.items, a) && (FreeAt(h.items, b) || UsedAt(h.items, b) || b == h.end)
    ensures b <= a || a + HDR + SizeAt(h.items, a) <= b
  {
    AtRange(h.items, a, 0, h.end);
    if a < b < a + HDR + SizeAt(h.items, a) { NotInside(h.items, a, b, 0, h.end); }
  }

  // ----- allocation

  lemma SplitOff(h: MemHeap, a: int, n: nat)
    requires Inv(h) && FreeAt(h.items, a) && n >= MIN && n + HDR + MIN <= SizeAt(h.items, a)
    ensures Inv(Occupy(h, a, n)) && OthersStay(h.items, Occupy(h, a, n).items, a)
    ensures UsedAt(Occupy(h, a, n).items, a) && SizeAt(Occupy(h, a, n).items, a) == n
  {
    var bs, cut := Split(h.items, a, n), a + HDR + n;
    var cs := Mark(bs, a, true);
    AtRange(h.items, a, 0, h.end);
    SplitSpec(h.items, a, n, 0, h.end);
    SplitFreeSize(h.items, a, n);
    SplitFreePairs(h.items, a, n);
    MarkSpec(bs, a, true, 0, h.end);
    NotInside(h.items, a, cut, 0, h.end);
    RemoveSpec(h.free, a);
    assert forall b :: FreeAt(cs, b) <==> (FreeAt(h.items, b) && b != a) || b == cut;
    assert ListsAgree(cs, [cut] + Remove(h.free, a));
    NotBoth(h.items, a);
  }

  /** No block starts inside another. */
  lemma {:induction false} NotInside(bs: Items, a: int, b: int, lo: nat, hi: nat)
    requires Tiles(bs, lo, hi) && (FreeAt(bs, a) || UsedAt(bs, a)) && a < b < a + HDR + SizeAt(bs, a)
    ensures !FreeAt(bs, b) && !UsedAt(bs, b)
  {
    Behind(bs.rest, bs.first.next, hi);
    if bs.first.at != a {
      AtRange(bs.rest, a, bs.first.next, hi);
      NotInside(bs.rest, a, b, bs.first.next, hi);
    }
  }

  lemma TakeWhole(h: MemHeap, a: int, n: nat)
    requires Inv(h) && FreeAt(h.items, a) && n <= SizeAt(h.items, a) < n + HDR + MIN
    ensures Inv(Occupy(h, a, n)) && OthersStay(h.items, Occupy(h, a, n).items, a)
    ensures UsedAt(Occupy(h, a, n).items, a) && SizeAt(Occupy(h, a, n).items, a) == SizeAt(h.items, a)
  {
    var cs := Mark(h.items, a, true);
    AtRange(h.items, a, 0, h.end);
    MarkSpec(h.items, a, true, 0, h.end);
    MarkUsedPairs(h.items, a);
    Leaves(h.items, cs, h.free, a);
    NotBoth(h.items, a);
  }

  lemma AllocInv(h: MemHeap, n: nat)
    requires Inv(h) && n >= MIN
    ensures var (h', p) := AllocWords(h, n);
      && Inv(h') && h'.end == h.end && (p == NULL ==> h' == h)
      && (p != NULL ==>
           && p >= HDR && FreeAt(h.items, p - HDR) && UsedAt(h'.items, p - HDR)
           && n <= SizeAt(h'.items, p - HDR) < n + HDR + MIN && OthersStay(h.items, h'.items, p - HDR))
  {
    var a := Find(h.items, h.free, n);
    SearchSpec(h, n);
    if a != NULL && n < h.available {
      AtRange(h.items, a, 0, h.end);
      if n + HDR + MIN <= SizeAt(h.items, a) { SplitOff(h, a, n); } else { TakeWhole(h, a, n); }
    }
  }

  lemma {:induction false} FreeSizeCovers(bs: Items, a: int, lo: nat, hi: nat)
    requires Tiles(bs, lo, hi)
    ensures FreeSize(bs) >= 0 && (FreeAt(bs, a) ==> FreeSize(bs) >= SizeAt(bs, a))
  {
    if bs.Cons? { FreeSizeCovers(bs.rest, a, bs.first.next, hi); }
  }

  /** No free block is long enough, or all that is free is asked for. */
  ghost predicate NoRoom(h: MemHeap, n: nat) { (forall a :: FreeAt(h.items, a) ==> SizeAt(h.items, a) < n) || n == h.available }

  /** The request fails exactly when no free block is long enough, or when it asks for the very last
      free word: the comparison with the counter is strict. */
  lemma FailsExactly(h: MemHeap, n: nat)
    requires Inv(h) && n >= MIN
    ensures AllocWords(h, n).1 == NULL <==> NoRoom(h, n)
  {
    SearchSpec(h, n);
    forall a | FreeAt(h.items, a) ensures 0 <= a && SizeAt(h.items, a) <= h.available {
      AtRange(h.items, a, 0, h.end);
      FreeSizeCovers(h.items, a, 0, h.end);
    }
  }

  // ----- release

  /** A free pair that begins at `a` is all that is wrong with the blocks. */
  ghost predicate AlmostInv(h: MemHeap, a: int) {
    && 4 * PoolSize(h) <= WRAP && h.items.Cons? && Tiles(h.items, 0, h.end) && FreeAt(h.items, a) && PairOnlyFrom(h.items, a)
    && h.available == FreeSize(h.items) && PoolSize(h) - h.available <= h.maxUsed
  }

  lemma MergeRightSpec(h: MemHeap, a: int)
    requires AlmostInv(h, a)
    ensures var r := MergeRight(h, a); var right := a + HDR + SizeAt(h.items, a);
      && r.end == h.end && Tiles(r.items, 0, h.end) && NoFreePair(r.items) && r.items.Cons?
      && r.available == FreeSize(r.items) && PoolSize(r) - r.available <= r.maxUsed
      && r.free == (if FreeAt(h.items, right) then Remove(h.free, right) else h.free)
      && (forall b :: FreeAt(r.items, b) <==> FreeAt(h.items, b) && b != right)
      && (forall b :: UsedAt(r.items, b) <==> UsedAt(h.items, b))
      && (forall b :: UsedAt(h.items, b) ==> SizeAt(r.items, b) == SizeAt(h.items, b))
  {
    NotBoth(h.items, a);
    if FreeAt(h.items, a + HDR + SizeAt(h.items, a)) {
      JoinSpec(h.items, a, 0, h.end);
      JoinFreeSize(h.items, a, 0, h.end);
      JoinPairs(h.items, a, 0, h.end);
    } else {
      NothingToJoin(h.items, a, 0, h.end);
    }
  }

  lemma AloneLists(bs: Items, bs': Items, free: seq<int>, a: int, right: int)
    requires ListsAgree(bs, free) && !FreeAt(bs, a) && a != right
    requires forall b :: FreeAt(bs', b) <==> (FreeAt(bs, b) || b == a) && b != right
    ensures ListsAgree(bs', [a] + Remove(free, right))
  {
    RemoveSpec(free, right);
    PushSpec(Remove(free, right), a);
  }

  lemma AloneDone(h: MemHeap, m: MemHeap, a: int, right: int)
    requires Inv(h) && !FreeAt(h.items, a) && a != right
    requires m.end == h.end && m.items.Cons? && Tiles(m.items, 0, h.end) && NoFreePair(m.items)
    requires m.available == FreeSize(m.items) && PoolSize(m) - m.available <= m.maxUsed
    requires m.free == if FreeAt(h.items, right) then Remove(h.free, right) else h.free
    requires forall b :: FreeAt(m.items, b) <==> (FreeAt(h.items, b) || b == a) && b != right
    ensures Inv(m.(free := [a] + m.free))
  {
    AloneLists(h.items, m.items, h.free, a, right);
    if !FreeAt(h.items, right) { RemoveAbsent(h.free, right); }
  }

  /** No free block in front: the block is a new entry of the free list. */
  lemma FreeAlone(h: MemHeap, a: int)
    requires Inv(h) && UsedAt(h.items, a) && FreeBefore(h.items, a) == NULL
    ensures Inv(FreeBlock(h, a)) && OthersStay(h.items, FreeBlock(h, a).items, a) && !UsedAt(FreeBlock(h, a).items, a)
  {
    AloneIs(h, a);
    AloneMerged(h, a);
  }

  lemma AloneMerged(h: MemHeap, a: int)
    requires Inv(h) && UsedAt(h.items, a) && FreeBefore(h.items, a) == NULL
    ensures var m := MergeRight(h.(items := Mark(h.items, a, false), available := h.available + SizeAt(h.items, a)), a);
            Inv(m.(free := [a] + m.free)) && OthersStay(h.items, m.items, a) && !UsedAt(m.items, a)
  {
    var h1 := h.(items := Mark(h.items, a, false), available := h.available + SizeAt(h.items, a));
    AtRange(h.items, a, 0, h.end);
    MarkSpec(h.items, a, false, 0, h.end);
    MarkFreePairs(h.items, a, 0, h.end);
    NotBoth(h.items, a);
    MergeRightSpec(h1, a);
    AloneDone(h, MergeRight(h1, a), a, a + HDR + SizeAt(h.items, a));
  }

  lemma AloneIs(h: MemHeap, a: int)
    requires FreeBefore(h.items, a) == NULL
    ensures var m := MergeRight(h.(items := Mark(h.items, a, false), available := h.available + SizeAt(h.items, a)), a);
            FreeBlock(h, a) == m.(free := [a] + m.free)
  {
  }

  /** A free block in front absorbs the block, and stays where it is in the free list. */
  lemma FreeAbsorbed(h: MemHeap, a: int)
    requires Inv(h) && UsedAt(h.items, a) && FreeBefore(h.items, a) != NULL
    ensures Inv(FreeBlock(h, a)) && OthersStay(h.items, FreeBlock(h, a).items, a) && !UsedAt(FreeBlock(h, a).items, a)
  {
    var left := FreeBefore(h.items, a);
    var bs := Mark(h.items, a, false);
    AtRange(h.items, a, 0, h.end);
    FreeBeforeSpec(h.items, a, 0, h.end);
    MarkSpec(h.items, a, false, 0, h.end);
    MarkFreePairs(h.items, a, 0, h.end);
    NotBoth(h.items, a);
    NotBoth(bs, left);
    JoinSpec(bs, left, 0, h.end);
    JoinFreeSize(bs, left, 0, h.end);
    AbsorbedMerge(h, a, left, h.(items := Join(bs, left), available := h.available + SizeAt(h.items, a) + HDR));
  }

  lemma AbsorbedMerge(h: MemHeap, a: int, left: int, h2: MemHeap)
    requires Inv(h) && AlmostInv(h2, left) && h2.free == h.free && h2.end == h.end && UsedAt(h.items, a)
    requires forall b :: FreeAt(h2.items, b) <==> FreeAt(h.items, b)
    requires forall b :: UsedAt(h2.items, b) <==> UsedAt(h.items, b) && b != a
    requires forall b :: UsedAt(h.items, b) && b != a ==> SizeAt(h2.items, b) == SizeAt(h.items, b)
    ensures Inv(MergeRight(h2, left)) && OthersStay(h.items, MergeRight(h2, left).items, a) && !UsedAt(MergeRight(h2, left).items, a)
  {
    MergeRightSpec(h2, left);
    RemoveSpec(h.free, left + HDR + SizeAt(h2.items, left));
  }

  lemma FreeInv(h: MemHeap, a: int)
    requires Inv(h) && UsedAt(h.items, a)
    ensures Inv(FreeBlock(h, a)) && FreeBlock(h, a).end == h.end
    ensures OthersStay(h.items, FreeBlock(h, a).items, a) && !UsedAt(FreeBlock(h, a).items, a)
  {
    if FreeBefore(h.items, a) == NULL { FreeAlone(h, a); } else { FreeAbsorbed(h, a); }
  }

  // ----- resizing in place

  lemma {:induction false} NextIsUsedOrFree(bs: Items, a: int, lo: nat, hi: nat)
    requires Tiles(bs, lo, hi) && NoFreePair(bs) && FreeAt(bs, a)
    ensures !FreeAt(bs, a + HDR + SizeAt(bs, a))
  {
    TilesUp(bs.rest, bs.first.next, hi);
    if bs.first.at == a {
      if bs.rest.Cons? { Behind(bs.rest.rest, bs.rest.first.next, hi); }
    } else {
      AtRange(bs.rest, a, bs.first.next, hi);
      NextIsUsedOrFree(bs.rest, a, bs.first.next, hi);
    }
  }

  /** A used block that absorbed its free successor is split: the remainder pairs with nobody. */
  lemma {:induction false} RegrowPairs(bs: Items, a: int, n: nat, lo: nat, hi: nat)
    requires Tiles(bs, lo, hi) && NoFreePair(bs) && UsedAt(bs, a) && FreeAt(bs, a + HDR + SizeAt(bs, a))
    ensures NoFreePair(Split(Join(bs, a), a, n))
    ensures Split(Join(bs, a), a, n).Cons? && (Split(Join(bs, a), a, n).first.used <==> bs.first.used)
  {
    if bs.first.at == a {
      TilesUp(bs.rest, bs.first.next, hi);
    } else {
      AtRange(bs.rest, a, bs.first.next, hi);
      RegrowPairs(bs.rest, a, n, bs.first.next, hi);
    }
  }

  lemma GrowInv(h: MemHeap, a: int, n: nat)
    requires Inv(h) && UsedAt(h.items, a) && n > SizeAt(h.items, a)
    requires var right := a + HDR + SizeAt(h.items, a);
             FreeAt(h.items, right) && SizeAt(h.items, right) + SizeAt(h.items, a) >= n + MIN
    ensures Inv(Grow(h, a, n)) && Grow(h, a, n).end == h.end && OthersStay(h.items, Grow(h, a, n).items, a)
    ensures UsedAt(Grow(h, a, n).items, a) && SizeAt(Grow(h, a, n).items, a) == n
  {
    var right := a + HDR + SizeAt(h.items, a);
    var bs := Join(h.items, a);
    AtRange(h.items, a, 0, h.end);
    NotBoth(h.items, a);
    JoinSpec(h.items, a, 0, h.end);
    JoinFreeSize(h.items, a, 0, h.end);
    NotBoth(bs, a);
    SplitSpec(bs, a, n, 0, h.end);
    SplitFreeSize(bs, a, n);
    RegrowPairs(h.items, a, n, 0, h.end);
    NotInside(bs, a, a + HDR + n, 0, h.end);
    RegrownLists(h, a, n, right, Split(bs, a, n));
  }

  lemma RegrownLists(h: MemHeap, a: int, n: nat, right: int, bs: Items)
    requires Inv(h) && !FreeAt(Join(h.items, a), a + HDR + n)
    requires forall b :: FreeAt(Join(h.items, a), b) <==> FreeAt(h.items, b) && b != right
    requires forall b :: FreeAt(bs, b) <==> FreeAt(Join(h.items, a), b) || b == a + HDR + n
    ensures ListsAgree(bs, [a + HDR + n] + Remove(h.free, right))
  {
    RemoveSpec(h.free, right);
  }

  lemma ShrinkInv(h: MemHeap, a: int, n: nat)
    requires Inv(h) && UsedAt(h.items, a) && n >= MIN && n + HDR + MIN <= SizeAt(h.items, a)
    ensures Inv(Shrink(h, a, n)) && Shrink(h, a, n).end == h.end && OthersStay(h.items, Shrink(h, a, n).items, a)
    ensures UsedAt(Shrink(h, a, n).items, a) && SizeAt(Shrink(h, a, n).items, a) == n
  {
    var cut, right, bs := a + HDR + n, a + HDR + SizeAt(h.items, a), Split(h.items, a, n);
    var h1 := h.(items := bs, available := h.available + (SizeAt(h.items, a) - n - HDR));
    AtRange(h.items, a, 0, h.end);
    NotBoth(h.items, a);
    SplitSpec(h.items, a, n, 0, h.end);
    SplitFreeSize(h.items, a, n);
    SplitUsedPairs(h.items, a, n, 0, h.end);
    NotInside(h.items, a, cut, 0, h.end);
    NotBoth(bs, cut);
    ShrunkMerge(h, h1, a, n, cut, right);
  }

  lemma ShrunkMerge(h: MemHeap, h1: MemHeap, a: int, n: nat, cut: int, right: int)
    requires Inv(h) && AlmostInv(h1, cut) && h1.free == h.free && h1.end == h.end && cut != right
    requires right == cut + HDR + SizeAt(h1.items, cut) && !FreeAt(h.items, cut)
    requires forall b :: FreeAt(h1.items, b) <==> FreeAt(h.items, b) || b == cut
    ensures var m := MergeRight(h1, cut); Inv(m.(free := [cut] + m.free))
    ensures forall b :: UsedAt(MergeRight(h1, cut).items, b) <==> UsedAt(h1.items, b)
    ensures forall b :: UsedAt(h1.items, b) ==> SizeAt(MergeRight(h1, cut).items, b) == SizeAt(h1.items, b)
  {
    MergeRightSpec(h1, cut);
    RemoveSpec(h.free, right);
    var m := MergeRight(h1, cut);
    assert forall b :: FreeAt(m.items, b) <==> (FreeAt(h.items, b) && b != right) || b == cut;
  }

  // ----- realloc

  predicate LegalPointer(h: MemHeap, p: int) { p == NULL || UsedAt(h.items, p - HDR) }

  /** The comparison that decides about growing in place wraps when a request this close to the top of
      the range meets a free block behind. */
  predicate Checked(h: MemHeap, p: int, bytes: nat) {
    bytes == 0 || p == NULL || Request(bytes) + MIN < WORDS || !FreeAt(h.items, p + SizeAt(h.items, p - HDR))
  }

  lemma MoveInv(h: MemHeap, a: int, n: nat)
    requires Inv(h) && UsedAt(h.items, a) && n >= MIN
    ensures var (h1, q) := AllocWords(h, n);
      if q == NULL then h1 == h
      else Inv(FreeBlock(h1, a)) && FreeBlock(h1, a).end == h.end && OthersStay(h.items, FreeBlock(h1, a).items, a)
           && q - HDR != a && UsedAt(FreeBlock(h1, a).items, q - HDR)
           && n <= SizeAt(FreeBlock(h1, a).items, q - HDR) <= n + HDR + MIN
  {
    AllocInv(h, n);
    var (h1, q) := AllocWords(h, n);
    if q != NULL {
      NotBoth(h.items, q - HDR);
      FreeInv(h1, a);
    }
  }

  /** The block at `b` holds n words in a heap that is in order, and the rest is as before. */
  ghost predicate Resized(h: MemHeap, h': MemHeap, a: int, b: int, n: nat) {
    && Inv(h') && h'.end == h.end && OthersStay(h.items, h'.items, a)
    && UsedAt(h'.items, b) && n <= SizeAt(h'.items, b) <= n + HDR + MIN
  }

  predicate Bounded(h: MemHeap, a: int, n: nat) { n + MIN < WORDS || !FreeAt(h.items, a + HDR + SizeAt(h.items, a)) }

  lemma ResizeInv(h: MemHeap, a: int, n: nat)
    requires Inv(h) && UsedAt(h.items, a) && a >= 0 && n >= MIN && Bounded(h, a, n)
    ensures var (h', q) := Resize(h, a, n); if q == NULL then h' == h else Resized(h, h', a, q - HDR, n)
  {
    var size := SizeAt(h.items, a);
    if n > size {
      EnlargeInv(h, a, n);
    } else if n + HDR + MIN < size {
      ShrinkInv(h, a, n);
    }
  }

  lemma EnlargeInv(h: MemHeap, a: int, n: nat)
    requires Inv(h) && UsedAt(h.items, a) && a >= 0 && n >= MIN && n > SizeAt(h.items, a) && Bounded(h, a, n)
    ensures var (h', q) := Resize(h, a, n); if q == NULL then h' == h else Resized(h, h', a, q - HDR, n)
  {
    var size := SizeAt(h.items, a);
    if FreeAt(h.items, a + HDR + size) && SizeAt(h.items, a + HDR + size) + size > n + MIN { GrowInv(h, a, n); } else { MoveInv(h, a, n); }
  }

  /** Whatever way rt_memheap_realloc takes, the invariant holds after it, other blocks in use are
      untouched, and the block it returns has the words of the rounded request. */
  lemma ReallocInv(h: MemHeap, p: int, bytes: nat)
    requires Inv(h) && LegalPointer(h, p) && bytes < WRAP && Checked(h, p, bytes)
    ensures var (h', q) := Realloc(h, p, bytes);
      && Inv(h') && h'.end == h.end && OthersStay(h.items, h'.items, p - HDR)
      && (q != NULL ==> UsedAt(h'.items, q - HDR) && Request(bytes) <= SizeAt(h'.items, q - HDR) <= Request(bytes) + HDR + MIN)
      && (q == NULL && bytes > 0 ==> h' == h)
  {
    Behind(h.items, 0, h.end);
    if bytes == 0 {
      if p != NULL { FreeInv(h, p - HDR); }
    } else {
      var n := Request(bytes);
      if p == NULL {
        AllocInv(h, n);
        NotThere(h, n);
      } else {
        ResizeInv(h, p - HDR, n);
      }
    }
  }

  /** The first of the free list that is long enough. */
  ghost predicate FirstFit(h: MemHeap, a: int, n: nat) { exists i :: FitsAt(h.items, h.free, i, a, n) }

  ghost predicate FitsAt(bs: Items, free: seq<int>, i: int, a: int, n: nat) {
    0 <= i < |free| && free[i] == a && SizeAt(bs, a) >= n && forall j :: 0 <= j < i ==> SizeAt(bs, free[j]) < n
  }

  lemma {:induction false} FindFirst(bs: Items, free: seq<int>, n: nat)
    requires NULL !in free && Find(bs, free, n) != NULL
    ensures exists i :: FitsAt(bs, free, i, Find(bs, free, n), n)
    decreases |free|
  {
    if SizeAt(bs, free[0]) < n {
      FindFirst(bs, free[1..], n);
      var a := Find(bs, free[1..], n);
      var i :| FitsAt(bs, free[1..], i, a, n);
      forall j | 0 <= j < i + 1 ensures SizeAt(bs, free[j]) < n { if j > 0 { assert free[j] == free[1..][j - 1]; } }
      assert FitsAt(bs, free, i + 1, a, n);
    } else {
      assert FitsAt(bs, free, 0, free[0], n);
    }
  }

  /** An allocation takes the first block of the free list that is long enough. */
  lemma TakesFirst(h: MemHeap, n: nat)
    requires Inv(h) && n >= MIN
    ensures var p := AllocWords(h, n).1; (p == NULL <==> NoRoom(h, n)) && (p != NULL ==> FirstFit(h, p - HDR, n))
  {
    FailsExactly(h, n);
    Behind(h.items, 0, h.end);
    if AllocWords(h, n).1 != NULL {
      var a := Find(h.items, h.free, n);
      FindFirst(h.items, h.free, n);
      var i :| FitsAt(h.items, h.free, i, a, n);
      assert AllocWords(h, n).1 - HDR == a;
    }
  }

  /** The free block behind makes up for what is missing, and more would be left of it than the least allocation;
      for a checked request the sum does not wrap. */
  predicate GrowsInPlace(h: MemHeap, p: int, n: nat) {
    var right := p + SizeAt(h.items, p - HDR);
    FreeAt(h.items, right) && SizeAt(h.items, p - HDR) + SizeAt(h.items, right) > (n + MIN) % WORDS
  }

  /** rt_memheap_realloc of a block fails exactly if nothing is asked for, or more than the block holds when it cannot
      grow in place and an allocation fails; it returns the same block exactly if that is long enough or can grow, and
      else the first that an allocation takes. */
  lemma ReallocFails(h: MemHeap, p: int, bytes: nat)
    requires Inv(h) && LegalPointer(h, p) && p != NULL && bytes < WRAP
    ensures var q, n, size := Realloc(h, p, bytes).1, Request(bytes), SizeAt(h.items, p - HDR);
      && (q == NULL <==> bytes == 0 || (n > size && !GrowsInPlace(h, p, n) && NoRoom(h, n)))
      && (q == p <==> bytes > 0 && (n <= size || GrowsInPlace(h, p, n)))
      && (q != NULL && q != p ==> FirstFit(h, q - HDR, n))
  {
    Behind(h.items, 0, h.end);
    TakesFirst(h, Request(bytes));
    AllocInv(h, Request(bytes));
    NotThere(h, Request(bytes));
  }

  /** The old block is given back exactly if another takes its place, or nothing is asked for. */
  lemma ReallocGivesBack(h: MemHeap, p: int, bytes: nat)
    requires Inv(h) && LegalPointer(h, p) && p != NULL && bytes < WRAP && Checked(h, p, bytes)
    ensures var (h', q) := Realloc(h, p, bytes); UsedAt(h'.items, p - HDR) <==> q == p || (q == NULL && bytes > 0)
  {
    var n := Request(bytes);
    Behind(h.items, 0, h.end);
    ReallocFails(h, p, bytes);
    if bytes == 0 {
      FreeInv(h, p - HDR);
    } else if n <= SizeAt(h.items, p - HDR) || GrowsInPlace(h, p, n) {
      ResizeInv(h, p - HDR, n);
    } else {
      AllocInv(h, n);
      if AllocWords(h, n).1 != NULL { FreeInv(AllocWords(h, n).0, p - HDR); }
    }
  }

  /** max_used_size follows what is in use, headers included, as far as it rises. */
  lemma MaxFollows(h: MemHeap, p: int, n: nat)
    requires Inv(h) && n >= MIN
    ensures var r := AllocWords(h, n).0; r.maxUsed == (if PoolSize(r) - r.available > h.maxUsed then PoolSize(r) - r.available else h.maxUsed)
    ensures p != NULL && LegalPointer(h, p) ==> FreeBlock(h, p - HDR).maxUsed == h.maxUsed
    ensures p != NULL && LegalPointer(h, p) && n > SizeAt(h.items, p - HDR) && GrowsInPlace(h, p, n) ==>
              var r := Grow(h, p - HDR, n);
              r.maxUsed == (if PoolSize(r) - r.available > h.maxUsed then PoolSize(r) - r.available else h.maxUsed)
  {
  }

  /** Of no block it is an allocation. */
  lemma ReallocOfNothing(h: MemHeap, bytes: nat)
    requires Inv(h) && bytes < WRAP
    ensures var q := Realloc(h, NULL, bytes).1;
            (q == NULL <==> bytes == 0 || NoRoom(h, Request(bytes))) && (q != NULL ==> FirstFit(h, q - HDR, Request(bytes)))
  {
    TakesFirst(h, Request(bytes));
  }

  /** A served request is covered by its block exactly when the rounding of its size does not wrap. */
  lemma RequestCovered(h: MemHeap, p: int, bytes: nat)
    requires Inv(h) && LegalPointer(h, p) && 0 < bytes < WRAP && Checked(h, p, bytes)
    ensures var (h', q) := Alloc(h, bytes); q != NULL ==> (4 * SizeAt(h'.items, q - HDR) >= bytes <==> bytes <= WRAP - 4)
    ensures var (h', q) := Realloc(h, p, bytes); q != NULL ==> (4 * SizeAt(h'.items, q - HDR) >= bytes <==> bytes <= WRAP - 4)
  {
    AllocInv(h, Request(bytes));
    ReallocInv(h, p, bytes);
    InPool(Alloc(h, bytes).0, Alloc(h, bytes).1 - HDR);
    InPool(Realloc(h, p, bytes).0, Realloc(h, p, bytes).1 - HDR);
  }

  lemma InPool(h: MemHeap, a: int)
    requires Inv(h)
    ensures UsedAt(h.items, a) ==> 4 * SizeAt(h.items, a) <= WRAP - 48
  {
    if UsedAt(h.items, a) { AtRange(h.items, a, 0, h.end); }
  }

  /** A cut beyond the end of the pool breaks the tiling. */
  lemma {:induction false} CutBeyond(bs: Items, a: int, n: nat, lo: nat, hi: nat)
    requires Tiles(bs, lo, hi) && (FreeAt(bs, a) || UsedAt(bs, a)) && a + HDR + n > hi
    ensures !Tiles(Split(bs, a, n), lo, hi)
  {
    if bs.first.at == a { TilesUp(bs.rest, bs.first.next, hi); } else { CutBeyond(bs.rest, a, n, bs.first.next, hi); }
  }

  /** When the comparison wraps the block is grown far beyond the free block behind it. */
  lemma GrowsTooFar(h: MemHeap, a: int, n: nat)
    requires Inv(h) && UsedAt(h.items, a) && n < WORDS && !Bounded(h, a, n)
    ensures !Inv(Resize(h, a, n).0)
  {
    var right := a + HDR + SizeAt(h.items, a);
    AtRange(h.items, a, 0, h.end);
    AtRange(h.items, right, 0, h.end);
    assert SizeAt(h.items, right) + SizeAt(h.items, a) > (n + MIN) % WORDS;
    JoinSpec(h.items, a, 0, h.end);
    CutBeyond(Join(h.items, a), a, n, 0, h.end);
  }

  /** Exactly when rt_memheap_realloc leaves the heap in order. */
  lemma ReallocExactly(h: MemHeap, p: int, bytes: nat)
    requires Inv(h) && LegalPointer(h, p) && bytes < WRAP
    ensures Inv(Realloc(h, p, bytes).0) <==> Checked(h, p, bytes)
  {
    if Checked(h, p, bytes) {
      ReallocInv(h, p, bytes);
    } else {
      Behind(h.items, 0, h.end);
      GrowsTooFar(h, p - HDR, Request(bytes));
    }
  }

  /** Concretely: a block of three words with free room behind is grown over the end of the pool. */
  lemma ReallocBreaksHeap()
    ensures var h := Alloc(Init(40), 12).0; Inv(h) && UsedAt(h.items, 0) && !Checked(h, HDR, 0xFFFF_FFF8) && !Inv(Realloc(h, HDR, 0xFFFF_FFF8).0)
  {
    InitInv(40);
    AllocInv(Init(40), MIN);
    var h := Alloc(Init(40), 12).0;
    assert h.items == Cons(Item(0, 9, true), Cons(Item(9, 34, false), Nil));
    ReallocExactly(h, HDR, 0xFFFF_FFF8);
  }

  /** A fresh pool refuses a request for all of its free block, however large it is. */
  lemma LastWordRefused(words: nat)
    requires words >= 2 * HDR + MIN && 4 * words <= WRAP
    ensures var h, n := Init(words), words - 2 * HDR;
      && Inv(h) && FreeAt(h.items, 0) && SizeAt(h.items, 0) == n == Request(4 * n) && Alloc(h, 4 * n).1 == NULL
      && (n > MIN ==> Alloc(h, 4 * (n - 1)).1 == HDR)
  {
    InitInv(words);
    var h, n := Init(words), words - 2 * HDR;
    FailsExactly(h, n);
    assert Find(h.items, h.free, n) == 0;
    if n > MIN { assert Find(h.items, h.free, n - 1) == 0; }
  }

  lemma NotThere(h: MemHeap, n: nat)
    requires Inv(h) && n >= MIN
    ensures var (h', p) := AllocWords(h, n); p != NULL ==> !UsedAt(h.items, p - HDR)
  {
    AllocInv(h, n);
    NotBoth(h.items, AllocWords(h, n).1 - HDR);
  }

  // ----- release undoes allocation

  lemma {:induction false} SplitRejoined(bs: Items, a: int, n: nat, lo: nat, hi: nat)
    requires Tiles(bs, lo, hi) && NoFreePair(bs) && FreeAt(bs, a) && n >= MIN && n + HDR + MIN <= SizeAt(bs, a)
    ensures var cs := Mark(Split(bs, a, n), a, true);
      && FreeBefore(cs, a) == NULL && Join(Mark(cs, a, false), a) == bs
  {
    AtRange(bs, a, lo, hi);
    if bs.first.at == a {
      FreeBeforeSpec(bs.rest, a, bs.first.next, hi);
      FreeBeforeSpec(Mark(Split(bs, a, n), a, true).rest, a, a + HDR + n, hi);
    } else {
      AtRange(bs.rest, a, bs.first.next, hi);
      SplitRejoined(bs.rest, a, n, bs.first.next, hi);
    }
  }

  lemma {:induction false} MarkedBack(bs: Items, a: int, lo: nat, hi: nat)
    requires Tiles(bs, lo, hi) && NoFreePair(bs) && FreeAt(bs, a)
    ensures var cs := Mark(bs, a, true); FreeBefore(cs, a) == NULL && Mark(cs, a, false) == bs
  {
    AtRange(bs, a, lo, hi);
    if bs.first.at == a {
      FreeBeforeSpec(bs.rest, a, bs.first.next, hi);
    } else {
      AtRange(bs.rest, a, bs.first.next, hi);
      MarkedBack(bs.rest, a, bs.first.next, hi);
    }
  }

  lemma UndoSplit(h: MemHeap, a: int, n: nat)
    requires Inv(h) && FreeAt(h.items, a) && a >= 0 && n >= MIN && n + HDR + MIN <= SizeAt(h.items, a)
    requires var cs := Mark(Split(h.items, a, n), a, true);
      FreeBefore(cs, a) == NULL && Join(Mark(cs, a, false), a) == h.items
    ensures var r := FreeBlock(Occupy(h, a, n), a);
      r.items == h.items && r.available == h.available && r.free == [a] + Remove(h.free, a)
  {
    var cut, bs := a + HDR + n, Split(h.items, a, n);
    var cs := Mark(bs, a, true);
    SplitSpec(h.items, a, n, 0, h.end);
    MarkSpec(bs, a, true, 0, h.end);
    MarkSpec(cs, a, false, 0, h.end);
    assert ([cut] + Remove(h.free, a))[1..] == Remove(h.free, a);
    assert Remove([cut] + Remove(h.free, a), cut) == Remove(h.free, a);
  }

  lemma UndoWhole(h: MemHeap, a: int, n: nat)
    requires Inv(h) && FreeAt(h.items, a) && a >= 0 && n <= SizeAt(h.items, a) < n + HDR + MIN
    ensures var r := FreeBlock(Occupy(h, a, n), a);
      r.items == h.items && r.available == h.available && r.free == [a] + Remove(h.free, a)
  {
    MarkedBack(h.items, a, 0, h.end);
    MarkSpec(h.items, a, true, 0, h.end);
    NextIsUsedOrFree(h.items, a, 0, h.end);
  }

  /** Releasing what was just allocated restores the blocks and the counter; the free list has the
      same blocks, the released one first. */
  lemma FreeUndoesAlloc(h: MemHeap, n: nat)
    requires Inv(h) && n >= MIN && AllocWords(h, n).1 != NULL
    ensures var (h1, p) := AllocWords(h, n); var r := Free(h1, p);
      r.items == h.items && r.available == h.available && r.free == [p - HDR] + Remove(h.free, p - HDR)
  {
    var a := Find(h.items, h.free, n);
    SearchSpec(h, n);
    if n + HDR + MIN <= SizeAt(h.items, a) {
      SplitRejoined(h.items, a, n, 0, h.end);
      UndoSplit(h, a, n);
    } else {
      UndoWhole(h, a, n);
    }
  }

  // ----- runs

  datatype Op = DoAlloc(bytes: nat) | DoFree(p: int) | DoRealloc(p: int, bytes: nat)

  function Step(h: MemHeap, op: Op): MemHeap {
    match op
    case DoAlloc(bytes) => Alloc(h, bytes).0
    case DoFree(p) => Free(h, p)
    case DoRealloc(p, bytes) => Realloc(h, p, bytes).0
  }

  predicate Legal(h: MemHeap, op: Op) {
    match op
    case DoAlloc(bytes) => bytes < WRAP
    case DoFree(p) => LegalPointer(h, p)
    case DoRealloc(p, bytes) => LegalPointer(h, p) && bytes < WRAP
  }

  function Run(h: MemHeap, ops: seq<Op>): MemHeap
    decreases |ops|
  {
    if ops == [] then h else Run(Step(h, ops[0]), ops[1..])
  }

  predicate LegalRun(h: MemHeap, ops: seq<Op>)
    decreases |ops|
  {
    ops == [] || (Legal(h, ops[0]) && LegalRun(Step(h, ops[0]), ops[1..]))
  }

  predicate CheckedStep(h: MemHeap, op: Op) { op.DoRealloc? && LegalPointer(h, op.p) ==> Checked(h, op.p, op.bytes) }

  predicate CheckedRun(h: MemHeap, ops: seq<Op>)
    decreases |ops|
  {
    ops == [] || (CheckedStep(h, ops[0]) && CheckedRun(Step(h, ops[0]), ops[1..]))
  }

  ghost predicate InvThroughout(h: MemHeap, ops: seq<Op>)
    decreases |ops|
  {
    Inv(h) && (ops == [] || InvThroughout(Step(h, ops[0]), ops[1..]))
  }

  lemma StepInv(h: MemHeap, op: Op)
    requires Inv(h) && Legal(h, op)
    ensures Inv(Step(h, op)) <==> CheckedStep(h, op)
  {
    match op
    case DoAlloc(bytes) => AllocInv(h, Request(bytes));
    case DoFree(p) => if p != NULL { Behind(h.items, 0, h.end); FreeInv(h, p - HDR); }
    case DoRealloc(p, bytes) => ReallocExactly(h, p, bytes);
  }

  /** Over a run the two lists agree, the blocks tile the pool without free neighbours, the counter is the
      sum of the free sizes and the high-water mark covers it, in every state exactly if no growth test
      wraps in front of a free block. */
  lemma {:induction false} RunInv(h: MemHeap, ops: seq<Op>)
    requires Inv(h) && LegalRun(h, ops)
    ensures InvThroughout(h, ops) <==> CheckedRun(h, ops)
    ensures CheckedRun(h, ops) ==> Inv(Run(h, ops))
    decreases |ops|
  {
    if ops != [] {
      StepInv(h, ops[0]);
      if CheckedStep(h, ops[0]) { RunInv(Step(h, ops[0]), ops[1..]); }
    }
  }

  lemma InitInv(words: nat)
    requires words >= 2 * HDR + MIN && 4 * words <= WRAP
    ensures Inv(Init(words))
  {
  }
}
