/** mem.c on the heap itself: headers and payloads share one array of words. */
module SmallHeaps {
  import opened Arithmetic
  import opened HeapSpec
  import opened HeapTheorems

  const HEAP_MAGIC: int := 0x1ea0
  const USED_FLAG: int := 0x1_0000   // the `used` half-word above the magic

  function Tag(used: bool): int { if used then HEAP_MAGIC + USED_FLAG else HEAP_MAGIC }

  // ----- the block list in memory

  /** The three header words of every block; `p` is the block in front. */
  predicate Represents(heap: seq<int>, bs: Blocks, p: int) {
    bs.Cons? ==>
      && bs.first.at + HDR <= |heap|
      && heap[bs.first.at] == Tag(bs.first.used)
      && heap[bs.first.at + 1] == bs.first.next
      && heap[bs.first.at + 2] == p
      && Represents(heap, bs.rest, bs.first.at)
  }

  function Append(xs: Blocks, ys: Blocks): Blocks {
    if xs.Nil? then ys else Cons(xs.first, Append(xs.rest, ys))
  }

  function LastAt(xs: Blocks, p: int): int { if xs.Nil? then p else LastAt(xs.rest, xs.first.at) }

  lemma {:induction false} RepresentsAppend(heap: seq<int>, xs: Blocks, ys: Blocks, p: int)
    ensures Represents(heap, Append(xs, ys), p) <==> Represents(heap, xs, p) && Represents(heap, ys, LastAt(xs, p))
  {
    if xs.Cons? { RepresentsAppend(heap, xs.rest, ys, xs.first.at); }
  }

  lemma {:induction false} TilesAppend(xs: Blocks, ys: Blocks, lo: nat, mid: nat, hi: nat)
    requires Tiles(xs, lo, mid)
    ensures Tiles(ys, mid, hi) <==> Tiles(Append(xs, ys), lo, hi)
  {
    if xs.Cons? { TilesAppend(xs.rest, ys, xs.first.next, mid, hi); }
  }

  lemma {:induction false} LiveAppend(xs: Blocks, ys: Blocks)
    ensures forall i :: Live(Append(xs, ys), i) <==> Live(xs, i) || Live(ys, i)
  {
    if xs.Cons? { LiveAppend(xs.rest, ys); }
  }

  lemma {:induction false} UsedSizeAppend(xs: Blocks, ys: Blocks)
    ensures UsedSize(Append(xs, ys)) == UsedSize(xs) + UsedSize(ys)
  {
    if xs.Cons? { UsedSizeAppend(xs.rest, ys); }
  }

  /** The blocks in front of offset `a`, and those from `a` on. */
  function Before(bs: Blocks, a: int): Blocks {
    if bs.Nil? || bs.first.at >= a then Nil else Cons(bs.first, Before(bs.rest, a))
  }

  function From(bs: Blocks, a: int): Blocks {
    if bs.Nil? || bs.first.at >= a then bs else From(bs.rest, a)
  }

  lemma {:induction false} SplitAt(bs: Blocks, a: nat, lo: nat, hi: nat)
    requires Tiles(bs, lo, hi) && (a == hi || UsedAt(bs, a) || FreeAt(bs, a))
    ensures Append(Before(bs, a), From(bs, a)) == bs
    ensures Tiles(Before(bs, a), lo, a) && Tiles(From(bs, a), a, hi)
  {
    if bs.Cons? && bs.first.at != a {
      TilesUp(bs.rest, bs.first.next, hi);
      SplitAt(bs.rest, a, bs.first.next, hi);
      if a != hi { FreeAtRange(bs.rest, a, bs.first.next, hi); }
    }
  }

  /** Memory outside the blocks does not matter to them. */
  lemma {:induction false} RepresentsFrame(heap: seq<int>, heap': seq<int>, bs: Blocks, p: int, lo: nat, hi: nat)
    requires Tiles(bs, lo, hi) && Represents(heap, bs, p)
    requires hi <= |heap| == |heap'| && forall i :: lo <= i < hi ==> heap'[i] == heap[i]
    ensures Represents(heap', bs, p)
  {
    if bs.Cons? {
      TilesUp(bs.rest, bs.first.next, hi);
      RepresentsFrame(heap, heap', bs.rest, bs.first.at, bs.first.next, hi);
    }
  }

  /** Redirecting the back link of the first block. */
  lemma RepresentsBack(heap: seq<int>, heap': seq<int>, bs: Blocks, p: int, p': int, lo: nat, hi: nat)
    requires Tiles(bs, lo, hi) && Represents(heap, bs, p)
    requires hi <= |heap| == |heap'| && forall i :: lo <= i < hi && i != lo + 2 ==> heap'[i] == heap[i]
    requires bs.Cons? ==> lo + 2 < |heap'| && heap'[lo + 2] == p'
    ensures Represents(heap', bs, p')
  {
    if bs.Cons? {
      TilesUp(bs.rest, bs.first.next, hi);
      RepresentsFrame(heap, heap', bs.rest, bs.first.at, bs.first.next, hi);
    }
  }

  // ----- the abstract operations past the blocks the loops skip

  lemma {:induction false} FindFitAppend(xs: Blocks, ys: Blocks, from: nat, n: nat, end: nat)
    ensures FindFit(xs, from, n, end) == NULL ==> FindFit(Append(xs, ys), from, n, end) == FindFit(ys, from, n, end)
  {
    if xs.Cons? { FindFitAppend(xs.rest, ys, from, n, end); }
  }

  lemma {:induction false} FindFitTooLate(ys: Blocks, from: nat, n: nat, lo: nat, end: nat)
    requires Tiles(ys, lo, end) && lo + HDR + n >= end
    ensures FindFit(ys, from, n, end) == NULL
  {
    if ys.Cons? { FindFitTooLate(ys.rest, from, n, ys.first.next, end); }
  }

  lemma {:induction false} CarveAppend(xs: Blocks, ys: Blocks, n: nat, lo: nat, a: nat)
    requires Tiles(xs, lo, a)
    ensures Carve(Append(xs, ys), a, n) == Append(xs, Carve(ys, a, n))
  {
    if xs.Cons? {
      TilesUp(xs.rest, xs.first.next, a);
      CarveAppend(xs.rest, ys, n, xs.first.next, a);
    }
  }

  lemma {:induction false} NextFreeAppend(xs: Blocks, ys: Blocks, from: nat, end: nat, lo: nat, a: nat)
    requires Tiles(xs, lo, a) && a <= from
    ensures NextFree(Append(xs, ys), from, end) == NextFree(ys, from, end)
  {
    if xs.Cons? {
      TilesUp(xs.rest, xs.first.next, a);
      NextFreeAppend(xs.rest, ys, from, end, xs.first.next, a);
    }
  }

  lemma {:induction false} FindFitEarlier(xs: Blocks, from: nat, n: nat, end: nat, lo: nat, a: nat)
    requires Tiles(xs, lo, a) && a <= from
    ensures FindFit(xs, from, n, end) == NULL
  {
    if xs.Cons? {
      TilesUp(xs.rest, xs.first.next, a);
      FindFitEarlier(xs.rest, from, n, end, xs.first.next, a);
    }
  }

  /** A block that was looked at and passed over. */
  lemma {:induction false} FindFitPass(xs: Blocks, b: Block, from: nat, n: nat, end: nat)
    requires FindFit(xs, from, n, end) == NULL && (b.used || b.Payload() < n)
    ensures FindFit(Append(xs, Cons(b, Nil)), from, n, end) == NULL
  {
    if xs.Cons? { FindFitPass(xs.rest, b, from, n, end); }
  }

  lemma {:induction false} AppendAssoc(xs: Blocks, b: Block, ys: Blocks)
    ensures Append(Append(xs, Cons(b, Nil)), ys) == Append(xs, Cons(b, ys))
  {
    if xs.Cons? { AppendAssoc(xs.rest, b, ys); }
  }

  function LastBlock(xs: Blocks): Block
    requires xs.Cons?
  {
    if xs.rest.Nil? then xs.first else LastBlock(xs.rest)
  }

  function AllButLast(xs: Blocks): Blocks
    requires xs.Cons?
  {
    if xs.rest.Nil? then Nil else Cons(xs.first, AllButLast(xs.rest))
  }

  lemma {:induction false} SplitLast(xs: Blocks, p: int, lo: nat, a: nat)
    requires xs.Cons? && Tiles(xs, lo, a)
    ensures Append(AllButLast(xs), Cons(LastBlock(xs), Nil)) == xs
    ensures LastAt(xs, p) == LastBlock(xs).at
    ensures Tiles(AllButLast(xs), lo, LastBlock(xs).at)
    ensures LastBlock(xs).next == a && LastBlock(xs).at + HDR < a
  {
    if xs.rest.Cons? { SplitLast(xs.rest, xs.first.at, xs.first.next, a); }
  }

  /** plug_holes seen from the block in front of the freed one. */
  lemma {:induction false} PlugBehind(ws: Blocks, w: Block, ys: Blocks, lo: nat, a: nat)
    requires Tiles(ws, lo, w.at) && w.at < a && ys.Cons? && ys.first.at == a
    ensures Plug(Append(ws, Cons(w, ys)), a) ==
              Append(ws, if w.used then Cons(w, Plug(ys, a)) else Cons(w.(next := Plug(ys, a).first.next), Plug(ys, a).rest))
    ensures MergedAt(Append(ws, Cons(w, ys)), a) == if w.used then a else w.at
  {
    if ws.Cons? {
      TilesUp(ws.rest, ws.first.next, w.at);
      PlugBehind(ws.rest, w, ys, ws.first.next, a);
    }
  }

  // ----- one header edit at a time

  /** Headers in memory match the block list; heap_end is in use and leads to itself.
      Its back link is not kept up to date and is not part of the shape. */
  ghost predicate Shape(heap: seq<int>, bs: Blocks, end: nat) {
    && |heap| == end + HDR
    && Tiles(bs, 0, end) && bs.Cons?
    && Represents(heap, bs, 0)
    && heap[end] == Tag(true) && heap[end + 1] == end
  }

  /** No payload word of a block in use changed. */
  ghost predicate Keeps(was: seq<int>, now: seq<int>, bs: Blocks) {
    |now| == |was| && forall i :: 0 <= i < |was| && Live(bs, i) ==> now[i] == was[i]
  }

  /** A loop position: `xs` passed, `ptr` the first of `ys`. */
  ghost predicate At(heap: seq<int>, end: nat, xs: Blocks, ptr: nat, ys: Blocks) {
    Shape(heap, Append(xs, ys), end) && Tiles(xs, 0, ptr) && Tiles(ys, ptr, end)
  }

  /** What is in memory at a loop position. */
  lemma AtFacts(heap: seq<int>, end: nat, xs: Blocks, ptr: nat, ys: Blocks)
    requires At(heap, end, xs, ptr, ys) && ys.Cons?
    ensures Represents(heap, xs, 0) && Represents(heap, ys, LastAt(xs, 0))
    ensures ptr + HDR < ys.first.next <= end && heap[ptr] == Tag(ys.first.used) && heap[ptr + 1] == ys.first.next
    ensures if ys.rest.Nil? then ys.first.next == end else ys.first.next + HDR < end
  {
    RepresentsAppend(heap, xs, ys, 0);
    TilesUp(ys.rest, ys.first.next, end);
    if ys.rest.Cons? { TilesUp(ys.rest.rest, ys.rest.first.next, end); }
  }

  /** Words of the block at `ptr` and of the header behind it are not payload of others. */
  lemma KeepsAround(was: seq<int>, now: seq<int>, end: nat, xs: Blocks, ptr: nat, ys: Blocks)
    requires At(was, end, xs, ptr, ys) && ys.Cons? && !ys.first.used && |now| == |was|
    requires forall i :: 0 <= i < |was| && (i < ptr || ys.first.next + HDR <= i) ==> now[i] == was[i]
    ensures Keeps(was, now, Append(xs, ys))
  {
    assert forall i :: Live(ys, i) <==> Live(ys.rest, i);
    TilesUp(ys.rest, ys.first.next, end);
    LiveRange(xs, 0, ptr);
    LiveRange(ys.rest, ys.first.next, end);
    LiveAppend(xs, ys);
  }

  /** The block at `ptr` is replaced by one or two blocks over the same words; memory changed
      nowhere but in their headers and in the back link of the block that follows. */
  lemma Rebuild(was: seq<int>, now: seq<int>, end: nat, xs: Blocks, ptr: nat, ys: Blocks, new1: Blocks, next: nat, rest: Blocks)
    requires At(was, end, xs, ptr, ys) && ys.Cons?
    requires Tiles(new1, ptr, next) && new1.Cons? && Tiles(rest, next, end) && next <= end
    requires exists p :: Represents(was, rest, p)
    requires |now| == |was| && Represents(now, new1, LastAt(xs, 0))
    requires forall i :: 0 <= i < ptr || (next <= i < end && i != next + 2) ==> now[i] == was[i]
    requires now[end] == was[end] && now[end + 1] == was[end + 1]
    requires next < end ==> now[next + 2] == LastAt(new1, 0)
    ensures Shape(now, Append(xs, Append(new1, rest)), end)
  {
    RepresentsAppend(was, xs, ys, 0);
    RepresentsFrame(was, now, xs, 0, 0, ptr);
    var p :| Represents(was, rest, p);
    LastAtIgnores(new1, 0, LastAt(xs, 0));
    RepresentsBack(was, now, rest, p, LastAt(new1, 0), next, end);
    RepresentsAppend(now, new1, rest, LastAt(xs, 0));
    RepresentsAppend(now, xs, Append(new1, rest), 0);
    TilesAppend(new1, rest, ptr, next, end);
    TilesAppend(xs, Append(new1, rest), 0, ptr, end);
  }

  lemma LastAtIgnores(xs: Blocks, p: int, q: int)
    requires xs.Cons?
    ensures LastAt(xs, p) == LastAt(xs, q)
  {
  }

  /** A block cut in two: in use up to `cut`, free from there. */
  ghost function TwoBlocks(ys: Blocks, cut: nat, n: nat): (two: Blocks)
    requires ys.Cons? && cut == ys.first.at + HDR + n && n > 0 && ys.first.Payload() >= n + HDR + MIN
    ensures two == Cons(Block(ys.first.at, cut, true), Cons(Block(cut, ys.first.next, false), Nil))
    ensures Tiles(two, ys.first.at, ys.first.next) && LastAt(two, 0) == cut
    ensures Append(two, ys.rest) == Carve(ys, ys.first.at, n)
  {
    var upper := Cons(Block(cut, ys.first.next, false), Nil);
    assert LastAt(upper, 0) == LastAt(Nil, cut) && LastAt(upper, ys.first.at) == LastAt(Nil, cut);
    assert Tiles(upper, cut, ys.first.next);
    assert Append(upper, ys.rest) == Carve(ys, ys.first.at, n).rest;
    Cons(Block(ys.first.at, cut, true), upper)
  }

  /** plug_holes is the forward half, then the backward half. */
  lemma PlugParts(xs: Blocks, ys: Blocks, lo: nat, a: nat)
    requires Tiles(xs, lo, a) && ys.Cons? && ys.first.at == a
    ensures Plug(ys, a).Cons? && Plug(ys, a).first.used == ys.first.used
    ensures Plug(Append(xs, ys), a) ==
              if xs.Cons? && !LastBlock(xs).used
              then Append(AllButLast(xs), Merged(Cons(LastBlock(xs), Plug(ys, a))))
              else Append(xs, Plug(ys, a))
    ensures MergedAt(Append(xs, ys), a) == if xs.Cons? && !LastBlock(xs).used then LastBlock(xs).at else a
  {
    if xs.Cons? {
      SplitLast(xs, 0, lo, a);
      PlugBehind(AllButLast(xs), LastBlock(xs), ys, lo, a);
      AppendAssoc(AllButLast(xs), LastBlock(xs), ys);
      AppendAssoc(AllButLast(xs), LastBlock(xs), Plug(ys, a));
    }
  }

  lemma PlugLive(xs: Blocks, ys: Blocks, a: nat)
    requires ys.Cons? && ys.first.at == a && !ys.first.used
    ensures forall i :: Live(Append(xs, Plug(ys, a)), i) <==> Live(Append(xs, ys), i)
  {
    LiveAppend(xs, ys);
    LiveAppend(xs, Plug(ys, a));
    assert forall i :: Live(ys, i) <==> Live(ys.rest, i);
    assert forall i :: Live(Plug(ys, a), i) <==> Live(ys, i);
  }

  /** The first two blocks as one. */
  function Merged(ys: Blocks): Blocks
    requires ys.Cons? && ys.rest.Cons?
  {
    Cons(ys.first.(next := ys.rest.first.next), ys.rest.rest)
  }

  lemma KeepsMerged(was: seq<int>, now: seq<int>, end: nat, xs: Blocks, ptr: nat, ys: Blocks)
    requires At(was, end, xs, ptr, ys) && ys.Cons? && ys.rest.Cons? && !ys.first.used && !ys.rest.first.used && |now| == |was|
    requires forall i :: 0 <= i < |was| && (i < ptr || ys.rest.first.next + HDR <= i) ==> now[i] == was[i]
    ensures Keeps(was, now, Append(xs, ys))
  {
    var rest := ys.rest.rest;
    assert Tiles(ys.rest, ys.first.next, end);
    assert forall i :: Live(ys, i) <==> Live(ys.rest, i);
    assert forall i :: Live(ys.rest, i) <==> Live(rest, i);
    LiveRange(xs, 0, ptr);
    LiveRange(rest, ys.rest.first.next, end);
    LiveAppend(xs, ys);
  }

  lemma CarveSize(xs: Blocks, ys: Blocks, n: nat)
    requires ys.Cons? && !ys.first.used
    ensures UsedSize(Append(xs, Carve(ys, ys.first.at, n))) == UsedSize(Append(xs, ys)) +
              (if ys.first.Payload() >= n + HDR + MIN then n + HDR else ys.first.next - ys.first.at)
  {
    UsedSizeAppend(xs, ys);
    UsedSizeAppend(xs, Carve(ys, ys.first.at, n));
  }

  lemma {:induction false} CarveUses(xs: Blocks, ys: Blocks, n: nat, lo: nat, a: nat)
    requires Tiles(xs, lo, a) && ys.Cons? && ys.first.at == a
    ensures UsedAt(Append(xs, Carve(ys, a, n)), a)
  {
    if xs.Cons? {
      TilesUp(xs.rest, xs.first.next, a);
      CarveUses(xs.rest, ys, n, xs.first.next, a);
    }
  }

  function IsUsed(word: int): bool { word / USED_FLAG != 0 }

  lemma AtNext(heap: seq<int>, end: nat, xs: Blocks, ptr: nat, ys: Blocks)
    requires At(heap, end, xs, ptr, ys) && ys.Cons?
    ensures At(heap, end, Append(xs, Cons(ys.first, Nil)), ys.first.next, ys.rest)
    ensures Append(Append(xs, Cons(ys.first, Nil)), ys.rest) == Append(xs, ys)
  {
    AppendAssoc(xs, ys.first, ys.rest);
    TilesAppend(xs, Cons(ys.first, Nil), 0, ptr, ys.first.next);
  }

  // ----- release and reallocation, seen from the block they touch

  lemma {:induction false} MarkFreeAppend(xs: Blocks, ys: Blocks, lo: nat, a: nat)
    requires Tiles(xs, lo, a)
    ensures MarkFree(Append(xs, ys), a) == Append(xs, MarkFree(ys, a))
  {
    if xs.Cons? {
      TilesUp(xs.rest, xs.first.next, a);
      MarkFreeAppend(xs.rest, ys, xs.first.next, a);
    }
  }

  lemma {:induction false} CutAppend(xs: Blocks, ys: Blocks, n: nat, lo: nat, a: nat)
    requires Tiles(xs, lo, a)
    ensures Cut(Append(xs, ys), a, n) == Append(xs, Cut(ys, a, n))
  {
    if xs.Cons? {
      TilesUp(xs.rest, xs.first.next, a);
      CutAppend(xs.rest, ys, n, xs.first.next, a);
    }
  }

  lemma {:induction false} PayloadAppend(xs: Blocks, ys: Blocks, lo: nat, a: nat)
    requires Tiles(xs, lo, a) && ys.Cons? && ys.first.at == a
    ensures PayloadAt(Append(xs, ys), a) == ys.first.Payload()
    ensures UsedAt(Append(xs, ys), a) <==> ys.first.used
    ensures FreeAt(Append(xs, ys), a) <==> !ys.first.used
  {
    if xs.Cons? {
      TilesUp(xs.rest, xs.first.next, a);
      PayloadAppend(xs.rest, ys, xs.first.next, a);
    }
  }

  /** Header words are never payload. */
  lemma {:induction false} HeaderNotLive(bs: Blocks, a: nat, lo: nat, hi: nat)
    requires Tiles(bs, lo, hi) && (a == hi || UsedAt(bs, a) || FreeAt(bs, a))
    ensures !Live(bs, a) && !Live(bs, a + 1) && !Live(bs, a + 2)
  {
    if bs.Cons? {
      TilesUp(bs.rest, bs.first.next, hi);
      LiveRange(bs.rest, bs.first.next, hi);
      if bs.first.at != a {
        if a != hi { FreeAtRange(bs.rest, a, bs.first.next, hi); }
        HeaderNotLive(bs.rest, a, bs.first.next, hi);
      }
    }
  }

  /** The first two words of a block in use may be cut off from the rest of it. */
  ghost function CutBlocks(ys: Blocks, cut: nat, n: nat): (two: Blocks)
    requires ys.Cons? && ys.first.used && cut == ys.first.at + HDR + n && n > 0 && ys.first.Payload() > n + HDR
    ensures two == Cons(Block(ys.first.at, cut, true), Cons(Block(cut, ys.first.next, false), Nil))
    ensures Tiles(two, ys.first.at, ys.first.next) && LastAt(two, 0) == cut
    ensures Append(two, ys.rest) == Cut(ys, ys.first.at, n)
  {
    var upper := Cons(Block(cut, ys.first.next, false), Nil);
    assert LastAt(upper, 0) == LastAt(Nil, cut) && LastAt(upper, ys.first.at) == LastAt(Nil, cut);
    assert Tiles(upper, cut, ys.first.next);
    assert Append(upper, ys.rest) == Cut(ys, ys.first.at, n).rest;
    Cons(Block(ys.first.at, cut, true), upper)
  }

  /** The header words that cutting a block writes are not payload afterwards. */
  lemma KeepsCut(was: seq<int>, now: seq<int>, end: nat, xs: Blocks, mem: nat, ys: Blocks, n: nat)
    requires Tiles(xs, 0, mem) && Tiles(ys, mem, end) && ys.Cons? && ys.first.used
    requires 0 < n && ys.first.Payload() > n + HDR && |now| == |was|
    requires var cut, next := mem + HDR + n, ys.first.next;
      forall i :: 0 <= i < |was| && i != mem + 1 && !(cut <= i < cut + HDR) && i != next + 2 ==> now[i] == was[i]
    ensures Keeps(was, now, Append(xs, Cut(ys, mem, n)))
  {
    TilesUp(ys.rest, ys.first.next, end);
    LiveRange(xs, 0, mem);
    LiveRange(ys.rest, ys.first.next, end);
    var cut, upper := mem + HDR + n, Cut(ys, mem, n).rest;
    assert forall i :: Live(upper, i) <==> Live(ys.rest, i);
    assert forall i :: Live(Cut(ys, mem, n), i) <==> mem + HDR <= i < cut || Live(ys.rest, i);
    LiveAppend(xs, Cut(ys, mem, n));
  }

  /** Writing payload leaves every header alone. */
  lemma {:induction false} RepresentsPayload(heap: seq<int>, heap': seq<int>, bs: Blocks, p: int, lo: nat, hi: nat)
    requires Tiles(bs, lo, hi) && Represents(heap, bs, p) && hi <= |heap| == |heap'|
    requires forall i :: lo <= i < hi && !Live(bs, i) ==> heap'[i] == heap[i]
    ensures Represents(heap', bs, p)
  {
    if bs.Cons? {
      TilesUp(bs.rest, bs.first.next, hi);
      LiveRange(bs.rest, bs.first.next, hi);
      var at := bs.first.at;
      assert !Live(bs, at) && !Live(bs, at + 1) && !Live(bs, at + 2);
      RepresentsPayload(heap, heap', bs.rest, bs.first.at, bs.first.next, hi);
    }
  }

  /** Word `i` is payload of the block in use at `b`. */
  predicate Within(bs: Blocks, b: int, i: int) {
    UsedAt(bs, b) && b + HDR <= i < b + HDR + PayloadAt(bs, b)
  }

  lemma {:induction false} WithinLive(bs: Blocks, b: int, i: int, lo: nat, hi: nat)
    requires Tiles(bs, lo, hi) && Within(bs, b, i)
    ensures Live(bs, i) && lo <= i < hi
  {
    TilesUp(bs.rest, bs.first.next, hi);
    if bs.first.at != b { WithinLive(bs.rest, b, i, bs.first.next, hi); }
  }

  lemma {:induction false} WithinOne(bs: Blocks, b: int, c: int, i: int, lo: nat, hi: nat)
    requires Tiles(bs, lo, hi) && Within(bs, b, i) && Within(bs, c, i)
    ensures b == c
  {
    if bs.first.at != b && bs.first.at != c {
      WithinOne(bs.rest, b, c, i, bs.first.next, hi);
    } else if bs.first.at != b {
      WithinLive(bs.rest, b, i, bs.first.next, hi);
    } else if bs.first.at != c {
      WithinLive(bs.rest, c, i, bs.first.next, hi);
    }
  }

  function Min(a: int, b: int): int { if a < b then a else b }

  /** The first words of the old payload are those of the new one. */
  ghost predicate Copied(was: seq<int>, now: seq<int>, p: int, q: int, count: int) {
    && (count > 0 ==> 0 <= p && p + count <= |was| && 0 <= q && q + count <= |now|)
    && forall i :: p <= i < p + count ==> now[i - p + q] == was[i]
  }

  /** No payload changed but that of the blocks at `b` and `c`. */
  ghost predicate KeepsOthers(was: seq<int>, now: seq<int>, bs: Blocks, b: int, c: int) {
    |now| == |was| && forall a, i :: Within(bs, a, i) && a != b && a != c ==> 0 <= i < |was| && now[i] == was[i]
  }

  lemma KeepsUsed(was: seq<int>, now: seq<int>, bs: Blocks, end: nat)
    requires Keeps(was, now, bs) && Tiles(bs, 0, end) && end <= |was|
    ensures forall a, i :: Within(bs, a, i) ==> 0 <= i < |was| && now[i] == was[i]
  {
    forall a, i | Within(bs, a, i) ensures Live(bs, i) && 0 <= i < end { WithinLive(bs, a, i, 0, end); }
  }

  lemma {:induction false} NoPayloadInFront(bs: Blocks, a: int, lo: nat, hi: nat)
    requires Tiles(bs, lo, hi) && a < lo
    ensures PayloadAt(bs, a) == 0 && !UsedAt(bs, a)
  {
    if bs.Cons? { NoPayloadInFront(bs.rest, a, bs.first.next, hi); }
  }

  /** Allocation, copy and release together. */
  lemma MoveFrame(was: seq<int>, mid: seq<int>, now: seq<int>, bs: Blocks, bs': Blocks, p: int, q: int, count: int)
    requires |mid| == |was| && forall a, i :: Within(bs, a, i) ==> 0 <= i < |was| && mid[i] == was[i]
    requires forall a :: UsedAt(bs, a) ==> UsedAt(bs', a) && PayloadAt(bs', a) == PayloadAt(bs, a)
    requires FreeAt(bs, q - HDR) && UsedAt(bs, p - HDR) && count <= PayloadAt(bs, p - HDR)
    requires KeepsOthers(mid, now, bs', p - HDR, q - HDR) && Copied(mid, now, p, q, count)
    ensures KeepsOthers(was, now, bs, p - HDR, p - HDR) && Copied(was, now, p, q, count)
  {
    NotBoth(bs, q - HDR);
    forall a, i | Within(bs, a, i) && a != p - HDR ensures 0 <= i < |was| && now[i] == was[i] { assert Within(bs', a, i); }
    if count > 0 { assert Within(bs, p - HDR, p) && Within(bs, p - HDR, p + count - 1); }
    forall i | p <= i < p + count ensures now[i - p + q] == was[i] {
      assert Within(bs, p - HDR, i);
      assert mid[i] == was[i];
    }
  }

  /** Blocks in use before and after keep their payload if they are the same size. */
  lemma KeepsLive(was: seq<int>, now: seq<int>, bs: Blocks, b: int, bs': Blocks, end: nat)
    requires Keeps(was, now, bs') && Tiles(bs', 0, end) && end <= |was|
    requires forall a :: UsedAt(bs, a) && a != b ==> UsedAt(bs', a) && PayloadAt(bs', a) == PayloadAt(bs, a)
    ensures KeepsOthers(was, now, bs, b, b)
  {
    KeepsUsed(was, now, bs', end);
    assert forall a, i :: Within(bs, a, i) && a != b ==> Within(bs', a, i);
  }

  lemma KeepsHead(was: seq<int>, now: seq<int>, p: int, n: nat, bs: Blocks, end: nat)
    requires Keeps(was, now, bs) && Tiles(bs, 0, end) && end <= |was| && UsedAt(bs, p - HDR) && PayloadAt(bs, p - HDR) == n
    ensures Copied(was, now, p, p, n)
  {
    FreeAtRange(bs, p - HDR, 0, end);
    KeepsUsed(was, now, bs, end);
    forall i | p <= i < p + n ensures now[i] == was[i] { assert Within(bs, p - HDR, i); }
  }

  lemma NotShared(bs: Blocks, b: int, c: int, i: int, lo: nat, hi: nat)
    requires Tiles(bs, lo, hi) && Within(bs, c, i) && b != c && UsedAt(bs, b)
    ensures !Within(bs, b, i)
  {
    if Within(bs, b, i) { WithinOne(bs, b, c, i, lo, hi); }
  }

  /** What plug_holes on the remainder of a cut block makes of the heap. */
  lemma ShrinkPlan(h: Heap, mem: nat, n: nat, xs: Blocks, ys: Blocks)
    requires Inv(h) && h.blocks == Append(xs, ys) && Tiles(xs, 0, mem) && Tiles(ys, mem, h.end)
    requires ys.Cons? && ys.first.used && 0 < n && n + HDR + MIN < ys.first.Payload()
    ensures var cut, ptr2 := Append(xs, Cut(ys, mem, n)), mem + HDR + n;
      && Plug(cut, ptr2) == Shrink(h, mem, n).blocks && Inv(Shrink(h, mem, n))
      && Shrink(h, mem, n).used == h.used - (ys.first.Payload() - n)
      && (forall i :: Live(Plug(cut, ptr2), i) <==> Live(cut, i))
      && (var l := if ys.rest.Cons? && !ys.rest.first.used && h.lfree == ys.rest.first.at then ptr2 else h.lfree;
          Shrink(h, mem, n).lfree == if l == ptr2 then MergedAt(cut, ptr2) else l)
  {
    var ptr2 := mem + HDR + n;
    PayloadAppend(xs, ys, 0, mem);
    CutAppend(xs, ys, n, 0, mem);
    ShrinkInv(h, mem, n);
    CutSpec(h.blocks, mem, n, 0, h.end);
    PlugSpec(Cut(h.blocks, mem, n), ptr2, 0, h.end);
    TilesUp(ys.rest, ys.first.next, h.end);
    if ys.rest.Cons? { TilesUp(ys.rest.rest, ys.rest.first.next, h.end); }
    if h.lfree != h.end {
      Disjoint(h.blocks, mem, h.lfree, 0, h.end);
      if ys.rest.Cons? {
        AppendAssoc(xs, ys.first, ys.rest);
        TilesAppend(xs, Cons(ys.first, Nil), 0, mem, ys.first.next);
        PayloadAppend(Append(xs, Cons(ys.first, Nil)), ys.rest, 0, ys.first.next);
      }
    }
  }

  class SmallHeap {
    const heap: array<int>
    const memWords: nat      // mem_size_aligned
    var lfree: nat
    var usedMem: int
    var maxMem: int
    ghost var blocks: Blocks

    function End(): nat { memWords + HDR }

    ghost function State(): Heap
      reads this
    {
      Heap(End(), blocks, lfree, usedMem, maxMem)
    }

    ghost predicate Valid()
      reads this, heap
    {
      Shape(heap[..], blocks, End()) && Inv(State())
    }

    /** rt_system_heap_init; a heap too small for one block is not for use, and one without room for the
        headers is refused. */
    constructor (begin: nat, end: nat)
      requires end < WRAP && InitWords(begin, end) >= MIN
      ensures Valid() && State() == Init(InitWords(begin, end))
    {
      var beginAlign, endAlign := AlignWords(begin), end / 4;
      var words := endAlign - beginAlign - 2 * HDR;
      memWords := words;
      heap := new int[words + 2 * HDR](_ => 0);
      lfree, usedMem, maxMem := 0, 0, 0;
      blocks := Cons(Block(0, words + HDR, false), Nil);
      new;
      var last := words + HDR;
      heap[0], heap[1], heap[2] := Tag(false), last, 0;
      heap[last], heap[last + 1], heap[last + 2] := Tag(true), last, last;
    }

    /** A free block is headed at `ptr2` and linked in between `ptr` and what follows it. */
    method NewHeader(ptr: nat, ptr2: nat)
      requires heap.Length == End() + HDR && ptr + HDR <= ptr2 && ptr2 + HDR <= heap.Length
      requires ptr2 + HDR <= heap[ptr + 1] <= End()
      modifies heap
      ensures heap[ptr2] == Tag(false) && heap[ptr2 + 1] == old(heap[ptr + 1]) && heap[ptr2 + 2] == ptr && heap[ptr + 1] == ptr2
      ensures old(heap[ptr + 1]) != End() ==> heap[old(heap[ptr + 1]) + 2] == ptr2
      ensures var next := old(heap[ptr + 1]);
              forall i | 0 <= i < heap.Length && i != ptr + 1 && !(ptr2 <= i < ptr2 + HDR) && (i != next + 2 || next == End()) ::
                heap[i] == old(heap[i])
    {
      heap[ptr2] := Tag(false);
      heap[ptr2 + 1] := heap[ptr + 1];
      heap[ptr2 + 2] := ptr;
      heap[ptr + 1] := ptr2;
      if heap[ptr2 + 1] != End() {
        heap[heap[ptr2 + 1] + 2] := ptr2;
      }
    }

    /** Block `ptr` is cut after n words and put in use; the rest gets a header of its own. */
    method Split(ptr: nat, n: nat, ghost xs: Blocks, ghost ys: Blocks)
      requires At(heap[..], End(), xs, ptr, ys) && ys.Cons? && !ys.first.used
      requires n > 0 && ys.first.Payload() >= n + HDR + MIN
      modifies heap
      ensures Shape(heap[..], Append(xs, Carve(ys, ptr, n)), End())
      ensures Keeps(old(heap[..]), heap[..], Append(xs, ys))
    {
      ghost var was, rest, next := heap[..], ys.rest, ys.first.next;
      AtFacts(was, End(), xs, ptr, ys);
      var ptr2 := ptr + HDR + n;
      NewHeader(ptr, ptr2);
      heap[ptr] := Tag(true);
      ghost var two := TwoBlocks(ys, ptr2, n);
      Rebuild(was, heap[..], End(), xs, ptr, ys, two, next, rest);
      KeepsAround(was, heap[..], End(), xs, ptr, ys);
    }

    /** The whole block `ptr` is put in use. */
    method UseWhole(ptr: nat, n: nat, ghost xs: Blocks, ghost ys: Blocks)
      requires At(heap[..], End(), xs, ptr, ys) && ys.Cons? && !ys.first.used
      requires ys.first.Payload() < n + HDR + MIN
      modifies heap
      ensures ptr + 1 < heap.Length && heap[ptr + 1] == old(heap[ptr + 1])
      ensures Shape(heap[..], Append(xs, Carve(ys, ptr, n)), End())
      ensures Keeps(old(heap[..]), heap[..], Append(xs, ys))
    {
      ghost var was := heap[..];
      AtFacts(was, End(), xs, ptr, ys);
      heap[ptr] := Tag(true);
      ghost var one := Cons(ys.first.(used := true), Nil);
      assert Append(one, ys.rest) == Carve(ys, ptr, n);
      Rebuild(was, heap[..], End(), xs, ptr, ys, one, ys.first.next, ys.rest);
      KeepsAround(was, heap[..], End(), xs, ptr, ys);
    }

    /** The lowest-free pointer moves up to the next free block, or to heap_end. */
    method AdvanceLfree()
      requires Shape(heap[..], blocks, End()) && (lfree == End() || UsedAt(blocks, lfree) || FreeAt(blocks, lfree))
      modifies `lfree
      ensures lfree == NextFree(blocks, old(lfree), End())
    {
      SplitAt(blocks, lfree, 0, End());
      TilesUp(From(blocks, lfree), lfree, End());
      ghost var start := lfree;
      ghost var xs, ys := Before(blocks, lfree), From(blocks, lfree);
      NextFreeAppend(xs, ys, start, End(), 0, start);
      while IsUsed(heap[lfree]) && lfree != End()
        invariant Append(xs, ys) == blocks && At(heap[..], End(), xs, lfree, ys) && start <= lfree <= End()
        invariant NextFree(blocks, start, End()) == NextFree(ys, start, End())
        decreases ys
      {
        AtFacts(heap[..], End(), xs, lfree, ys);
        AtNext(heap[..], End(), xs, lfree, ys);
        lfree := heap[lfree + 1];
        xs, ys := Append(xs, Cons(ys.first, Nil)), ys.rest;
      }
      if ys.Cons? { AtFacts(heap[..], End(), xs, lfree, ys); }
    }

    /** The block found is put in use, cut if it is long enough, and counted. */
    method Occupy(ptr: nat, n: nat, ghost xs: Blocks, ghost ys: Blocks)
      requires At(heap[..], End(), xs, ptr, ys) && blocks == Append(xs, ys) && ys.Cons? && !ys.first.used
      requires 0 < n && ys.first.Payload() >= n && usedMem == UsedSize(blocks)
      modifies this, heap
      ensures Shape(heap[..], blocks, End()) && blocks == Carve(old(blocks), ptr, n)
      ensures usedMem == UsedSize(blocks) && maxMem == if old(maxMem) < usedMem then usedMem else old(maxMem)
      ensures lfree == if ptr == old(lfree) then NextFree(blocks, ptr, End()) else old(lfree)
      ensures Keeps(old(heap[..]), heap[..], old(blocks))
    {
      AtFacts(heap[..], End(), xs, ptr, ys);
      CarveAppend(xs, ys, n, 0, ptr);
      CarveSize(xs, ys, n);
      if heap[ptr + 1] - (ptr + HDR) >= n + HDR + MIN {
        Split(ptr, n, xs, ys);
        usedMem := usedMem + (n + HDR);
      } else {
        UseWhole(ptr, n, xs, ys);
        usedMem := usedMem + (heap[ptr + 1] - ptr);
      }
      blocks := Append(xs, Carve(ys, ptr, n));
      if maxMem < usedMem { maxMem := usedMem; }
      if ptr == lfree {
        CarveUses(xs, ys, n, 0, ptr);
        AdvanceLfree();
      }
    }

    method AllocWords(n: nat) returns (p: int)
      requires Valid() && MIN <= n && n <= memWords
      modifies this, heap
      ensures Valid() && (State(), p) == old(MallocWords(State(), n))
      ensures Keeps(old(heap[..]), heap[..], old(blocks))
    {
      MallocWordsInv(State(), n);
      SplitAt(blocks, lfree, 0, End());
      var ptr := lfree;
      ghost var xs, ys := Before(blocks, lfree), From(blocks, lfree);
      FindFitEarlier(xs, lfree, n, End(), 0, lfree);
      while ptr < memWords - n
        invariant unchanged(this) && unchanged(heap) && lfree <= ptr
        invariant blocks == Append(xs, ys) && At(heap[..], End(), xs, ptr, ys)
        invariant FindFit(xs, lfree, n, End()) == NULL
        decreases ys
      {
        FindFitAppend(xs, ys, lfree, n, End());
        AtFacts(heap[..], End(), xs, ptr, ys);
        if !IsUsed(heap[ptr]) && heap[ptr + 1] - (ptr + HDR) >= n {
          Occupy(ptr, n, xs, ys);
          return ptr + HDR;
        }
        FindFitPass(xs, ys.first, lfree, n, End());
        AtNext(heap[..], End(), xs, ptr, ys);
        ptr := heap[ptr + 1];
        xs, ys := Append(xs, Cons(ys.first, Nil)), ys.rest;
      }
      FindFitAppend(xs, ys, lfree, n, End());
      FindFitTooLate(ys, lfree, n, ptr, End());
      return NULL;
    }

    /** rt_malloc */
    method Allocate(bytes: nat) returns (p: int)
      requires Valid() && bytes < WRAP
      modifies this, heap
      ensures Valid() && (State(), p) == old(Malloc(State(), bytes))
      ensures Keeps(old(heap[..]), heap[..], old(blocks))
    {
      if bytes == 0 { return NULL; }
      var n := AlignWords(bytes);
      if n > memWords { return NULL; }
      if n < MIN { n := MIN; }
      p := AllocWords(n);
    }

    /** The free block `p` absorbs its free successor `q`: the step both halves of plug_holes make. */
    method Merge(p: nat, q: nat, ghost xs: Blocks, ghost ys: Blocks)
      requires At(heap[..], End(), xs, p, ys) && ys.Cons? && ys.rest.Cons? && q == ys.rest.first.at
      requires !ys.first.used && !ys.rest.first.used
      modifies heap
      ensures At(heap[..], End(), xs, p, Merged(ys))
      ensures Keeps(old(heap[..]), heap[..], Append(xs, ys))
    {
      ghost var was := heap[..];
      AtFacts(was, End(), xs, p, ys);
      AtNext(was, End(), xs, p, ys);
      AtFacts(was, End(), Append(xs, Cons(ys.first, Nil)), q, ys.rest);
      heap[p + 1] := heap[q + 1];
      heap[heap[q + 1] + 2] := p;
      ghost var one := Cons(Merged(ys).first, Nil);
      assert Append(one, ys.rest.rest) == Merged(ys);
      Rebuild(was, heap[..], End(), xs, p, ys, one, ys.rest.first.next, ys.rest.rest);
      KeepsMerged(was, heap[..], End(), xs, p, ys);
    }

    /** The forward half of plug_holes. */
    method PlugForward(mem: nat, ghost xs: Blocks, ghost ys: Blocks)
      requires At(heap[..], End(), xs, mem, ys) && ys.Cons? && !ys.first.used
      modifies heap, `lfree
      ensures At(heap[..], End(), xs, mem, Plug(ys, mem))
      ensures lfree == if ys.rest.Cons? && !ys.rest.first.used && old(lfree) == ys.rest.first.at then mem else old(lfree)
      ensures Keeps(old(heap[..]), heap[..], Append(xs, ys))
    {
      AtFacts(heap[..], End(), xs, mem, ys);
      var nmem := heap[mem + 1];
      if ys.rest.Cons? {
        AtNext(heap[..], End(), xs, mem, ys);
        AtFacts(heap[..], End(), Append(xs, Cons(ys.first, Nil)), nmem, ys.rest);
      }
      if mem != nmem && !IsUsed(heap[nmem]) && nmem != End() {
        if lfree == nmem { lfree := mem; }
        Merge(mem, nmem, xs, ys);
      }
    }

    /** The backward half. */
    method PlugBackward(mem: nat, ghost xs: Blocks, ghost zs: Blocks)
      requires At(heap[..], End(), xs, mem, zs) && zs.Cons? && !zs.first.used
      modifies heap, `lfree
      ensures var merge := xs.Cons? && !LastBlock(xs).used;
        && Shape(heap[..], if merge then Append(AllButLast(xs), Merged(Cons(LastBlock(xs), zs))) else Append(xs, zs), End())
        && lfree == if merge && old(lfree) == mem then LastBlock(xs).at else old(lfree)
      ensures Keeps(old(heap[..]), heap[..], Append(xs, zs))
    {
      AtFacts(heap[..], End(), xs, mem, zs);
      if xs.Cons? {
        SplitLast(xs, 0, 0, mem);
        AppendAssoc(AllButLast(xs), LastBlock(xs), zs);
        AtFacts(heap[..], End(), AllButLast(xs), LastBlock(xs).at, Cons(LastBlock(xs), zs));
      }
      var pmem := heap[mem + 2];
      if pmem != mem && !IsUsed(heap[pmem]) {
        if lfree == mem { lfree := pmem; }
        Merge(pmem, mem, AllButLast(xs), Cons(LastBlock(xs), zs));
      }
    }

    /** plug_holes on the block `mem`, which is free already. */
    method PlugHoles(mem: nat, ghost xs: Blocks, ghost ys: Blocks)
      requires At(heap[..], End(), xs, mem, ys) && blocks == Append(xs, ys) && ys.Cons? && !ys.first.used
      modifies heap, `lfree, `blocks
      ensures Shape(heap[..], blocks, End()) && blocks == Plug(old(blocks), mem)
      ensures var l := if ys.rest.Cons? && !ys.rest.first.used && old(lfree) == ys.rest.first.at then mem else old(lfree);
              lfree == if l == mem then MergedAt(old(blocks), mem) else l
      ensures Keeps(old(heap[..]), heap[..], old(blocks))
    {
      PlugParts(xs, ys, 0, mem);
      PlugLive(xs, ys, mem);
      PlugForward(mem, xs, ys);
      PlugBackward(mem, xs, Plug(ys, mem));
      blocks := Plug(blocks, mem);
    }

    /** The block `mem` in use becomes free in place. */
    method Vacate(mem: nat, ghost xs: Blocks, ghost ys: Blocks)
      requires At(heap[..], End(), xs, mem, ys) && ys.Cons? && ys.first.used
      modifies heap
      ensures At(heap[..], End(), xs, mem, MarkFree(ys, mem))
      ensures mem + 1 < heap.Length && heap[mem + 1] == ys.first.next
      ensures Keeps(old(heap[..]), heap[..], Append(xs, MarkFree(ys, mem)))
    {
      ghost var was, marked := heap[..], MarkFree(ys, mem);
      AtFacts(was, End(), xs, mem, ys);
      heap[mem] := Tag(false);
      ghost var one := Cons(ys.first.(used := false), Nil);
      assert Append(one, ys.rest) == marked;
      Rebuild(was, heap[..], End(), xs, mem, ys, one, ys.first.next, ys.rest);
      KeepsAround(heap[..], was, End(), xs, mem, marked);
    }

    /** rt_free */
    method Release(p: int)
      requires Valid() && (LegalPointer(State(), p) || Outside(State(), p))
      modifies this, heap
      ensures Valid() && State() == old(Free(State(), p))
      ensures Keeps(old(heap[..]), heap[..], blocks)
    {
      if p == NULL || p < 0 || p >= End() { return; }
      ghost var h := State();
      var mem: int := p - HDR;
      FreeAtRange(blocks, mem, 0, End());
      SplitAt(blocks, mem, 0, End());
      FreeBlockInv(h, mem);
      MarkFreeSpec(blocks, mem, 0, End());
      PlugSpec(MarkFree(blocks, mem), mem, 0, End());
      NotBoth(blocks, lfree);
      ghost var xs, ys := Before(blocks, mem), From(blocks, mem);
      PayloadAppend(xs, ys, 0, mem);
      MarkFreeAppend(xs, ys, 0, mem);
      Vacate(mem, xs, ys);
      blocks := MarkFree(blocks, mem);
      if mem < lfree { lfree := mem; }
      usedMem := usedMem - (heap[mem + 1] - mem);
      PlugHoles(mem, xs, MarkFree(ys, mem));
    }

    /** The block `mem` in use is cut after n words. */
    method Truncate(mem: nat, n: nat, ghost xs: Blocks, ghost ys: Blocks)
      requires At(heap[..], End(), xs, mem, ys) && ys.Cons? && ys.first.used
      requires 0 < n && ys.first.Payload() > n + HDR
      modifies heap
      ensures Shape(heap[..], Append(xs, Cut(ys, mem, n)), End())
      ensures Keeps(old(heap[..]), heap[..], Append(xs, Cut(ys, mem, n)))
    {
      ghost var was, next := heap[..], ys.first.next;
      AtFacts(was, End(), xs, mem, ys);
      var ptr2 := mem + HDR + n;
      NewHeader(mem, ptr2);
      ghost var two := CutBlocks(ys, ptr2, n);
      Rebuild(was, heap[..], End(), xs, mem, ys, two, next, ys.rest);
      KeepsCut(was, heap[..], End(), xs, mem, ys, n);
    }

    /** rt_realloc when the block is long enough to be cut. */
    method ShrinkTo(p: int, n: nat)
      requires Valid() && p >= HDR && UsedAt(blocks, p - HDR) && 0 < n && n + HDR + MIN < PayloadAt(blocks, p - HDR)
      modifies this, heap
      ensures Valid() && State() == old(Shrink(State(), p - HDR, n))
      ensures Keeps(old(heap[..]), heap[..], blocks)
    {
      ghost var h := State();
      var mem: int := p - HDR;
      FreeAtRange(blocks, mem, 0, End());
      SplitAt(blocks, mem, 0, End());
      ghost var xs, ys := Before(blocks, mem), From(blocks, mem);
      PayloadAppend(xs, ys, 0, mem);
      ShrinkPlan(h, mem, n, xs, ys);
      AtFacts(heap[..], End(), xs, mem, ys);
      usedMem := usedMem - (heap[mem + 1] - mem - HDR - n);
      var ptr2 := mem + HDR + n;
      Truncate(mem, n, xs, ys);
      ghost var mid, cut := heap[..], Cut(ys, mem, n);
      AtNext(mid, End(), xs, mem, cut);
      blocks := Append(xs, cut);
      PlugHoles(ptr2, Append(xs, Cons(cut.first, Nil)), cut.rest);
    }

    /** rt_memcpy, word by word, between the payloads of two blocks in use. */
    method CopyWords(dst: int, src: int, count: nat)
      requires Valid() && UsedAt(blocks, dst - HDR) && UsedAt(blocks, src - HDR) && dst != src
      requires count <= PayloadAt(blocks, dst - HDR) && count <= PayloadAt(blocks, src - HDR)
      modifies heap
      ensures Valid()
      ensures 0 <= dst && dst + count <= heap.Length && 0 <= src && src + count <= heap.Length
      ensures forall i :: dst <= i < dst + count ==> heap[i] == old(heap[i - dst + src])
      ensures forall i :: 0 <= i < heap.Length && !(dst <= i < dst + count) ==> heap[i] == old(heap[i])
    {
      FreeAtRange(blocks, dst - HDR, 0, End());
      FreeAtRange(blocks, src - HDR, 0, End());
      ghost var was := heap[..];
      var k := 0;
      while k < count
        invariant 0 <= k <= count
        invariant forall i :: dst <= i < dst + k ==> heap[i] == was[i - dst + src]
        invariant forall i :: 0 <= i < heap.Length && !(dst <= i < dst + k) ==> heap[i] == was[i]
      {
        NotShared(blocks, dst - HDR, src - HDR, src + k, 0, End());
        assert src + k < dst || dst + count <= src + k;
        assert heap[src + k] == was[src + k];
        heap[dst + k] := heap[src + k];
        k := k + 1;
      }
      forall i | dst <= i < dst + count ensures Live(blocks, i) { WithinLive(blocks, dst - HDR, i, 0, End()); }
      RepresentsPayload(was, heap[..], blocks, 0, 0, End());
    }

    /** The payload goes over to the block of `q`, and the old block is released. */
    method CopyAndRelease(p: int, q: int, count: nat)
      requires Valid() && UsedAt(blocks, p - HDR) && UsedAt(blocks, q - HDR) && p != q && p != NULL
      requires count <= PayloadAt(blocks, p - HDR) && count <= PayloadAt(blocks, q - HDR)
      modifies this, heap
      ensures Valid() && State() == old(Free(State(), p))
      ensures Copied(old(heap[..]), heap[..], p, q, count)
      ensures KeepsOthers(old(heap[..]), heap[..], old(blocks), p - HDR, q - HDR)
    {
      ghost var was := blocks;
      CopyWords(q, p, count);
      FreeAtRange(blocks, p - HDR, 0, End());
      FreeBlockInv(State(), p - HDR);
      ghost var copied := heap[..];
      Release(p);
      forall i | q <= i < q + count ensures heap[i] == copied[i] { WithinLive(blocks, q - HDR, i, 0, End()); }
      forall b, i | Within(was, b, i) && b != p - HDR && b != q - HDR
        ensures 0 <= i < heap.Length && heap[i] == old(heap[i])
      {
        WithinLive(was, b, i, 0, End());
        NotShared(was, q - HDR, b, i, 0, End());
        WithinLive(blocks, b, i, 0, End());
      }
    }

    /** rt_realloc when the block has to move. */
    method Move(p: int, n: nat) returns (q: int)
      requires Valid() && LegalPointer(State(), p) && p != NULL && 0 < n && n + HDR <= End()
      modifies this, heap
      ensures Valid()
      ensures (State(), q) == old(var (h, q) := Malloc(State(), 4 * n); (if q == NULL then h else Free(h, p), q))
      ensures KeepsOthers(old(heap[..]), heap[..], old(blocks), p - HDR, p - HDR)
      ensures q != NULL ==> Copied(old(heap[..]), heap[..], p, q, Min(old(PayloadAt(blocks, p - HDR)), n))
    {
      MallocWordsInv(State(), if n < MIN then MIN else n);
      NotBoth(blocks, p - HDR);
      PayloadInMemory(p - HDR);
      FreeAtRange(blocks, p - HDR, 0, End());
      var size := heap[p - HDR + 1] - p;
      ghost var was := heap[..];
      q := Allocate(4 * n);
      KeepsUsed(was, heap[..], old(blocks), End());
      if q != NULL {
        ghost var mid, bs := heap[..], blocks;
        CopyAndRelease(p, q, Min(size, n));
        MoveFrame(was, mid, heap[..], old(blocks), bs, p, q, Min(size, n));
      }
    }

    lemma PayloadInMemory(mem: int)
      requires Valid() && UsedAt(blocks, mem)
      ensures 0 <= mem && mem + 1 < heap.Length && heap[mem + 1] == mem + HDR + PayloadAt(blocks, mem)
    {
      FreeAtRange(blocks, mem, 0, End());
      SplitAt(blocks, mem, 0, End());
      AtFacts(heap[..], End(), Before(blocks, mem), mem, From(blocks, mem));
      PayloadAppend(Before(blocks, mem), From(blocks, mem), 0, mem);
    }

    /** rt_realloc */
    method Reallocate(p: int, bytes: nat) returns (q: int)
      requires Valid() && bytes < WRAP && (LegalPointer(State(), p) || Outside(State(), p))
      modifies this, heap
      ensures Valid() && (State(), q) == old(Realloc(State(), p, bytes))
      ensures KeepsOthers(old(heap[..]), heap[..], old(blocks), p - HDR, p - HDR)
      ensures q != NULL && !old(Outside(State(), p)) ==>
                Copied(old(heap[..]), heap[..], p, q, Min(old(PayloadAt(blocks, p - HDR)), AlignWords(bytes)))
    {
      if p - HDR < 0 { NoPayloadInFront(blocks, p - HDR, 0, End()); }
      ReallocInv(State(), p, bytes);
      KeepsUsed(heap[..], heap[..], blocks, End());
      ghost var was, bs := heap[..], blocks;
      var n := AlignWords(bytes);
      if n > memWords { return NULL; }
      if n == 0 {
        Release(p);
        KeepsLive(was, heap[..], bs, p - HDR, blocks, End());
        return NULL;
      }
      if p == NULL {
        q := Allocate(4 * n);
        KeepsUsed(was, heap[..], bs, End());
        return;
      }
      if p < 0 || p >= End() { return p; }
      PayloadInMemory(p - HDR);
      FreeAtRange(blocks, p - HDR, 0, End());
      var size := heap[p - HDR + 1] - p;
      if size == n { return p; }
      if n + HDR + MIN < size {
        ShrinkInv(State(), p - HDR, n);
        ShrinkTo(p, n);
        KeepsLive(was, heap[..], bs, p - HDR, blocks, End());
        KeepsHead(was, heap[..], p, n, blocks, End());
        return p;
      }
      q := Move(p, n);
    }

  }
}
