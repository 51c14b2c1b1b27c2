/** The heap of memheap.c: a circular list of all blocks in address order, and a second list of the
    free ones. Offsets and sizes are counted in 4-byte words. */
module MemHeapSpec {
  import opened Arithmetic
  import opened Sequences

  const HDR: nat := 6               // RT_MEMHEAP_SIZE, 24 bytes
  const MIN: nat := 3               // RT_MEMHEAP_MINIALLOC, 12 bytes
  const WORDS: nat := 0x4000_0000   // so many words wrap to none
  const NULL: int := -1

  datatype Item = Item(at: nat, next: nat, used: bool) {
    /** MEMITEM_SIZE */
    function Size(): int { next - at - HDR }
  }

  datatype Items = Nil | Cons(first: Item, rest: Items)

  /** `end` is the offset of the tail block, which is in use and closes the circle; `free` is the free
      list from its header on. */
  datatype MemHeap = MemHeap(end: nat, items: Items, free: seq<int>, available: int, maxUsed: int)

  // ----- the block list

  predicate Tiles(bs: Items, from: nat, to: nat) {
    match bs
    case Nil => from == to
    case Cons(b, rest) => b.at == from && from + HDR + MIN <= b.next && Tiles(rest, b.next, to)
  }

  predicate NoFreePair(bs: Items) {
    bs.Cons? ==> (bs.rest.Cons? ==> bs.first.used || bs.rest.first.used) && NoFreePair(bs.rest)
  }

  predicate FreeAt(bs: Items, a: int) { bs.Cons? && (if bs.first.at == a then !bs.first.used else FreeAt(bs.rest, a)) }

  predicate UsedAt(bs: Items, a: int) { bs.Cons? && (if bs.first.at == a then bs.first.used else UsedAt(bs.rest, a)) }

  function SizeAt(bs: Items, a: int): int {
    if bs.Nil? then 0 else if bs.first.at == a then bs.first.Size() else SizeAt(bs.rest, a)
  }

  function FreeSize(bs: Items): int {
    match bs
    case Nil => 0
    case Cons(b, rest) => (if b.used then 0 else b.Size()) + FreeSize(rest)
  }

  /** The offset of a free block right in front of `a`. */
  function FreeBefore(bs: Items, a: int): int {
    if bs.Nil? || bs.rest.Nil? then NULL
    else if bs.rest.first.at == a then if bs.first.used then NULL else bs.first.at
    else FreeBefore(bs.rest, a)
  }

  function Mark(bs: Items, a: int, used: bool): Items {
    if bs.Nil? then Nil
    else if bs.first.at == a then Cons(bs.first.(used := used), bs.rest)
    else Cons(bs.first, Mark(bs.rest, a, used))
  }

  /** The block at `a` absorbs the next one. */
  function Join(bs: Items, a: int): Items {
    if bs.Nil? then Nil
    else if bs.first.at == a then if bs.rest.Nil? then bs else Cons(bs.first.(next := bs.rest.first.next), bs.rest.rest)
    else Cons(bs.first, Join(bs.rest, a))
  }

  /** The block at `a` keeps n words, the rest becomes a free block. */
  function Split(bs: Items, a: int, n: nat): Items {
    if bs.Nil? then Nil
    else if bs.first.at == a then
      var cut := bs.first.at + HDR + n;
      Cons(bs.first.(next := cut), Cons(Item(cut, bs.first.next, false), bs.rest))
    else Cons(bs.first, Split(bs.rest, a, n))
  }

  // ----- rt_memheap_init

  /** A pool of `words` words. */
  function Init(words: nat): MemHeap
    requires words >= 2 * HDR
  {
    MemHeap(words - HDR, Cons(Item(0, words - HDR, false), Nil), [0], words - 2 * HDR, 2 * HDR)
  }

  function PoolSize(h: MemHeap): nat { h.end + HDR }

  // ----- rt_memheap_alloc

  function Request(bytes: nat): nat { if AlignWords(bytes) < MIN then MIN else AlignWords(bytes) }

  /** The search of the free list. */
  function Find(bs: Items, free: seq<int>, n: nat): int
    decreases |free|
  {
    if free == [] then NULL else if SizeAt(bs, free[0]) >= n then free[0] else Find(bs, free[1..], n)
  }

  function Watermark(h: MemHeap): MemHeap {
    if PoolSize(h) - h.available > h.maxUsed then h.(maxUsed := PoolSize(h) - h.available) else h
  }

  /** The free block at `a` is handed out, cut if it is long enough. */
  function Occupy(h: MemHeap, a: int, n: nat): MemHeap {
    var size := SizeAt(h.items, a);
    if size >= n + HDR + MIN then
      Watermark(h.(items := Mark(Split(h.items, a, n), a, true), free := [a + HDR + n] + Remove(h.free, a), available := h.available - n - HDR))
    else
      Watermark(h.(items := Mark(h.items, a, true), free := Remove(h.free, a), available := h.available - size))
  }

  function AllocWords(h: MemHeap, n: nat): (MemHeap, int) {
    var a := Find(h.items, h.free, n);
    if n >= h.available || a == NULL then (h, NULL) else (Occupy(h, a, n), a + HDR)
  }

  function Alloc(h: MemHeap, bytes: nat): (MemHeap, int) { AllocWords(h, Request(bytes)) }

  // ----- rt_memheap_free

  /** The free block at `a` absorbs a free right neighbour, which leaves the free list. */
  function MergeRight(h: MemHeap, a: int): MemHeap {
    var right := a + HDR + SizeAt(h.items, a);
    if FreeAt(h.items, right) then h.(items := Join(h.items, a), free := Remove(h.free, right), available := h.available + HDR) else h
  }

  function FreeBlock(h: MemHeap, a: int): MemHeap {
    var left := FreeBefore(h.items, a);
    var h1 := h.(items := Mark(h.items, a, false), available := h.available + SizeAt(h.items, a));
    if left != NULL then MergeRight(h1.(items := Join(h1.items, left), available := h1.available + HDR), left)
    else
      var h2 := MergeRight(h1, a);
      h2.(free := [a] + h2.free)
  }

  function Free(h: MemHeap, p: int): MemHeap { if p < HDR then h else FreeBlock(h, p - HDR) }

  // ----- rt_memheap_realloc

  /** Growing into the free block behind. */
  function Grow(h: MemHeap, a: int, n: nat): MemHeap {
    var size := SizeAt(h.items, a);
    Watermark(h.(items := Split(Join(h.items, a), a, n), free := [a + HDR + n] + Remove(h.free, a + HDR + size),
                 available := h.available - (n - size)))
  }

  /** Cutting off the end, and merging it with a free block behind. */
  function Shrink(h: MemHeap, a: int, n: nat): MemHeap {
    var size, cut := SizeAt(h.items, a), a + HDR + n;
    var right := a + HDR + size;
    var bs := Split(h.items, a, n);
    if FreeAt(h.items, right) then
      h.(items := Join(bs, cut), free := [cut] + Remove(h.free, right), available := h.available + (size - n))
    else h.(items := bs, free := [cut] + h.free, available := h.available + (size - n - HDR))
  }

  /** The block at `a` is to hold n words: grown in place, moved, left alone, or cut. */
  function Resize(h: MemHeap, a: int, n: nat): (MemHeap, int) {
    var size := SizeAt(h.items, a);
    var right := a + HDR + size;
    if n > size then
      if FreeAt(h.items, right) && SizeAt(h.items, right) + size > (n + MIN) % WORDS then (Grow(h, a, n), a + HDR)
      else
        var (h1, q) := AllocWords(h, n);
        if q == NULL then (h1, NULL) else (FreeBlock(h1, a), q)
    else if n + HDR + MIN >= size then (h, a + HDR)
    else (Shrink(h, a, n), a + HDR)
  }

  function Realloc(h: MemHeap, p: int, bytes: nat): (MemHeap, int) {
    if bytes == 0 then (Free(h, p), NULL)
    else if p == NULL then AllocWords(h, Request(bytes))
    else if p < HDR then (h, p)
    else Resize(h, p - HDR, Request(bytes))
  }

  // ----- the promise

  /** The free list holds exactly the unused blocks, once each. */
  ghost predicate ListsAgree(bs: Items, free: seq<int>) {
    Distinct(free) && forall a :: a in free <==> FreeAt(bs, a)
  }

  ghost predicate Inv(h: MemHeap) {
    && 4 * PoolSize(h) <= WRAP
    && h.items.Cons? && Tiles(h.items, 0, h.end) && NoFreePair(h.items)
    && ListsAgree(h.items, h.free)
    && h.available == FreeSize(h.items)
    && PoolSize(h) - h.available <= h.maxUsed
  }
}
