/** The small-memory heap (mem.c) as a list of blocks. All offsets and sizes are
    counted in 4-byte words, the alignment unit RT_ALIGN_SIZE of the configuration. */
module HeapSpec {
  import opened Arithmetic

  const HDR: nat := 3               // SIZEOF_STRUCT_MEM, 12 bytes
  const MIN: nat := 3               // MIN_SIZE_ALIGNED and MIN_SIZE, 12 bytes
  const NULL: int := -1

  /** A header at `at`, payload up to the next header. */
  datatype Block = Block(at: nat, next: nat, used: bool) {
    function Payload(): int { next - at - HDR }
  }

  datatype Blocks = Nil | Cons(first: Block, rest: Blocks)

  /** `end` is the offset of heap_end; `used` and `max` are used_mem and max_mem. */
  datatype Heap = Heap(end: nat, blocks: Blocks, lfree: nat, used: int, max: int)

  // ----- shape

  predicate Tiles(bs: Blocks, from: nat, to: nat) {
    match bs
    case Nil => from == to
    case Cons(b, rest) => b.at == from && from + HDR < b.next && Tiles(rest, b.next, to)
  }

  predicate NoFreePair(bs: Blocks) {
    bs.Cons? ==> (bs.rest.Cons? ==> bs.first.used || bs.rest.first.used) && NoFreePair(bs.rest)
  }

  predicate UsedAt(bs: Blocks, a: int) { bs.Cons? && (if bs.first.at == a then bs.first.used else UsedAt(bs.rest, a)) }

  predicate FreeAt(bs: Blocks, a: int) { bs.Cons? && (if bs.first.at == a then !bs.first.used else FreeAt(bs.rest, a)) }

  function UsedSize(bs: Blocks): int {
    match bs
    case Nil => 0
    case Cons(b, rest) => (if b.used then b.next - b.at else 0) + UsedSize(rest)
  }

  /** Word `i` belongs to the payload of a block in use. */
  predicate Live(bs: Blocks, i: int) {
    bs.Cons? && ((bs.first.used && bs.first.at + HDR <= i < bs.first.next) || Live(bs.rest, i))
  }

  predicate Inv(h: Heap) {
    && HDR + MIN <= h.end && 4 * (h.end + HDR) <= WRAP
    && h.blocks.Cons? && Tiles(h.blocks, 0, h.end) && NoFreePair(h.blocks)
    && (h.lfree == h.end || FreeAt(h.blocks, h.lfree))
    && h.used == UsedSize(h.blocks) <= h.max
  }

  /** No block in front of lfree is free. */
  ghost predicate LowestFree(h: Heap) { forall a :: FreeAt(h.blocks, a) ==> h.lfree <= a }

  // ----- rt_system_heap_init

  /** The words between the two headers, after both addresses are aligned inwards; NULL if there is no room. */
  function InitWords(begin: nat, end: nat): int {
    if end / 4 > 2 * HDR && end / 4 - 2 * HDR >= AlignWords(begin) then end / 4 - AlignWords(begin) - 2 * HDR else NULL
  }

  function Init(words: nat): Heap {
    Heap(words + HDR, Cons(Block(0, words + HDR, false), Nil), 0, 0, 0)
  }

  // ----- rt_malloc

  /** The scan from lfree: first free block of at least n words whose end is not
      exactly the end of the heap at an exact fit (the loop bound is strict). */
  function FindFit(bs: Blocks, from: nat, n: nat, end: nat): int {
    if bs.Nil? then NULL
    else if bs.first.at >= from && bs.first.at + HDR + n < end && !bs.first.used && bs.first.Payload() >= n then bs.first.at
    else FindFit(bs.rest, from, n, end)
  }

  /** The block at `a` is put in use; what is left over becomes a block if it can hold MIN words. */
  function Carve(bs: Blocks, a: int, n: nat): Blocks {
    if bs.Nil? then Nil
    else if bs.first.at != a then Cons(bs.first, Carve(bs.rest, a, n))
    else if bs.first.Payload() >= n + HDR + MIN then
      var cut := bs.first.at + HDR + n;
      Cons(Block(bs.first.at, cut, true), Cons(Block(cut, bs.first.next, false), bs.rest))
    else Cons(bs.first.(used := true), bs.rest)
  }

  /** The first free block at or after `from`, or heap_end. */
  function NextFree(bs: Blocks, from: nat, end: nat): nat {
    if bs.Nil? then end
    else if bs.first.at >= from && !bs.first.used then bs.first.at
    else NextFree(bs.rest, from, end)
  }

  /** What used_mem grows by when the block at `a` is taken. */
  function Extent(bs: Blocks, a: int, n: nat): int {
    if PayloadAt(bs, a) >= n + HDR + MIN then n + HDR else PayloadAt(bs, a) + HDR
  }

  function MallocWords(h: Heap, n: nat): (Heap, int) {
    var a := FindFit(h.blocks, h.lfree, n, h.end);
    if a == NULL then (h, NULL)
    else
      var bs := Carve(h.blocks, a, n);
      var used := h.used + Extent(h.blocks, a, n);
      (h.(blocks := bs, lfree := if a == h.lfree then NextFree(bs, h.lfree, h.end) else h.lfree,
          used := used, max := if h.max < used then used else h.max),
       a + HDR)
  }

  /** The result is the offset of the payload. */
  function Malloc(h: Heap, bytes: nat): (Heap, int) {
    var n := AlignWords(bytes);
    if bytes == 0 || n + HDR > h.end then (h, NULL) else MallocWords(h, if n < MIN then MIN else n)
  }

  // ----- rt_free

  function MarkFree(bs: Blocks, a: int): Blocks {
    if bs.Nil? then Nil
    else if bs.first.at == a then Cons(bs.first.(used := false), bs.rest)
    else Cons(bs.first, MarkFree(bs.rest, a))
  }

  /** plug_holes: the free block at `a` absorbs a free successor, then a free predecessor absorbs it. */
  function Plug(bs: Blocks, a: int): Blocks {
    if bs.Nil? then Nil
    else if bs.first.at == a then
      if bs.rest.Cons? && !bs.rest.first.used then Cons(bs.first.(next := bs.rest.first.next), bs.rest.rest) else bs
    else
      var r := Plug(bs.rest, a);
      if bs.rest.Cons? && bs.rest.first.at == a && !bs.first.used && r.Cons?
      then Cons(bs.first.(next := r.first.next), r.rest)
      else Cons(bs.first, r)
  }

  /** The block in front of `a` if it is free, else `a` itself. */
  function MergedAt(bs: Blocks, a: nat): nat {
    if bs.Nil? || bs.first.at == a then a
    else if bs.rest.Cons? && bs.rest.first.at == a then if bs.first.used then a else bs.first.at
    else MergedAt(bs.rest, a)
  }

  function FreeBlock(h: Heap, a: nat): Heap {
    var bs := Plug(MarkFree(h.blocks, a), a);
    h.(blocks := bs, lfree := if a < h.lfree then MergedAt(h.blocks, a) else h.lfree, used := h.used - (PayloadAt(h.blocks, a) + HDR))
  }

  function Free(h: Heap, p: int): Heap {
    if p < HDR || p >= h.end then h else FreeBlock(h, p - HDR)
  }

  // ----- rt_realloc

  function PayloadAt(bs: Blocks, a: int): int {
    if bs.Nil? then 0 else if bs.first.at == a then bs.first.Payload() else PayloadAt(bs.rest, a)
  }

  /** The block at `a` keeps n words; the rest becomes a free block of its own. */
  function Cut(bs: Blocks, a: int, n: nat): Blocks {
    if bs.Nil? then Nil
    else if bs.first.at != a then Cons(bs.first, Cut(bs.rest, a, n))
    else
      var cut := bs.first.at + HDR + n;
      Cons(bs.first.(next := cut), Cons(Block(cut, bs.first.next, false), bs.rest))
  }

  /** lfree follows the successor if that is merged into the remainder, and stays otherwise. */
  function Shrink(h: Heap, a: nat, n: nat): Heap {
    var next := a + HDR + PayloadAt(h.blocks, a);
    var bs := Plug(Cut(h.blocks, a, n), a + HDR + n);
    h.(blocks := bs, lfree := if h.lfree == next && next != h.end then a + HDR + n else h.lfree, used := h.used - (PayloadAt(h.blocks, a) - n))
  }

  function Realloc(h: Heap, p: int, bytes: nat): (Heap, int) {
    var n := AlignWords(bytes);
    if n + HDR > h.end then (h, NULL)
    else if n == 0 then (Free(h, p), NULL)
    else if p == NULL then Malloc(h, 4 * n)
    else if p < HDR || p >= h.end then (h, p)
    else
      var size := PayloadAt(h.blocks, p - HDR);
      if size == n then (h, p)
      else if n + HDR + MIN < size then (Shrink(h, p - HDR, n), p)
      else
        var (h1, q) := Malloc(h, 4 * n);
        if q == NULL then (h1, NULL) else (Free(h1, p), q)
  }
}
