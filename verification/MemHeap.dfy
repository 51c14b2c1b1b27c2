/** memheap.c on its links: every block header has a place in the circular block list and, while it
    is free, in the free list; both are relinked in place. */
module MemHeaps {
  import opened Arithmetic
  import opened MemHeapSpec
  import opened MemHeapTheorems
  import L = RtLists
  import opened Sequences

  const FREE: int := -2    // the header of the free list, no block

  // ----- addresses of the blocks, in order

  function Addrs(bs: Items): seq<int> { if bs.Nil? then [] else [bs.first.at] + Addrs(bs.rest) }

  /** Those in front of `a`, and those behind it. */
  function Front(bs: Items, a: int): seq<int> { if bs.Nil? || bs.first.at == a then [] else [bs.first.at] + Front(bs.rest, a) }

  function Back(bs: Items, a: int): seq<int> { if bs.Nil? then [] else if bs.first.at == a then Addrs(bs.rest) else Back(bs.rest, a) }

  predicate Present(bs: Items, a: int) { FreeAt(bs, a) || UsedAt(bs, a) }

  lemma {:induction false} Parts(bs: Items, a: int, lo: nat, hi: nat)
    requires Tiles(bs, lo, hi) && Present(bs, a)
    ensures Addrs(bs) == Front(bs, a) + [a] + Back(bs, a)
    ensures L.First(Back(bs, a), hi) == a + HDR + SizeAt(bs, a)
  {
    if bs.first.at == a {
      assert [] + [a] + Back(bs, a) == Addrs(bs);
      TilesUp(bs.rest, bs.first.next, hi);
      assert bs.rest.Cons? ==> Addrs(bs.rest)[0] == bs.rest.first.at;
    } else {
      Parts(bs.rest, a, bs.first.next, hi);
      assert [bs.first.at] + (Front(bs.rest, a) + [a] + Back(bs.rest, a)) == ([bs.first.at] + Front(bs.rest, a)) + [a] + Back(bs, a);
    }
  }

  lemma {:induction false} InAddrs(bs: Items, lo: nat, hi: nat)
    requires Tiles(bs, lo, hi)
    ensures forall a :: a in Addrs(bs) <==> Present(bs, a)
    ensures hi !in Addrs(bs) && Distinct(Addrs(bs))
  {
    if bs.Cons? {
      InAddrs(bs.rest, bs.first.next, hi);
      Behind(bs.rest, bs.first.next, hi);
      TilesUp(bs.rest, bs.first.next, hi);
      assert bs.first.at !in Addrs(bs.rest);
    }
  }

  /** What a block has in front of it in the ring. */
  lemma {:induction false} FrontEnds(bs: Items, a: int, lo: nat, hi: nat)
    requires Tiles(bs, lo, hi) && Present(bs, a)
    ensures var f := Front(bs, a);
      && (f == [] ==> FreeBefore(bs, a) == NULL)
      && (f != [] ==> Present(bs, f[|f| - 1]) && FreeBefore(bs, a) == if UsedAt(bs, f[|f| - 1]) then NULL else f[|f| - 1])
  {
    AtRange(bs, a, lo, hi);
    if bs.first.at == a {
      FreeBeforeSpec(bs, a, lo, hi);
    } else {
      AtRange(bs.rest, a, bs.first.next, hi);
      FrontEnds(bs.rest, a, bs.first.next, hi);
      Behind(bs.rest, bs.first.next, hi);
      var f := Front(bs.rest, a);
      if f == [] {
        assert Front(bs, a) == [bs.first.at];
        FreeBeforeSpec(bs.rest, a, bs.first.next, hi);
      } else {
        assert Front(bs, a)[|f|] == f[|f| - 1];
      }
    }
  }

  lemma {:induction false} AddrsOfMark(bs: Items, a: int, used: bool)
    ensures Addrs(Mark(bs, a, used)) == Addrs(bs)
  {
    if bs.Cons? && bs.first.at != a { AddrsOfMark(bs.rest, a, used); }
  }

  lemma {:induction false} AddrsOfSplit(bs: Items, a: int, n: nat)
    requires Present(bs, a)
    ensures Addrs(Split(bs, a, n)) == Front(bs, a) + [a] + [a + HDR + n] + Back(bs, a)
  {
    if bs.first.at == a {
      var r := Split(bs, a, n);
      assert Addrs(r.rest) == [a + HDR + n] + Addrs(bs.rest);
      assert Addrs(r) == [] + [a] + [a + HDR + n] + Back(bs, a);
    } else {
      AddrsOfSplit(bs.rest, a, n);
      assert [bs.first.at] + (Front(bs.rest, a) + [a] + [a + HDR + n] + Back(bs.rest, a)) == ([bs.first.at] + Front(bs.rest, a)) + [a] + [a + HDR + n] + Back(bs, a);
    }
  }

  lemma {:induction false} AddrsOfJoin(bs: Items, a: int)
    requires Present(bs, a) && Back(bs, a) != []
    ensures Addrs(Join(bs, a)) == Front(bs, a) + [a] + Back(bs, a)[1..]
  {
    if bs.first.at == a {
      assert Back(bs, a) == [bs.rest.first.at] + Addrs(bs.rest.rest);
      assert Addrs(Join(bs, a)) == [] + [a] + Back(bs, a)[1..];
    } else {
      AddrsOfJoin(bs.rest, a);
      assert [bs.first.at] + (Front(bs.rest, a) + [a] + Back(bs.rest, a)[1..]) == ([bs.first.at] + Front(bs.rest, a)) + [a] + Back(bs, a)[1..];
    }
  }

  // ----- the headers in memory

  /** The block ring runs through the blocks in address order and is closed by the tail, which is in use. */
  ghost predicate Headers(next: L.Memory, prev: L.Memory, used: map<int, bool>, bs: Items, end: nat) {
    && L.Ring(next, prev, end, Addrs(bs))
    && end in used && used[end]
    && forall a :: Present(bs, a) ==> a in used && used[a] == UsedAt(bs, a)
  }

  lemma HeaderFacts(next: L.Memory, prev: L.Memory, used: map<int, bool>, bs: Items, end: nat, a: int)
    requires Headers(next, prev, used, bs, end) && Tiles(bs, 0, end) && Present(bs, a)
    ensures a in next && a in prev && a in used && used[a] == UsedAt(bs, a)
    ensures next[a] == a + HDR + SizeAt(bs, a) && next[a] in used && used[next[a]] == !FreeAt(bs, next[a])
    ensures prev[a] in used && (if used[prev[a]] then FreeBefore(bs, a) == NULL else FreeBefore(bs, a) == prev[a] >= 0)
  {
    Behind(bs, 0, end);
    Parts(bs, a, 0, end);
    InAddrs(bs, 0, end);
    var f, b := Front(bs, a), Back(bs, a);
    L.PathSplit(next, prev, end, f, a, b, end);
    L.PathEnds(next, prev, a, b, end);
    L.PathEnds(next, prev, end, f, a);
    L.MembersKnown(next, prev, a, b, end);
    L.MembersKnown(next, prev, end, f, a);
    FrontEnds(bs, a, 0, end);
    NotBoth(bs, a);
    assert b != [] ==> b[0] in Addrs(bs);
    NotBoth(bs, next[a]);
    NotBoth(bs, prev[a]);
    AtRange(bs, a, 0, end);
  }

  lemma MarkedHeaders(next: L.Memory, prev: L.Memory, used: map<int, bool>, bs: Items, end: nat, a: int, u: bool)
    requires Headers(next, prev, used, bs, end) && Tiles(bs, 0, end) && Present(bs, a)
    ensures Headers(next, prev, used[a := u], Mark(bs, a, u), end)
  {
    AddrsOfMark(bs, a, u);
    MarkSpec(bs, a, u, 0, end);
    InAddrs(bs, 0, end);
    assert a in Addrs(bs);
  }

  /** A new header between `a` and what follows it. */
  lemma SplitHeaders(next: L.Memory, prev: L.Memory, used: map<int, bool>, bs: Items, end: nat, a: int, n: nat)
    requires Headers(next, prev, used, bs, end) && Tiles(bs, 0, end) && Present(bs, a) && n >= MIN && n + HDR + MIN <= SizeAt(bs, a)
    ensures a in next
    ensures var cut := a + HDR + n; var b := next[a];
            Headers(next[a := cut][cut := b], prev[b := cut][cut := a], used[cut := false], Split(bs, a, n), end)
  {
    var cut, f, q := a + HDR + n, Front(bs, a), Back(bs, a);
    HeaderFacts(next, prev, used, bs, end, a);
    Parts(bs, a, 0, end);
    InAddrs(bs, 0, end);
    NotInside(bs, a, cut, 0, end);
    AtRange(bs, a, 0, end);
    NotBoth(bs, a);
    SplitSpec(bs, a, n, 0, end);
    AddrsOfSplit(bs, a, n);
    assert cut !in Addrs(bs);
    assert L.Last(end, f + [a]) == a;
    L.LinkedIn(next, prev, end, f + [a], q, cut);
    NotBoth(Split(bs, a, n), cut);
  }

  /** A node is bypassed; its own links do not matter any more. */
  lemma Bypassed(next: L.Memory, prev: L.Memory, l: int, p: seq<int>, n: int, q: seq<int>)
    requires L.Ring(next, prev, l, p + [n] + q)
    ensures n in next && next[n] == L.First(q, l) && n in prev && prev[n] == L.Last(l, p)
    ensures L.Last(l, p) in next && next[L.Last(l, p)] == n
    ensures L.Ring(next[L.Last(l, p) := L.First(q, l)], prev[L.First(q, l) := L.Last(l, p)], l, p + q)
  {
    var a, b := L.Last(l, p), L.First(q, l);
    L.TakenOut(next, prev, l, p, n, q);
    L.PathSplit(next, prev, l, p, n, q, l);
    L.PathEnds(next, prev, l, p, n);
    L.PathEnds(next, prev, n, q, l);
    assert p + ([n] + q) == p + [n] + q;
    L.RingParts(next, prev, l, p, [n] + q);
    L.MembersKnown(next, prev, n, q, l);
    L.MembersKnown(next, prev, l, p, n);
    L.DistinctParts(p, n, q);
    assert n in p + [n] + q;
    L.PathFrame(next[a := b][n := n], prev[b := a][n := n], next[a := b], prev[b := a], l, p + q, l);
  }

  /** The header behind `a` is left out. */
  lemma JoinHeaders(next: L.Memory, prev: L.Memory, used: map<int, bool>, bs: Items, end: nat, a: int)
    requires Headers(next, prev, used, bs, end) && Tiles(bs, 0, end) && Present(bs, a) && FreeAt(bs, a + HDR + SizeAt(bs, a))
    ensures a in next && next[a] in next
    ensures var b := next[next[a]]; Headers(next[a := b], prev[b := a], used, Join(bs, a), end)
  {
    var right, f, q := a + HDR + SizeAt(bs, a), Front(bs, a), Back(bs, a);
    Parts(bs, a, 0, end);
    InAddrs(bs, 0, end);
    AtRange(bs, right, 0, end);
    assert right in Addrs(bs) && q != [] && q[0] == right;
    assert Addrs(bs) == (f + [a]) + [right] + q[1..];
    AddrsOfJoin(bs, a);
    JoinSpec(bs, a, 0, end);
    assert L.Last(end, f + [a]) == a;
    Bypassed(next, prev, end, f + [a], right, q[1..]);
  }

  // ----- the free list in memory

  /** Where `a` is in the free list. */
  function Ahead(q: seq<int>, a: int): seq<int>
    decreases |q|
  {
    if q == [] || q[0] == a then [] else [q[0]] + Ahead(q[1..], a)
  }

  function Rest(q: seq<int>, a: int): seq<int>
    decreases |q|
  {
    if q == [] then [] else if q[0] == a then q[1..] else Rest(q[1..], a)
  }

  lemma {:induction false} PlaceOf(q: seq<int>, a: int)
    requires a in q
    ensures q == Ahead(q, a) + [a] + Rest(q, a) && Remove(q, a) == Ahead(q, a) + Rest(q, a)
    decreases |q|
  {
    if q[0] == a {
      assert q == [a] + q[1..];
    } else {
      var f, r := Ahead(q[1..], a), Rest(q[1..], a);
      assert q == [q[0]] + q[1..];
      PlaceOf(q[1..], a);
      Prepended(q[0], f, a, r);
    }
  }

  lemma Prepended(x: int, f: seq<int>, a: int, r: seq<int>)
    ensures [x] + (f + [a] + r) == ([x] + f) + [a] + r
    ensures [x] + (f + r) == ([x] + f) + r
  {
  }

  lemma OneBlock(b: Item, a: int)
    requires Present(Cons(b, Nil), a)
    ensures a == b.at
  {
    assert !FreeAt(Nil, a) && !UsedAt(Nil, a);
  }

  lemma AloneParts(h: MemHeap, a: int)
    requires Inv(h) && UsedAt(h.items, a) && FreeBefore(h.items, a) == NULL
    ensures var h1 := h.(items := Mark(h.items, a, false), available := h.available + SizeAt(h.items, a));
      && AlmostInv(h1, a) && a >= 0 && SizeAt(h1.items, a) == SizeAt(h.items, a)
      && a !in MergeRight(h1, a).free && (FreeAt(h1.items, a + HDR + SizeAt(h1.items, a)) ==> a + HDR + SizeAt(h1.items, a) in h.free)
  {
    AtRange(h.items, a, 0, h.end);
    MarkSpec(h.items, a, false, 0, h.end);
    MarkFreePairs(h.items, a, 0, h.end);
    NotBoth(h.items, a);
    RemoveSpec(h.free, a + HDR + SizeAt(h.items, a));
  }

  lemma LeftParts(h: MemHeap, a: int)
    requires Inv(h) && UsedAt(h.items, a) && FreeBefore(h.items, a) != NULL
    ensures var left, bs := FreeBefore(h.items, a), Mark(h.items, a, false);
      && Tiles(bs, 0, h.end) && Present(bs, left) && a == left + HDR + SizeAt(bs, left) && FreeAt(bs, a)
      && var h2 := h.(items := Join(bs, left), available := h.available + SizeAt(h.items, a) + HDR);
        && AlmostInv(h2, left)
        && (var right := left + HDR + SizeAt(h2.items, left); FreeAt(h2.items, right) ==> right in h.free)
  {
    var left := FreeBefore(h.items, a);
    var bs := Mark(h.items, a, false);
    AtRange(h.items, a, 0, h.end);
    FreeBeforeSpec(h.items, a, 0, h.end);
    MarkSpec(h.items, a, false, 0, h.end);
    MarkFreePairs(h.items, a, 0, h.end);
    NotBoth(h.items, a);
    NotBoth(bs, left);
    JoinSpec(bs, left, 0, h.end);
    JoinFreeSize(bs, left, 0, h.end);
  }

  lemma GrowParts(h: MemHeap, a: int, n: nat)
    requires Inv(h) && UsedAt(h.items, a) && n > SizeAt(h.items, a) && n >= MIN
    requires FreeAt(h.items, a + HDR + SizeAt(h.items, a)) && SizeAt(h.items, a + HDR + SizeAt(h.items, a)) + SizeAt(h.items, a) > n + MIN
    ensures var bs, right := Join(h.items, a), a + HDR + SizeAt(h.items, a);
      && Tiles(bs, 0, h.end) && Present(bs, a) && n + HDR + MIN <= SizeAt(bs, a)
      && right in h.free && a >= 0 && a + HDR + n !in Remove(h.free, right)
  {
    var right := a + HDR + SizeAt(h.items, a);
    AtRange(h.items, a, 0, h.end);
    JoinSpec(h.items, a, 0, h.end);
    NotInside(Join(h.items, a), a, a + HDR + n, 0, h.end);
    RemoveSpec(h.free, right);
  }

  lemma ShrinkParts(h: MemHeap, a: int, n: nat)
    requires Inv(h) && UsedAt(h.items, a) && n >= MIN && n + HDR + MIN < SizeAt(h.items, a)
    ensures var bs, cut, right := Split(h.items, a, n), a + HDR + n, a + HDR + SizeAt(h.items, a);
      && Tiles(bs, 0, h.end) && FreeAt(bs, cut) && a >= 0 && cut !in h.free && cut !in Remove(h.free, right)
      && right == cut + HDR + SizeAt(bs, cut) && (FreeAt(bs, right) <==> FreeAt(h.items, right)) && (FreeAt(bs, right) ==> right in h.free)
      && (FreeAt(bs, right) ==> SizeAt(bs, right) == SizeAt(h.items, right)
                                && Tiles(Join(bs, cut), 0, h.end) && FreeAt(Join(bs, cut), cut)
                                && SizeAt(Join(bs, cut), cut) == SizeAt(bs, cut) + HDR + SizeAt(bs, right))
  {
    var bs, cut, right := Split(h.items, a, n), a + HDR + n, a + HDR + SizeAt(h.items, a);
    AtRange(h.items, a, 0, h.end);
    SplitSpec(h.items, a, n, 0, h.end);
    NotInside(h.items, a, cut, 0, h.end);
    RemoveSpec(h.free, right);
    NotBoth(h.items, right);
    if FreeAt(bs, right) { JoinSpec(bs, cut, 0, h.end); }
  }

  /** The `size` words at `p` are also at `q`; all else is as before. */
  predicate CopiedBlock(m: seq<int>, m': seq<int>, p: int, q: int, size: int) {
    0 <= p && 0 <= q && 0 <= size && p + size <= |m| && q + size <= |m| && m' == Copied(m, q, p, size)
  }

  lemma CopiedWord(m: seq<int>, p: nat, q: nat, size: nat, i: nat)
    requires p + size <= |m| && q + size <= |m| && (p + size <= q || q + size <= p) && i < size
    ensures var c := Copied(m, q, p, i); c[q + i := c[p + i]] == Copied(m, q, p, i + 1)
  {
    var c := Copied(m, q, p, i);
    assert c[p + i] == m[p + i];
    assert m[p..p + i + 1] == m[p..p + i] + [m[p + i]];
  }

  lemma UsedApart(h: MemHeap, a: int, b: int)
    requires Inv(h) && UsedAt(h.items, a) && UsedAt(h.items, b) && a != b
    ensures a >= 0 && b >= 0 && a + HDR + SizeAt(h.items, a) <= h.end && b + HDR + SizeAt(h.items, b) <= h.end
    ensures a + HDR + SizeAt(h.items, a) <= b || b + HDR + SizeAt(h.items, b) <= a
  {
    AtRange(h.items, a, 0, h.end);
    AtRange(h.items, b, 0, h.end);
    if a < b < a + HDR + SizeAt(h.items, a) { NotInside(h.items, a, b, 0, h.end); }
    if b < a < b + HDR + SizeAt(h.items, b) { NotInside(h.items, b, a, 0, h.end); }
  }

  /** A block handed out is another than `a`, has room for its words, and shares none with it. */
  lemma MoveApart(h: MemHeap, a: int, n: nat)
    requires Inv(h) && UsedAt(h.items, a) && n >= MIN && n > SizeAt(h.items, a)
    ensures var (h1, q) := AllocWords(h, n); var size := SizeAt(h.items, a);
      && Inv(h1) && (q == NULL ==> h1 == h)
      && (q != NULL ==>
            && UsedAt(h1.items, a) && a >= 0 && q >= HDR && q != a + HDR && size >= 0
            && a + HDR + size <= h.end && q + size <= h.end && (a + HDR + size <= q || q + size <= a + HDR))
  {
    AllocInv(h, n);
    var (h1, q) := AllocWords(h, n);
    if q != NULL {
      NotBoth(h.items, q - HDR);
      UsedApart(h1, a, q - HDR);
      AtRange(h.items, a, 0, h.end);
    }
  }

  class MemHeapObject {
    const end: nat                    // offset of the tail block
    var next: L.Memory                // the header words of every block
    var prev: L.Memory
    var used: map<int, bool>          // the low bit of magic
    var nextFree: L.Memory
    var prevFree: L.Memory
    const pool: array<int>            // the words of the pool, of which only payloads are read
    var available: int                // available_size
    var maxUsed: int                  // max_used_size
    ghost var items: Items
    ghost var free: seq<int>

    ghost function State(): MemHeap
      reads this
    {
      MemHeap(end, items, free, available, maxUsed)
    }

    /** Headers and links say what the lists are. */
    ghost predicate Linked()
      reads this
    {
      Headers(next, prev, used, items, end) && L.Ring(nextFree, prevFree, FREE, free) && pool.Length == end + HDR
    }

    ghost predicate Valid()
      reads this
    {
      Linked() && Inv(State())
    }

    /** rt_memheap_init */
    constructor (words: nat)
      requires words >= 2 * HDR + MIN && 4 * words <= WRAP
      ensures Valid() && State() == Init(words) && fresh(pool)
    {
      var tail := words - HDR;
      end := tail;
      pool := new int[words];
      next, prev := map[0 := tail, tail := 0], map[0 := tail, tail := 0];
      used := map[0 := false, tail := true];
      nextFree, prevFree := map[FREE := 0, 0 := FREE], map[FREE := 0, 0 := FREE];
      available, maxUsed := words - 2 * HDR, 2 * HDR;
      items, free := Cons(Item(0, tail, false), Nil), [0];
      new;
      InitInv(words);
      assert items == Cons(Item(0, tail, false), Nil) && Addrs(items.rest) == [] && Addrs(items) == [0];
      assert [0][1..] == [];
      assert L.Path(next, prev, 0, [], tail);
      assert L.Path(next, prev, tail, [0], tail);
      assert L.Path(nextFree, prevFree, 0, [], FREE);
      assert L.Path(nextFree, prevFree, FREE, [0], FREE);
      assert L.Ring(next, prev, end, Addrs(items));
      assert L.Ring(nextFree, prevFree, FREE, free);
      forall a | Present(items, a) ensures a == 0 { OneBlock(items.first, a); }
    }

    /** A block goes first in the free list. */
    method PushFree(a: int)
      requires L.Ring(nextFree, prevFree, FREE, free) && a !in free && a != FREE
      modifies `nextFree, `prevFree, `free
      ensures L.Ring(nextFree, prevFree, FREE, free) && free == [a] + old(free)
    {
      assert [] + free == free && [] + [a] + free == [a] + free;
      L.RingParts(nextFree, prevFree, FREE, [], free);
      L.MembersKnown(nextFree, prevFree, FREE, free, FREE);
      L.LinkedIn(nextFree, prevFree, FREE, [], free, a);
      ghost var b := L.First(free, FREE);
      ghost var n, p := nextFree[FREE := a][a := b], prevFree[b := a][a := FREE];
      nextFree := nextFree[a := nextFree[FREE]];
      prevFree := prevFree[a := FREE];
      prevFree := prevFree[nextFree[FREE] := a];
      nextFree := nextFree[FREE := a];
      assert nextFree == n && prevFree == p;
      free := [a] + free;
    }

    /** A block is unlinked from the free list. */
    method PullFree(a: int)
      requires L.Ring(nextFree, prevFree, FREE, free) && a in free
      modifies `nextFree, `prevFree, `free
      ensures L.Ring(nextFree, prevFree, FREE, free) && free == Remove(old(free), a)
    {
      PlaceOf(free, a);
      ghost var p, q := Ahead(free, a), Rest(free, a);
      Bypassed(nextFree, prevFree, FREE, p, a, q);
      prevFree := prevFree[nextFree[a] := prevFree[a]];
      nextFree := nextFree[prevFree[a] := nextFree[a]];
      free := Remove(free, a);
    }

    /** The block at `a` is cut after n words; the rest gets a header in the block list. */
    method SplitBlock(a: int, n: nat)
      requires Headers(next, prev, used, items, end) && Tiles(items, 0, end) && Present(items, a) && n >= MIN && n + HDR + MIN <= SizeAt(items, a)
      modifies `next, `prev, `used, `items
      ensures Headers(next, prev, used, items, end) && items == Split(old(items), a, n)
    {
      HeaderFacts(next, prev, used, items, end, a);
      SplitHeaders(next, prev, used, items, end, a, n);
      var cut, b := a + HDR + n, next[a];
      AtRange(items, a, 0, end);
      ghost var next', prev' := next[a := cut][cut := b], prev[b := cut][cut := a];
      used := used[cut := false];
      prev := prev[cut := a];
      next := next[cut := next[a]];
      prev := prev[next[a] := cut];
      next := next[a := cut];
      assert next == next' && prev == prev';
      items := Split(items, a, n);
    }

    /** The block at `a` absorbs the free block behind it, header and all. */
    method Absorb(a: int)
      requires Headers(next, prev, used, items, end) && Tiles(items, 0, end) && Present(items, a) && FreeAt(items, a + HDR + SizeAt(items, a))
      modifies `next, `prev, `items
      ensures Headers(next, prev, used, items, end) && items == Join(old(items), a)
    {
      HeaderFacts(next, prev, used, items, end, a);
      JoinHeaders(next, prev, used, items, end, a);
      var right := next[a];
      prev := prev[next[right] := a];
      next := next[a := next[right]];
      items := Join(items, a);
    }

    /** The used bit of the magic word. */
    method SetUsed(a: int, u: bool)
      requires Headers(next, prev, used, items, end) && Tiles(items, 0, end) && Present(items, a)
      modifies `used, `items
      ensures Headers(next, prev, used, items, end) && items == Mark(old(items), a, u)
    {
      MarkedHeaders(next, prev, used, items, end, a, u);
      used := used[a := u];
      items := Mark(items, a, u);
    }

    method NoteMax()
      modifies `maxUsed
      ensures State() == old(Watermark(State()))
    {
      if end + HDR - available > maxUsed { maxUsed := end + HDR - available; }
    }

    // ----- rt_memheap_alloc

    /** The search of the free list. */
    method Search(n: nat) returns (a: int, freeSize: int)
      requires Valid() && n >= MIN
      ensures a == (if Find(items, free, n) == NULL then FREE else Find(items, free, n))
      ensures a == FREE <==> freeSize < n
      ensures a != FREE ==> freeSize == SizeAt(items, a)
    {
      SearchSpec(State(), n);
      L.PathEnds(nextFree, prevFree, FREE, free, FREE);
      L.MembersKnown(nextFree, prevFree, FREE, free, FREE);
      a := nextFree[FREE];
      freeSize := 0;
      ghost var ahead := free;
      while a != FREE && freeSize < n
        invariant freeSize < n ==> Find(items, free, n) == Find(items, ahead, n) && a == L.First(ahead, FREE)
        invariant freeSize < n ==> forall b :: b in ahead ==> b in free
        invariant freeSize < n && ahead != [] ==> L.Path(nextFree, prevFree, a, ahead[1..], FREE)
        invariant freeSize >= n ==> a == Find(items, free, n) && a in free && freeSize == SizeAt(items, a)
        invariant freeSize < n && ahead == [] ==> a == FREE
        decreases freeSize < n, |ahead|
      {
        assert ahead != [] && a == ahead[0] && a in free && FreeAt(items, a);
        HeaderFacts(next, prev, used, items, end, a);
        freeSize := next[a] - a - HDR;
        if freeSize < n {
          ahead := ahead[1..];
          L.PathEnds(nextFree, prevFree, a, ahead, FREE);
          a := nextFree[a];
        }
      }
    }

    /** The block found is handed out, cut if it is long enough. */
    method TakeBlock(a: int, n: nat, freeSize: int)
      requires Valid() && FreeAt(items, a) && n >= MIN && n <= freeSize == SizeAt(items, a)
      modifies this
      ensures Valid() && State() == old(Occupy(State(), a, n))
    {
      if freeSize >= n + HDR + MIN {
        SplitOff(State(), a, n);
        TakeFront(a, n);
      } else {
        TakeWhole(State(), a, n);
        TakeAll(a, freeSize);
      }
    }

    method TakeFront(a: int, n: nat)
      requires Valid() && FreeAt(items, a) && n >= MIN && n + HDR + MIN <= SizeAt(items, a)
      modifies this
      ensures Linked() && State() == old(Occupy(State(), a, n))
    {
      StillPresent(items, a, n, true);
      CutFront(a, n);
      available := available - n - HDR;
      NoteMax();
      SetUsed(a, true);
    }

    method TakeAll(a: int, freeSize: int)
      requires Valid() && FreeAt(items, a) && freeSize == SizeAt(items, a)
      modifies this
      ensures Linked() && items == Mark(old(items), a, true) && free == Remove(old(free), a)
      ensures State() == old(Watermark(State().(items := Mark(items, a, true), free := Remove(free, a), available := available - freeSize)))
    {
      available := available - freeSize;
      PullFree(a);
      NoteMax();
      SetUsed(a, true);
    }

    /** Split, and the two list changes that go with it. */
    method CutFront(a: int, n: nat)
      requires Valid() && FreeAt(items, a) && n >= MIN && n + HDR + MIN <= SizeAt(items, a)
      modifies `next, `prev, `used, `items, `nextFree, `prevFree, `free
      ensures Linked() && items == Split(old(items), a, n) && free == [a + HDR + n] + Remove(old(free), a) && Tiles(items, 0, end)
    {
      AtRange(items, a, 0, end);
      NotInside(items, a, a + HDR + n, 0, end);
      RemoveSpec(free, a);
      SplitSpec(items, a, n, 0, end);
      SplitBlock(a, n);
      PullFree(a);
      PushFree(a + HDR + n);
    }

    lemma StillPresent(bs: Items, a: int, n: nat, cut: bool)
      requires Tiles(bs, 0, end) && FreeAt(bs, a) && n >= MIN && (cut ==> n + HDR + MIN <= SizeAt(bs, a))
      ensures cut ==> Tiles(Split(bs, a, n), 0, end) && Present(Split(bs, a, n), a)
    {
      if cut { SplitSpec(bs, a, n, 0, end); }
    }

    /** rt_memheap_alloc */
    method Allocate(bytes: nat) returns (p: int)
      requires Valid() && bytes < WRAP
      modifies this
      ensures Valid() && (State(), p) == old(Alloc(State(), bytes))
    {
      var n := AlignWords(bytes);
      if n < MIN { n := MIN; }
      p := AllocateWords(n);
    }

    method AllocateWords(n: nat) returns (p: int)
      requires Valid() && n >= MIN
      modifies this
      ensures Valid() && (State(), p) == old(AllocWords(State(), n))
    {
      SearchSpec(State(), n);
      if n < available {
        var a, freeSize := Search(n);
        if freeSize >= n {
          TakeBlock(a, n, freeSize);
          return a + HDR;
        }
      }
      return NULL;
    }

    // ----- rt_memheap_free

    /** Merging with a free right neighbour. */
    method MergeNext(a: int)
      requires Linked() && AlmostInv(State(), a) && (FreeAt(items, a + HDR + SizeAt(items, a)) ==> a + HDR + SizeAt(items, a) in free)
      modifies this
      ensures Linked() && State() == old(MergeRight(State(), a))
    {
      HeaderFacts(next, prev, used, items, end, a);
      if !used[next[a]] {
        available := available + HDR;
        var right := next[a];
        Absorb(a);
        PullFree(right);
      }
    }

    /** rt_memheap_free on the block with header `a` */
    method ReleaseBlock(a: int)
      requires Valid() && UsedAt(items, a)
      modifies this
      ensures Valid() && State() == old(FreeBlock(State(), a))
    {
      FreeInv(State(), a);
      HeaderFacts(next, prev, used, items, end, a);
      if !used[prev[a]] {
        ReleaseLeft(a, prev[a]);
      } else {
        ReleaseAlone(a);
      }
    }

    /** The left neighbour is in use: the block enters the free list. */
    method ReleaseAlone(a: int)
      requires Valid() && UsedAt(items, a) && FreeBefore(items, a) == NULL
      modifies this
      ensures Linked() && State() == old(FreeBlock(State(), a))
    {
      ghost var h := State();
      ghost var h1 := h.(items := Mark(items, a, false), available := available + SizeAt(items, a));
      AloneParts(h, a);
      HeaderFacts(next, prev, used, items, end, a);
      available := available + (next[a] - a - HDR);
      SetUsed(a, false);
      assert State() == h1;
      AloneIs(h, a);
      MergeNext(a);
      PushFree(a);
    }

    /** The left neighbour is free: it absorbs the block. */
    method ReleaseLeft(a: int, left: int)
      requires Valid() && UsedAt(items, a) && left == FreeBefore(items, a) && left != NULL
      modifies this
      ensures Linked() && State() == old(FreeBlock(State(), a))
    {
      ghost var h := State();
      LeftParts(h, a);
      HeaderFacts(next, prev, used, items, end, a);
      available := available + (next[a] - a - HDR);
      SetUsed(a, false);
      available := available + HDR;
      Absorb(left);
      MergeNext(left);
    }

    // ----- rt_memheap_realloc

    /** Joins a block with the free one behind and cuts off what is not needed. */
    method Recut(a: int, n: nat)
      requires Linked() && Tiles(items, 0, end) && Present(items, a) && a >= 0 && n >= MIN
      requires var right := a + HDR + SizeAt(items, a);
        && FreeAt(items, right) && right in free && a + HDR + n !in Remove(free, right)
        && Tiles(Join(items, a), 0, end) && Present(Join(items, a), a) && n + HDR + MIN <= SizeAt(Join(items, a), a)
      modifies `next, `prev, `used, `nextFree, `prevFree, `items, `free
      ensures Linked() && items == old(Split(Join(items, a), a, n))
      ensures free == [a + HDR + n] + old(Remove(free, a + HDR + SizeAt(items, a)))
    {
      HeaderFacts(next, prev, used, items, end, a);
      PullFree(next[a]);
      Absorb(a);
      SplitBlock(a, n);
      PushFree(a + HDR + n);
    }

    /** The three ways to resize a block that need no other. */
    method GrowBlock(a: int, n: nat)
      requires Valid() && UsedAt(items, a) && n > SizeAt(items, a) && n >= MIN
      requires FreeAt(items, a + HDR + SizeAt(items, a)) && SizeAt(items, a + HDR + SizeAt(items, a)) + SizeAt(items, a) > n + MIN
      modifies this
      ensures Valid() && State() == old(Grow(State(), a, n))
    {
      GrowInv(State(), a, n);
      GrowParts(State(), a, n);
      HeaderFacts(next, prev, used, items, end, a);
      var right := next[a];
      available := available - (n - (right - a - HDR));
      NoteMax();
      Recut(a, n);
    }

    method ShrinkBlock(a: int, n: nat)
      requires Valid() && UsedAt(items, a) && n >= MIN && n + HDR + MIN < SizeAt(items, a)
      modifies this
      ensures Valid() && State() == old(Shrink(State(), a, n))
    {
      ShrinkInv(State(), a, n);
      ShrinkParts(State(), a, n);
      SplitBlock(a, n);
      InsertRemainder(a + HDR + n);
    }

    /** The remainder of a block that was cut, merged with what follows it if that is free. */
    method InsertRemainder(cut: int)
      requires Linked() && Tiles(items, 0, end) && FreeAt(items, cut) && cut >= 0 && cut !in free
      requires var right := cut + HDR + SizeAt(items, cut);
        && cut !in Remove(free, right)
        && (FreeAt(items, right) ==> right in free && Tiles(Join(items, cut), 0, end) && FreeAt(Join(items, cut), cut)
                                     && SizeAt(Join(items, cut), cut) == SizeAt(items, cut) + HDR + SizeAt(items, right))
      modifies this
      ensures Linked()
      ensures var right := cut + HDR + old(SizeAt(items, cut));
        if old(FreeAt(items, right))
        then items == old(Join(items, cut)) && free == [cut] + Remove(old(free), right) && available == old(available + SizeAt(items, cut)) + HDR
        else items == old(items) && free == [cut] + old(free) && available == old(available + SizeAt(items, cut))
      ensures maxUsed == old(maxUsed)
    {
      HeaderFacts(next, prev, used, items, end, cut);
      var right := next[cut];
      if !used[right] {
        HeaderFacts(next, prev, used, items, end, right);
        available := available - (next[right] - right - HDR);
        Absorb(cut);
        PullFree(right);
      }
      PushFree(cut);
      HeaderFacts(next, prev, used, items, end, cut);
      available := available + (next[cut] - cut - HDR);
    }

    /** rt_memheap_realloc: a block that moves takes its words along, and no other word of the pool changes. */
    method Reallocate(p: int, bytes: nat) returns (q: int)
      requires Valid() && LegalPointer(State(), p) && bytes < WRAP && Checked(State(), p, bytes)
      modifies this, pool
      ensures Valid() && (State(), q) == old(Realloc(State(), p, bytes))
      ensures p == NULL || q == NULL || q == p ==> pool[..] == old(pool[..])
      ensures p != NULL && q != NULL && q != p ==> CopiedBlock(old(pool[..]), pool[..], p, q, old(SizeAt(items, p - HDR)))
    {
      Behind(items, 0, end);
      if bytes == 0 {
        if p != NULL { ReleaseBlock(p - HDR); }
        return NULL;
      }
      var n := AlignWords(bytes);
      if n < MIN { n := MIN; }
      if p == NULL {
        q := AllocateWords(n);
        return;
      }
      q := ResizeBlock(p - HDR, n);
    }

    method ResizeBlock(a: int, n: nat) returns (q: int)
      requires Valid() && UsedAt(items, a) && a >= 0 && n >= MIN && Bounded(State(), a, n)
      modifies this, pool
      ensures Valid() && (State(), q) == old(Resize(State(), a, n))
      ensures q == NULL || q == a + HDR ==> pool[..] == old(pool[..])
      ensures q != NULL && q != a + HDR ==> CopiedBlock(old(pool[..]), pool[..], a + HDR, q, old(SizeAt(items, a)))
    {
      HeaderFacts(next, prev, used, items, end, a);
      AtRange(items, a, 0, end);
      var right := next[a];
      var size := right - a - HDR;
      if n > size {
        if !used[right] {
          HeaderFacts(next, prev, used, items, end, right);
          if next[right] - right - HDR + size > (n + MIN) % WORDS {
            GrowBlock(a, n);
            return a + HDR;
          }
        }
        q := MoveBlock(a, n, size);
        return;
      }
      if n + HDR + MIN >= size { return a + HDR; }
      ShrinkBlock(a, n);
      return a + HDR;
    }

    /** A new block for the old one, which is copied over before it is released. */
    method MoveBlock(a: int, n: nat, size: nat) returns (q: int)
      requires Valid() && UsedAt(items, a) && n >= MIN && size == SizeAt(items, a) < n
      modifies this, pool
      ensures Valid()
      ensures (State(), q) == old(var (h1, q) := AllocWords(State(), n); if q == NULL then (h1, NULL) else (FreeBlock(h1, a), q))
      ensures q == NULL ==> pool[..] == old(pool[..])
      ensures q != NULL ==> q != a + HDR && CopiedBlock(old(pool[..]), pool[..], a + HDR, q, size)
    {
      MoveApart(State(), a, n);
      q := AllocateWords(n);
      if q != NULL {
        CopyWords(a + HDR, q, size);
        ReleaseBlock(a);
      }
    }

    /** rt_memcpy between two blocks. */
    method CopyWords(p: nat, q: nat, size: nat)
      requires p + size <= pool.Length && q + size <= pool.Length && (p + size <= q || q + size <= p)
      modifies pool
      ensures pool[..] == Copied(old(pool[..]), q, p, size)
    {
      ghost var before := pool[..];
      var i: nat := 0;
      while i < size
        invariant |before| == pool.Length && i <= size && pool[..] == Copied(before, q, p, i)
      {
        CopiedWord(before, p, q, size, i);
        pool[q + i] := pool[p + i];
        i := i + 1;
      }
    }
  }
}
