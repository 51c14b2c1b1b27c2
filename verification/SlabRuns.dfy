/** Whole runs of the slab allocator: the blocks handed out follow a simple ledger, and giving them all
    back returns the pages. */
module SlabRuns {
  import opened Arithmetic
  import MemoryRoutines
  import PageRuns
  import Sequences
  import opened SlabSpec
  import opened SlabTheorems

  // ----- rt_system_heap_init

  lemma {:induction false} ZoneSizes(size: nat, bytes: nat)
    requires size in {32768, 65536, 131072}
    ensures GrowZone(size, bytes) in {32768, 65536, 131072}
    decreases 131072 - size
  {
    if size < 131072 && 2 * size < bytes / 1024 { ZoneSizes(2 * size, bytes); }
  }

  /** The zone size is the smallest of the three that is at least half of a 1024th of the heap, or the largest. */
  lemma {:induction false} GrowZoneExact(size: nat, bytes: nat)
    requires size in {32768, 65536, 131072}
    ensures var z := GrowZone(size, bytes); (z == 131072 || (z >= size && 2 * z >= bytes / 1024)) && (z > size ==> z < bytes / 1024)
    decreases 131072 - size
  {
    if size < 131072 && 2 * size < bytes / 1024 { GrowZoneExact(2 * size, bytes); }
  }

  /** The table takes the fewest pages that hold a word for each page. */
  lemma TableFits(npages: nat)
    ensures TablePages(npages) * PAGE >= 4 * npages && (npages > 0 ==> (TablePages(npages) - 1) * PAGE < 4 * npages)
  {
    RoundIs(4 * npages, PAGE);
  }

  lemma InitInv(words: seq<Usage>)
    requires words != []
    ensures Inv(Init(words)) && forall a, n :: !Live(Init(words), a, n)
  {
    var n, t, s := |words|, TablePages(|words|), Init(words);
    ZoneSizes(32768, n * PAGE);
    assert 1 <= t <= n;
    forall i: nat ensures PageRuns.Free(s.pages, i) <==> t <= i < n { assert s.pages.Cons? ==> s.pages.rest.Nil?; }
    assert Spans(s) == map[];
  }

  // ----- rt_realloc

  /** The new block is filled before the old one is freed. */
  function Move(s: Slab, ptr: int, size: nat): (Slab, int)
    requires Inv(s) && size < WRAP && exists n :: Live(s, ptr, n)
  {
    MallocSpec(s, size);
    var (s1, np) := Malloc(s, size);
    if np == NULL then (s1, NULL)
    else
      Freeable(s1, ptr);
      (Free(s1, ptr), np)
  }

  lemma Freeable(s: Slab, ptr: int)
    requires Inv(s) && exists n :: Live(s, ptr, n)
    ensures ptr >= 0 && Known(s, ptr)
  {
    var n :| Live(s, ptr, n);
    LeadsHome(s, ptr, n);
  }

  function Realloc(s: Slab, ptr: int, size: nat): (Slab, int)
    requires Inv(s) && size < WRAP && (ptr == NULL || exists n :: Live(s, ptr, n))
  {
    if ptr == NULL then Malloc(s, size)
    else
      Freeable(s, ptr);
      if size == 0 then (Free(s, ptr), NULL)
      else if InLarge(s, ptr) then Move(s, ptr, size)
      else if s.zones[ZoneOf(s, ptr)].chunk == ChunkSize(size) then (s, ptr)
      else Move(s, ptr, ChunkSize(size))
  }

  /** Moving gives up the old block for a new one that is long enough, or changes nothing. */
  lemma MoveSpec(s: Slab, ptr: int, n: nat, size: nat)
    requires Inv(s) && size < WRAP && Live(s, ptr, n)
    ensures var (s', np) := Move(s, ptr, size);
      && Inv(s')
      && (np == NULL ==> s' == s)
      && (np != NULL ==>
            && np != ptr && size <= Granted(s, size) && (forall m :: !Live(s, np, m))
            && forall b, m :: Live(s', b, m) <==> (Live(s, b, m) && b != ptr) || (b == np && m == Granted(s, size)))
  {
    MallocSpec(s, size);
    var (s1, np) := Malloc(s, size);
    if np != NULL { FreeSpec(s1, ptr, n); }
  }

  /** The size realloc asks for when it has to move: rounded already, unless the block is a page run. */
  function Asked(s: Slab, ptr: nat, size: nat): nat { if InLarge(s, ptr) then size else ChunkSize(size) }

  /** The bytes it copies. */
  function CopyCount(s: Slab, ptr: nat, size: nat, n: nat): nat { if Asked(s, ptr, size) > n then n else Asked(s, ptr, size) }

  lemma AskedEnough(s: Slab, ptr: nat, size: nat)
    requires 0 < size < WRAP
    ensures size <= Asked(s, ptr, size) < WRAP
  {
    if size < MAX_SMALL { ClassFacts(size); }
  }

  predicate Suits(s: Slab, ptr: nat, size: nat) {
    !InLarge(s, ptr) && InZone(s, ptr) && s.zones[ZoneOf(s, ptr)].chunk == ChunkSize(size)
  }

  lemma ReallocIs(s: Slab, ptr: nat, n: nat, size: nat)
    requires Inv(s) && 0 < size < WRAP && Live(s, ptr, n)
    ensures size <= Asked(s, ptr, size) < WRAP
    ensures Realloc(s, ptr, size) == if Suits(s, ptr, size) then (s, ptr) else Move(s, ptr, Asked(s, ptr, size))
    ensures Suits(s, ptr, size) ==> size <= n
  {
    LeadsHome(s, ptr, n);
    AskedEnough(s, ptr, size);
  }

  /** Realloc of a block: it stays, or it moves with its contents, or nothing happens; no other block changes. */
  lemma ReallocSpec(s: Slab, ptr: nat, n: nat, size: nat)
    requires Inv(s) && 0 < size < WRAP && Live(s, ptr, n)
    ensures var (s', r) := Realloc(s, ptr, size);
      && Inv(s')
      && (r == NULL || r == ptr ==> s' == s)
      && (r == ptr ==> size <= n)
      && (r != NULL && r != ptr ==>
            var m := Granted(s, Asked(s, ptr, size));
            && (forall k :: !Live(s, r, k))
            && (if size < n then size else n) <= CopyCount(s, ptr, size, n) <= n && CopyCount(s, ptr, size, n) <= m
            && forall b, k :: Live(s', b, k) <==> (Live(s, b, k) && b != ptr) || (b == r && k == m))
  {
    ReallocIs(s, ptr, n, size);
    MoveSpec(s, ptr, n, Asked(s, ptr, size));
  }

  /** rt_realloc leaves a chunk where it is exactly if the request is of its own class, and a page run never; it fails
      exactly if the block must move and nothing is left for the size it then asks for. */
  lemma ReallocFails(s: Slab, ptr: nat, n: nat, size: nat)
    requires Inv(s) && 0 < size < WRAP && Live(s, ptr, n)
    ensures var r, stays := Realloc(s, ptr, size).1, !PagesAt(s, PageOf(ptr), ptr, n) && n == ChunkSize(size);
      && (r == ptr <==> stays)
      && (r == NULL <==> !stays && Exhausted(s, if PagesAt(s, PageOf(ptr), ptr, n) then size else ChunkSize(size)))
  {
    LeadsHome(s, ptr, n);
    RunOrChunk(s, ptr, n);
    ReallocIs(s, ptr, n, size);
    if !Suits(s, ptr, size) {
      var m := Asked(s, ptr, size);
      MallocSpec(s, m);
      MoveSpec(s, ptr, n, m);
    }
  }

  lemma RunOrChunk(s: Slab, ptr: nat, n: nat)
    requires Inv(s) && Live(s, ptr, n)
    ensures InLarge(s, ptr) <==> PagesAt(s, PageOf(ptr), ptr, n)
    ensures !InLarge(s, ptr) ==> InZone(s, ptr) && s.zones[ZoneOf(s, ptr)].chunk == n
  {
    LeadsHome(s, ptr, n);
    assert PagesAt(s, PageOf(ptr), ptr, n) ==> InLarge(s, ptr);
  }

  /** rt_realloc of a block to nothing gives it up. */
  lemma ReallocToNothing(s: Slab, ptr: nat, n: nat)
    requires Inv(s) && Live(s, ptr, n)
    ensures var (s', r) := Realloc(s, ptr, 0); r == NULL && Inv(s') && Drops(s, s', ptr)
  {
    FreeSpec(s, ptr, n);
  }

  // ----- the bytes of the blocks

  /** The length of the block at `ptr`, as rt_realloc finds it. */
  function Length(s: Slab, ptr: nat): nat
    requires Known(s, ptr)
  {
    if InLarge(s, ptr) then s.usage[PageOf(ptr)].pages * PAGE else s.zones[ZoneOf(s, ptr)].chunk
  }

  lemma LengthIs(s: Slab, ptr: int, n: nat)
    requires Inv(s) && Live(s, ptr, n)
    ensures ptr >= 0 && Known(s, ptr) && Length(s, ptr) == n
  {
    LeadsHome(s, ptr, n);
  }

  lemma BlockInside(s: Slab, a: int, n: nat)
    requires Inv(s) && Live(s, a, n)
    ensures 0 <= a && a + n <= |s.usage| * PAGE
  {
    var p: nat := LiveSpan(s, a, n);
    assert Owned(Spans(s), p + Spans(s)[p] - 1);
  }

  /** What a move copies, with rt_memcpy, before the old block is freed. */
  function Moved(mem: MemoryRoutines.Memory, r: int, ptr: nat, count: nat): MemoryRoutines.Memory {
    if 0 <= r && r + count <= |mem| && ptr + count <= |mem| then MemoryRoutines.Forward(mem, r, ptr, count) else mem
  }

  /** The bytes of the heap after rt_realloc of a block; the allocator's own data are not among them. */
  function Contents(s: Slab, mem: MemoryRoutines.Memory, ptr: nat, size: nat): MemoryRoutines.Memory
    requires Inv(s) && 0 < size < WRAP && exists n :: Live(s, ptr, n)
  {
    Freeable(s, ptr);
    var r := Realloc(s, ptr, size).1;
    if r == NULL || r == ptr then mem else Moved(mem, r, ptr, CopyCount(s, ptr, size, Length(s, ptr)))
  }

  /** A new block shares no byte with one handed out before. */
  lemma NewApart(s: Slab, size: nat, b: int, k: nat)
    requires Inv(s) && size < WRAP && Live(s, b, k) && Malloc(s, size).1 != NULL
    ensures var np, m := Malloc(s, size).1, Granted(s, size);
      0 <= np && np + m <= |s.usage| * PAGE && 0 <= b && b + k <= |s.usage| * PAGE && (b + k <= np || np + m <= b)
  {
    MallocSpec(s, size);
    var (s1, np) := Malloc(s, size);
    assert Live(s1, np, Granted(s, size)) && Live(s1, b, k) && !Live(s, np, k);
    UsageStays(s, size);
    BlockInside(s1, np, Granted(s, size));
    BlockInside(s, b, k);
    LiveApart(s1, b, k, np, Granted(s, size));
    LiveApart(s1, np, Granted(s, size), b, k);
  }

  lemma UsageStays(s: Slab, size: nat)
    requires Inv(s) && size < WRAP
    ensures |Malloc(s, size).0.usage| == |s.usage|
  {
    MallocSpec(s, size);
  }

  /** `c` bytes that were at `ptr` are now at `r`. */
  ghost predicate Carried(mem: MemoryRoutines.Memory, after: MemoryRoutines.Memory, ptr: int, r: int, c: nat) {
    && |after| == |mem| && 0 <= ptr && ptr + c <= |mem| && 0 <= r && r + c <= |mem|
    && after[r..r + c] == mem[ptr..ptr + c]
  }

  lemma CopyCarries(mem: MemoryRoutines.Memory, r: nat, ptr: nat, count: nat, c: nat)
    requires r + count <= |mem| && ptr + count <= |mem| && c <= count
    ensures Carried(mem, Sequences.Copied(mem, r, ptr, count), ptr, r, c)
  {
    Sequences.CopiedFront(mem, r, ptr, count, c);
  }

  /** The new block begins with the bytes of the old one, as many as both have, ... */
  lemma ReallocContents(s: Slab, mem: MemoryRoutines.Memory, ptr: nat, n: nat, size: nat)
    requires Inv(s) && 0 < size < WRAP && Live(s, ptr, n) && |mem| == |s.usage| * PAGE
    ensures var r, after := Realloc(s, ptr, size).1, Contents(s, mem, ptr, size);
            if r == NULL then after == mem else Carried(mem, after, ptr, r, if size < n then size else n)
  {
    var r, c := Realloc(s, ptr, size).1, if size < n then size else n;
    ReallocIs(s, ptr, n, size);
    BlockInside(s, ptr, n);
    ContentsIs(s, mem, ptr, n, size);
    if r == ptr {
      assert Carried(mem, mem, ptr, ptr, c);
    } else if r != NULL {
      CopyCarries(mem, r, ptr, CopyCount(s, ptr, size, n), c);
    }
  }

  /** A move copies within the heap, between blocks that do not overlap. */
  lemma ContentsIs(s: Slab, mem: MemoryRoutines.Memory, ptr: nat, n: nat, size: nat)
    requires Inv(s) && 0 < size < WRAP && Live(s, ptr, n) && |mem| == |s.usage| * PAGE
    ensures var r, c := Realloc(s, ptr, size).1, CopyCount(s, ptr, size, n);
      r != NULL && r != ptr ==>
        && 0 <= r && r + c <= |mem| && ptr + c <= |mem| && (if size < n then size else n) <= c
        && Contents(s, mem, ptr, size) == Sequences.Copied(mem, r, ptr, c)
  {
    ReallocIs(s, ptr, n, size);
    LengthIs(s, ptr, n);
    var r, c := Realloc(s, ptr, size).1, CopyCount(s, ptr, size, n);
    if r != NULL && r != ptr {
      ReallocSpec(s, ptr, n, size);
      NewApart(s, Asked(s, ptr, size), ptr, n);
      MovedIs(mem, r, ptr, c);
    }
  }

  /** ... and all other blocks keep theirs. */
  lemma ReallocFrame(s: Slab, mem: MemoryRoutines.Memory, ptr: nat, n: nat, size: nat, b: int, k: nat)
    requires Inv(s) && 0 < size < WRAP && Live(s, ptr, n) && |mem| == |s.usage| * PAGE
    requires Live(Realloc(s, ptr, size).0, b, k) && b != Realloc(s, ptr, size).1
    ensures Carried(mem, Contents(s, mem, ptr, size), b, b, k)
  {
    ReallocIs(s, ptr, n, size);
    ReallocSpec(s, ptr, n, size);
    ContentsIs(s, mem, ptr, n, size);
    var r := Realloc(s, ptr, size).1;
    assert Live(s, b, k);
    BlockInside(s, b, k);
    if r != NULL && r != ptr {
      NewApart(s, Asked(s, ptr, size), b, k);
      CopyLeaves(mem, r, ptr, CopyCount(s, ptr, size, n), b, k);
    }
  }

  lemma CopyLeaves(mem: MemoryRoutines.Memory, r: nat, ptr: nat, count: nat, b: nat, k: nat)
    requires r + count <= |mem| && ptr + count <= |mem| && b + k <= |mem| && (b + k <= r || r + count <= b)
    ensures Carried(mem, Sequences.Copied(mem, r, ptr, count), b, b, k)
  {
    Sequences.CopiedElsewhere(mem, r, ptr, count, b, k);
  }

  lemma MovedIs(mem: MemoryRoutines.Memory, r: nat, ptr: nat, c: nat)
    requires r + c <= |mem| && ptr + c <= |mem| && (r + c <= ptr || ptr + c <= r)
    ensures Moved(mem, r, ptr, c) == Sequences.Copied(mem, r, ptr, c)
  {
    MemoryRoutines.ForwardCopies(mem, r, ptr, c);
  }

  /** What a caller of Malloc and then of Free can rely on. */
  lemma MoveFacts(s: Slab, ptr: nat, n: nat, size: nat)
    requires Inv(s) && size < WRAP && Live(s, ptr, n) && Malloc(s, size).1 != NULL
    ensures var (s1, np) := Malloc(s, size);
      && 0 <= np && np + Granted(s, size) <= |s.usage| * PAGE && ptr + n <= |s.usage| * PAGE
      && size <= Granted(s, size) && |s1.usage| == |s.usage| && Inv(s1) && Live(s1, ptr, n)
      && Legal(s1, DoFree(ptr)) && Move(s, ptr, size) == (Step(s1, DoFree(ptr)).0, np)
  {
    MallocSpec(s, size);
    NewApart(s, size, ptr, n);
    UsageStays(s, size);
  }

  /** rt_realloc of a block, its bytes included. */
  lemma ReallocSteps(s: Slab, mem: MemoryRoutines.Memory, ptr: nat, n: nat, size: nat)
    requires Inv(s) && 0 < size < WRAP && Live(s, ptr, n)
    ensures Known(s, ptr) && Length(s, ptr) == n && size <= Asked(s, ptr, size) < WRAP
    ensures var asked := Asked(s, ptr, size);
            var r := if Suits(s, ptr, size) then (s, ptr) else Move(s, ptr, asked);
      && Legal(s, DoRealloc(ptr, size)) && Step(s, DoRealloc(ptr, size)) == r
      && Contents(s, mem, ptr, size) == if Suits(s, ptr, size) || r.1 == NULL then mem else Moved(mem, r.1, ptr, if asked > n then n else asked)
  {
    ReallocIs(s, ptr, n, size);
    LengthIs(s, ptr, n);
    if !Suits(s, ptr, size) { MoveSpec(s, ptr, n, Asked(s, ptr, size)); }
  }

  // ----- runs

  datatype Op = DoMalloc(size: nat) | DoFree(ptr: int) | DoRealloc(ptr: int, size: nat)

  /** Callers free and resize only what they hold. */
  ghost predicate Legal(s: Slab, op: Op) {
    match op
    case DoMalloc(size) => size < WRAP
    case DoFree(ptr) => ptr == NULL || exists n :: Live(s, ptr, n)
    case DoRealloc(ptr, size) => size < WRAP && (ptr == NULL || exists n :: Live(s, ptr, n))
  }

  function Step(s: Slab, op: Op): (Slab, int)
    requires Inv(s) && Legal(s, op)
  {
    match op
    case DoMalloc(size) => Malloc(s, size)
    case DoFree(ptr) =>
      if ptr != NULL then Freeable(s, ptr); (Free(s, ptr), NULL) else (s, NULL)
    case DoRealloc(ptr, size) => Realloc(s, ptr, size)
  }

  /** What the callers hold, from the results alone: address to length. */
  ghost function Held(s: Slab, op: Op, held: map<int, nat>): map<int, nat>
    requires Inv(s) && Legal(s, op)
  {
    var r := Step(s, op).1;
    match op
    case DoMalloc(size) => if r == NULL then held else held[r := Granted(s, size)]
    case DoFree(ptr) => held - {ptr}
    case DoRealloc(ptr, size) =>
      if ptr == NULL then if r == NULL then held else held[r := Granted(s, size)]
      else if size == 0 then held - {ptr}
      else if r == NULL || r == ptr then held
      else
        Freeable(s, ptr);
        (held - {ptr})[r := Granted(s, Asked(s, ptr, size))]
  }

  ghost predicate Agrees(s: Slab, held: map<int, nat>) {
    forall a, n :: Live(s, a, n) <==> a in held && held[a] == n
  }

  lemma MallocKeeps(s: Slab, size: nat, held: map<int, nat>)
    requires Inv(s) && size < WRAP && Agrees(s, held)
    ensures var (s', a) := Malloc(s, size); Agrees(s', if a == NULL then held else held[a := Granted(s, size)])
  {
    MallocSpec(s, size);
  }

  lemma ReallocKeeps(s: Slab, ptr: nat, size: nat, held: map<int, nat>)
    requires Inv(s) && 0 < size < WRAP && Agrees(s, held) && exists n :: Live(s, ptr, n)
    ensures var (s', r) := Realloc(s, ptr, size);
      Agrees(s', if r == NULL || r == ptr then held else (held - {ptr})[r := Granted(s, Asked(s, ptr, size))])
  {
    var n :| Live(s, ptr, n);
    ReallocSpec(s, ptr, n, size);
  }

  lemma StepKeeps(s: Slab, op: Op, held: map<int, nat>)
    requires Inv(s) && Legal(s, op) && Agrees(s, held)
    ensures Agrees(Step(s, op).0, Held(s, op, held))
  {
    match op
    case DoMalloc(size) => MallocKeeps(s, size, held);
    case DoFree(ptr) =>
      if ptr != NULL { FreeKeeps(s, ptr, held); } else { NothingHeldAtNull(s, held); }
    case DoRealloc(ptr, size) =>
      if ptr == NULL { MallocKeeps(s, size, held); }
      else if size == 0 { FreeKeeps(s, ptr, held); }
      else {
        Freeable(s, ptr);
        ReallocKeeps(s, ptr, size, held);
      }
  }

  lemma NothingHeldAtNull(s: Slab, held: map<int, nat>)
    requires Inv(s) && Agrees(s, held)
    ensures NULL !in held
  {
    if NULL in held { LiveApart(s, NULL, held[NULL], NULL, held[NULL]); }
  }

  lemma FreeKeeps(s: Slab, ptr: int, held: map<int, nat>)
    requires Inv(s) && Agrees(s, held) && exists n :: Live(s, ptr, n)
    ensures ptr >= 0 && Known(s, ptr)
    ensures Agrees(Free(s, ptr), held - {ptr})
  {
    var n :| Live(s, ptr, n);
    FreeSpec(s, ptr, n);
    DropAgrees(s, Free(s, ptr), ptr, held);
  }

  lemma DropAgrees(s: Slab, r: Slab, ptr: nat, held: map<int, nat>)
    requires Agrees(s, held) && Drops(s, r, ptr)
    ensures Agrees(r, held - {ptr})
  {
  }

  lemma StepInv(s: Slab, op: Op)
    requires Inv(s) && Legal(s, op)
    ensures Inv(Step(s, op).0)
  {
    match op
    case DoMalloc(size) => MallocSpec(s, size);
    case DoFree(ptr) =>
      if ptr != NULL {
        var n :| Live(s, ptr, n);
        FreeSpec(s, ptr, n);
      }
    case DoRealloc(ptr, size) =>
      if ptr == NULL { MallocSpec(s, size); }
      else {
        var n :| Live(s, ptr, n);
        Freeable(s, ptr);
        if size == 0 { FreeSpec(s, ptr, n); } else { ReallocSpec(s, ptr, n, size); }
      }
  }

  /** What free finds at the address of a block: its page run, ... */
  lemma FindsRun(s: Slab, ptr: nat)
    requires Inv(s) && InLarge(s, ptr) && exists n :: Live(s, ptr, n)
    ensures var p, n := PageOf(ptr), s.usage[PageOf(ptr)].pages;
      n > 0 && p + n <= |s.usage| && PageRuns.Apart(s.pages, PageRuns.Run(p, n)) && Free(s, ptr) == FreeLarge(s, p, n)
  {
    var n :| Live(s, ptr, n);
    LeadsHome(s, ptr, n);
    FreeLargeInv(s, PageOf(ptr));
    SpanOf(s, PageOf(ptr));
  }

  /** ... or its chunk in its zone. */
  lemma FindsChunk(s: Slab, ptr: nat)
    requires Inv(s) && !InLarge(s, ptr) && exists n :: Live(s, ptr, n)
    ensures InZone(s, ptr) && PlaceOf(ZoneOf(s, ptr), s.zones[ZoneOf(s, ptr)], ptr) >= 0
    ensures var z := ZoneOf(s, ptr);
            var k := PlaceOf(z, s.zones[z], ptr);
            s.zones[z].chunk > 0 && InUse(s.zones[z], k) && Free(s, ptr) == FreeChunk(s, z, k)
  {
    var n :| Live(s, ptr, n);
    LeadsHome(s, ptr, n);
  }

  ghost predicate LegalRun(s: Slab, ops: seq<Op>)
    requires Inv(s)
    decreases |ops|
  {
    ops != [] ==>
      && Legal(s, ops[0])
      && (StepInv(s, ops[0]);
          LegalRun(Step(s, ops[0]).0, ops[1..]))
  }

  ghost function After(s: Slab, ops: seq<Op>): Slab
    requires Inv(s) && LegalRun(s, ops)
    decreases |ops|
  {
    if ops == [] then s
    else
      StepInv(s, ops[0]);
      After(Step(s, ops[0]).0, ops[1..])
  }

  ghost function HeldAfter(s: Slab, ops: seq<Op>, held: map<int, nat>): map<int, nat>
    requires Inv(s) && LegalRun(s, ops)
    decreases |ops|
  {
    if ops == [] then held
    else
      StepInv(s, ops[0]);
      HeldAfter(Step(s, ops[0]).0, ops[1..], Held(s, ops[0], held))
  }

  lemma {:induction false} RunKeeps(s: Slab, ops: seq<Op>, held: map<int, nat>)
    requires Inv(s) && LegalRun(s, ops) && Agrees(s, held) && Tidy(s)
    ensures Inv(After(s, ops)) && Agrees(After(s, ops), HeldAfter(s, ops, held)) && Tidy(After(s, ops))
    decreases |ops|
  {
    if ops != [] {
      StepInv(s, ops[0]);
      StepKeeps(s, ops[0], held);
      StepTidy(s, ops[0]);
      RunKeeps(Step(s, ops[0]).0, ops[1..], Held(s, ops[0], held));
    }
  }

  /** Over every run from an empty heap the allocator agrees with the ledger, and the blocks in the ledger
      share no byte. */
  lemma RunsAreSafe(words: seq<Usage>, ops: seq<Op>)
    requires words != []
    ensures Inv(Init(words))
    ensures LegalRun(Init(words), ops) ==>
              var s, held := After(Init(words), ops), HeldAfter(Init(words), ops, map[]);
              && Inv(s) && Agrees(s, held)
              && forall a, b :: a in held && b in held && a < b ==> 0 <= a && 0 < held[a] && a + held[a] <= b
  {
    InitInv(words);
    InitTidy(words);
    if LegalRun(Init(words), ops) {
      RunKeeps(Init(words), ops, map[]);
      var s, held := After(Init(words), ops), HeldAfter(Init(words), ops, map[]);
      forall a, b | a in held && b in held && a < b ensures 0 <= a && 0 < held[a] && a + held[a] <= b {
        LiveApart(s, a, held[a], b, held[b]);
      }
    }
  }

  // ----- no zone is kept without need

  ghost predicate Whole(s: Slab, z: nat) { z in s.zones && s.zones[z].nfree == s.zones[z].nmax }

  /** No size class keeps two zones without a chunk in use. */
  ghost predicate Tidy(s: Slab) {
    forall y, z :: Whole(s, y) && Whole(s, z) && s.zones[y].zi == s.zones[z].zi ==> y == z
  }

  lemma InitTidy(words: seq<Usage>)
    requires words != []
    ensures Tidy(Init(words))
  {
  }

  /** A step that makes no zone whole keeps order. */
  lemma FewerWhole(s: Slab, s': Slab)
    requires Tidy(s) && forall z :: Whole(s', z) ==> Whole(s, z) && s'.zones[z].zi == s.zones[z].zi
    ensures Tidy(s')
  {
  }

  lemma TakeTidy(s: Slab, zi: nat)
    requires Inv(s) && Tidy(s) && zi < NZONES && s.classes[zi] != []
    requires s.classes[zi][0] in s.zones && HasChunk(s.zones[s.classes[zi][0]])
    ensures Tidy(TakeChunk(s, zi).0)
  {
    WholeZone(s.zoneSize, s.zones[s.classes[zi][0]]);
    FewerWhole(s, TakeChunk(s, zi).0);
  }

  lemma OpenTidy(s: Slab, z: nat, zi: nat)
    requires Tidy(s) && zi < |s.classes| && zi < NZONES && s.zoneSize >= 32768 && 4 * ClassChunk(zi) <= s.zoneSize
    requires FirstChunk(ClassChunk(zi)) + ClassChunk(zi) <= s.zoneSize
    ensures Tidy(OpenZone(s, z, zi, ClassChunk(zi)).0)
  {
    NewZoneOk(s.zoneSize, zi);
    FewerWhole(s, OpenZone(s, z, zi, ClassChunk(zi)).0);
  }

  lemma SameZones(s: Slab, s': Slab)
    requires Tidy(s) && s'.zones == s.zones
    ensures Tidy(s')
  {
    FewerWhole(s, s');
  }

  lemma MallocTidy(s: Slab, size: nat)
    requires Inv(s) && Tidy(s)
    ensures Tidy(Malloc(s, size).0)
  {
    if 0 < size < Limit(s) {
      Ready(s, size);
      var zi := ZoneIndex(size);
      if s.classes[zi] != [] {
        TakeTidy(s, zi);
      } else if s.cache != [] {
        var s0 := s.(cache := s.cache[1..]);
        SameZones(s, s0);
        OpenTidy(s0, s.cache[0], zi);
      } else {
        var (pages, z) := PageRuns.Alloc(s.pages, ZonePages(s));
        if z < 0 {
          SameZones(s, s.(pages := pages));
        } else {
          var s0 := s.(pages := pages, usage := MarkZone(s.usage, z, ZonePages(s)));
          SameZones(s, s0);
          OpenTidy(s0, z, zi);
        }
      }
    } else {
      SameZones(s, Malloc(s, size).0);
    }
  }

  /** The zone a chunk came back to may stay whole only if its class lists no other. */
  lemma StaysAlone(s: Slab, s1: Slab, z: nat)
    requires Tidy(s) && ClassesOk(s1) && z in s1.zones && s1.zones[z].zi < NZONES && s1.classes[s1.zones[z].zi] == [z]
    requires forall y :: Whole(s1, y) ==> s1.zones[y].nfree > 0 && (y != z ==> Whole(s, y) && s1.zones[y].zi == s.zones[y].zi)
    ensures Tidy(s1)
  {
    forall y | Whole(s1, y) && s1.zones[y].zi == s1.zones[z].zi ensures y == z {
      assert y in s1.classes[s1.zones[z].zi];
    }
  }

  lemma PutTidy(s: Slab, z: nat, k: nat)
    requires Inv(s) && Tidy(s) && z in s.zones && InUse(s.zones[z], k)
    ensures Tidy(FreeChunk(s, z, k))
  {
    var s1 := PutChunk(s, z, k);
    PutInv(s, z, k);
    PutWhole(s, z, k);
    if !Whole(s1, z) {
      FewerWhole(s, s1);
    } else if s1.classes[s.zones[z].zi] == [z] {
      StaysAlone(s, s1, z);
    } else {
      WithoutZone(s, s1, z);
      RetiredZones(s1, z, s.zones[z].zi);
      SameZones(s1.(zones := s1.zones - {z}), FreeChunk(s, z, k));
    }
  }

  lemma RetiredZones(s: Slab, z: nat, zi: nat)
    requires zi < |s.classes|
    ensures Retire(s, z, zi).zones == s.zones - {z}
  {
  }

  lemma PutWhole(s: Slab, z: nat, k: nat)
    requires z in s.zones && s.zones[z].zi < |s.classes|
    ensures forall y :: y != z && Whole(PutChunk(s, z, k), y) ==> Whole(s, y) && PutChunk(s, z, k).zones[y].zi == s.zones[y].zi
  {
  }

  lemma WithoutZone(s: Slab, s1: Slab, z: nat)
    requires Tidy(s) && forall y :: y != z && Whole(s1, y) ==> Whole(s, y) && s1.zones[y].zi == s.zones[y].zi
    ensures Tidy(s1.(zones := s1.zones - {z}))
  {
    FewerWhole(s, s1.(zones := s1.zones - {z}));
  }

  lemma FreeTidy(s: Slab, ptr: int)
    requires Inv(s) && Tidy(s) && exists n :: Live(s, ptr, n)
    ensures ptr >= 0 && Known(s, ptr)
    ensures Tidy(Free(s, ptr))
  {
    var n :| Live(s, ptr, n);
    LeadsHome(s, ptr, n);
    if InLarge(s, ptr) {
      FewerWhole(s, Free(s, ptr));
    } else {
      PutTidy(s, ZoneOf(s, ptr), PlaceOf(ZoneOf(s, ptr), s.zones[ZoneOf(s, ptr)], ptr));
    }
  }

  lemma MoveTidy(s: Slab, ptr: int, size: nat)
    requires Inv(s) && Tidy(s) && size < WRAP && exists n :: Live(s, ptr, n)
    ensures Tidy(Move(s, ptr, size).0)
  {
    MallocSpec(s, size);
    MallocTidy(s, size);
    if Malloc(s, size).1 != NULL { FreeTidy(Malloc(s, size).0, ptr); }
  }

  lemma StepTidy(s: Slab, op: Op)
    requires Inv(s) && Tidy(s) && Legal(s, op)
    ensures Tidy(Step(s, op).0)
  {
    match op
    case DoMalloc(size) => MallocTidy(s, size);
    case DoFree(ptr) => if ptr != NULL { FreeTidy(s, ptr); }
    case DoRealloc(ptr, size) =>
      if ptr == NULL { MallocTidy(s, size); }
      else {
        FreeTidy(s, ptr);
        if size > 0 {
          AskedEnough(s, ptr, size);
          MoveTidy(s, ptr, Asked(s, ptr, size));
        }
      }
  }

  /** A set with a different number below `n` for each element has at most `n` elements. */
  lemma {:induction false} OneEach(a: set<nat>, f: map<nat, nat>, n: nat)
    requires a <= f.Keys && (forall z :: z in a ==> f[z] < n) && forall y, z :: y in a && z in a && f[y] == f[z] ==> y == z
    ensures |a| <= n
    decreases n
  {
    if n == 0 {
      assert a == {};
    } else if z :| z in a && f[z] == n - 1 {
      OneEach(a - {z}, f, n - 1);
      assert a == (a - {z}) + {z};
    } else {
      OneEach(a, f, n - 1);
    }
  }

  lemma NothingLarge(s: Slab)
    requires Inv(s) && forall a, n :: !Live(s, a, n)
    ensures s.large == map[]
  {
    LargeLives(s);
  }

  lemma LargeLives(s: Slab)
    ensures forall p :: p in s.large ==> Live(s, p * PAGE, s.large[p] * PAGE)
  {
    forall p | p in s.large ensures Live(s, p * PAGE, s.large[p] * PAGE) { assert PagesAt(s, p, p * PAGE, s.large[p] * PAGE); }
  }

  lemma AllWhole(s: Slab, z: nat)
    requires Inv(s) && z in s.zones && forall a, n :: !Live(s, a, n)
    ensures Whole(s, z)
  {
    var zone := s.zones[z];
    forall k: nat ensures !InUse(zone, k) {
      assert InUse(zone, k) ==> ChunkAt(s, z, k, AddrOf(z, zone, k), zone.chunk) && Live(s, AddrOf(z, zone, k), zone.chunk);
    }
    WholeZone(s.zoneSize, zone);
  }

  ghost predicate InZonePages(s: Slab, i: nat) { exists z :: (z in s.zones || z in s.cache) && z <= i < z + ZonePages(s) }

  lemma OnlyZones(s: Slab, i: nat)
    requires Inv(s) && s.large == map[] && s.table <= i < |s.usage|
    ensures PageRuns.Free(s.pages, i) <==> !InZonePages(s, i)
  {
    var m := Spans(s);
    assert forall z :: z in m <==> z in s.zones || z in s.cache;
    if InZonePages(s, i) {
      var z :| (z in s.zones || z in s.cache) && z <= i < z + ZonePages(s);
      assert z in m && m[z] == ZonePages(s);
    }
    if Owned(m, i) {
      var z :| z in m && z <= i < z + m[z];
      assert m[z] == ZonePages(s);
    }
  }

  /** Once everything is given back, at most one zone a class and two in the cache are left; all other pages
      are free again. */
  lemma NothingLeaks(s: Slab)
    requires Inv(s) && Tidy(s) && forall a, n :: !Live(s, a, n)
    ensures s.large == map[] && |s.zones| <= NZONES && |s.cache| <= THRESH
    ensures forall i: nat :: s.table <= i < |s.usage| ==> (PageRuns.Free(s.pages, i) <==> !InZonePages(s, i))
  {
    NothingLarge(s);
    forall z | z in s.zones ensures Whole(s, z) { AllWhole(s, z); }
    OneEach(s.zones.Keys, map z | z in s.zones :: s.zones[z].zi, NZONES);
    forall i: nat | s.table <= i < |s.usage| ensures PageRuns.Free(s.pages, i) <==> !InZonePages(s, i) { OnlyZones(s, i); }
  }

  // ----- alignment

  lemma {:induction false} PowersOfTwo(n: nat)
    requires PowerOfTwo(n) && n <= PAGE
    ensures n in {1, 2, 4, 8, 16, 32, 64, 128, 256, 512, 1024, 2048, 4096}
  {
    if n > 1 { PowersOfTwo(n / 2); }
  }

  lemma Eighths(q: nat, n: nat)
    requires n % MIN_CHUNK == 0
    ensures q * n % MIN_CHUNK == 0
  {
    var m := n / MIN_CHUNK;
    assert n == m * MIN_CHUNK && q * n == (q * m) * MIN_CHUNK;
  }

  lemma FirstChunkMultiple(n: nat)
    requires 0 < n && n % MIN_CHUNK == 0
    ensures FirstChunk(n) % MIN_CHUNK == 0 && (PowerOfTwo(n) ==> FirstChunk(n) % n == 0)
  {
    var q := (ZONE_HEADER + n - 1) / n;
    Multiple(q, n);
    Eighths(q, n);
  }

  lemma PageMultiple(z: nat, n: nat)
    requires PowerOfTwo(n) && n <= PAGE
    ensures z * PAGE % n == 0
  {
    PowersOfTwo(n);
    assert PAGE == PAGE / n * n;
    assert z * PAGE == (z * (PAGE / n)) * n;
    Multiple(z * (PAGE / n), n);
  }

  lemma Aligned(z: nat, off: nat, k: nat, n: nat)
    requires 0 < n && n % MIN_CHUNK == 0 && off == FirstChunk(n)
    ensures (z * PAGE + off + k * n) % MIN_CHUNK == 0
    ensures PowerOfTwo(n) && n <= PAGE ==> (z * PAGE + off + k * n) % n == 0
  {
    FirstChunkMultiple(n);
    Eighths(k, n);
    if PowerOfTwo(n) && n <= PAGE {
      PageMultiple(z, n);
      Multiple(k, n);
      SumOfMultiples(z * PAGE, off, k * n, n);
    }
    EighthsOf(z, off, k * n);
  }

  lemma EighthsOf(z: nat, off: nat, x: nat)
    requires off % MIN_CHUNK == 0 && x % MIN_CHUNK == 0
    ensures (z * PAGE + off + x) % MIN_CHUNK == 0
  {
  }

  lemma ChunkAligned(s: Slab, z: nat, k: nat, a: int, n: nat)
    requires ChunkAt(s, z, k, a, n) && n % MIN_CHUNK == 0 < n && s.zones[z].off == FirstChunk(n)
    ensures a % MIN_CHUNK == 0 && (PowerOfTwo(n) && n <= PAGE ==> a % n == 0)
  {
    Aligned(z, s.zones[z].off, k, n);
  }

  lemma Layout(zoneSize: nat, zone: Zone)
    requires ZoneOk(zoneSize, zone)
    ensures zone.chunk > 0 && zone.chunk % MIN_CHUNK == 0 && zone.off == FirstChunk(zone.chunk)
  {
    ClassEighths(zone.zi);
  }

  lemma ClassEighths(i: nat)
    requires i < NZONES
    ensures ClassChunk(i) > 0 && ClassChunk(i) % MIN_CHUNK == 0
  {
    assert ClassChunk(i) == 8 * if i < 16 then i + 1 else if i < 24 then 2 * (i - 7) else if i < 32 then 4 * (i - 15)
                                else if i < 40 then 8 * (i - 23) else if i < 48 then 16 * (i - 31) else if i < 56 then 32 * (i - 39)
                                else if i < 64 then 64 * (i - 47) else 128 * (i - 55);
  }

  lemma PagesAligned(s: Slab, p: nat, a: int, n: nat)
    requires PagesAt(s, p, a, n) && s.large[p] > 0
    ensures n > 0 && n % MIN_CHUNK == 0 && a % MIN_CHUNK == 0 && (PowerOfTwo(n) && n <= PAGE ==> a % n == 0)
  {
    Multiple(s.large[p] * 512, MIN_CHUNK);
    Multiple(p * 512, MIN_CHUNK);
    if n <= PAGE {
      assert n == PAGE;
      Multiple(p, PAGE);
    }
  }

  /** A block whose length is a power of two up to a page lies at a multiple of its length, any block at a
      multiple of eight. */
  lemma LiveAligned(s: Slab, a: int, n: nat)
    requires Inv(s) && Live(s, a, n)
    ensures n > 0 && n % MIN_CHUNK == 0 && a % MIN_CHUNK == 0
    ensures PowerOfTwo(n) && n <= PAGE ==> a % n == 0
  {
    if p: nat :| PagesAt(s, p, a, n) {
      PagesAligned(s, p, a, n);
    } else {
      var z: nat, k: nat :| ChunkAt(s, z, k, a, n);
      Layout(s.zoneSize, s.zones[z]);
      ChunkAligned(s, z, k, a, n);
    }
  }

  lemma PowerChunk(size: nat)
    requires size in {1, 2, 4, 8, 16, 32, 64, 128, 256, 512, 1024, 2048, 4096}
    ensures ChunkSize(size) == if size < MIN_CHUNK then MIN_CHUNK else size
  {
  }

  /** The address of a block, the heap beginning at page number `start` of the memory. */
  function Address(start: nat, a: nat): nat { start * PAGE + a }

  lemma PagesMultiple(start: nat, size: nat)
    requires PowerOfTwo(size) && size <= PAGE
    ensures start * PAGE % size == 0
  {
    PowersOfTwo(size);
    assert size in {1, 2, 4, 8, 16, 32, 64, 128, 256, 512, 1024, 2048, 4096};
    WholePages(start, size, PAGE / size);
  }

  lemma WholePages(start: nat, size: nat, n: nat)
    requires size > 0 && n * size == PAGE
    ensures start * PAGE % size == 0
  {
    assert start * PAGE == start * n * size;
    Multiple(start * n, size);
  }

  /** A request for a power of two up to a page is aligned to it, wherever the heap begins ... */
  lemma MallocAligned(s: Slab, size: nat, start: nat)
    requires Inv(s) && PowerOfTwo(size) && size <= PAGE
    ensures var a := Malloc(s, size).1; a != NULL ==> a >= 0 && Address(start, a) % size == 0
  {
    OffsetAligned(s, size);
    var a := Malloc(s, size).1;
    if a != NULL { AddressAligned(start, a, size); }
  }

  lemma AddressAligned(start: nat, a: nat, size: nat)
    requires PowerOfTwo(size) && size <= PAGE && a % size == 0
    ensures Address(start, a) % size == 0
  {
    PagesMultiple(start, size);
    SumOfMultiples(start * PAGE, a, 0, size);
  }

  lemma OffsetAligned(s: Slab, size: nat)
    requires Inv(s) && PowerOfTwo(size) && size <= PAGE
    ensures var a := Malloc(s, size).1; a != NULL ==> a >= 0 && a % size == 0
  {
    MallocSpec(s, size);
    var (s', a) := Malloc(s, size);
    if a != NULL {
      assert Live(s', a, ChunkSize(size));
      LiveAligned(s', a, ChunkSize(size));
      AlignedToRequest(size, a);
    }
  }

  lemma AlignedToRequest(size: nat, a: nat)
    requires PowerOfTwo(size) && size <= PAGE && a % MIN_CHUNK == 0
    requires PowerOfTwo(ChunkSize(size)) && ChunkSize(size) <= PAGE ==> ChunkSize(size) > 0 && a % ChunkSize(size) == 0
    ensures a % size == 0
  {
    PowersOfTwo(size);
    PowerChunk(size);
    if size < MIN_CHUNK { SmallDivisor(size, a); }
  }

  lemma SmallDivisor(d: nat, a: nat)
    requires d in {1, 2, 4} && a % MIN_CHUNK == 0
    ensures a % d == 0
  {
    assert a == (a / MIN_CHUNK * (MIN_CHUNK / d)) * d;
    Multiple(a / MIN_CHUNK * (MIN_CHUNK / d), d);
  }

  // Beyond a page it depends on where the zone or the page run starts.

  lemma Half(n: nat)
    requires PowerOfTwo(n) && n > 1
    ensures n == 2 * (n / 2) && PowerOfTwo(n / 2)
  {
  }

  lemma PowersToLimit(n: nat)
    requires PowerOfTwo(n) && PAGE < n < MAX_SMALL
    ensures n == 2 * PAGE
  {
    Half(n);
    Half(n / 2);
    PowersOfTwo(n / 2 / 2);
  }

  /** The first page of the zone or the run that will serve the request. */
  function FirstPage(s: Slab, size: nat): int
    requires Inv(s) && size > 0
  {
    if size >= Limit(s) then PageRuns.Alloc(s.pages, PageCount(size)).1
    else
      Ready(s, size);
      var zi := ZoneIndex(size);
      if s.classes[zi] != [] then s.classes[zi][0]
      else if s.cache != [] then s.cache[0]
      else PageRuns.Alloc(s.pages, ZonePages(s)).1
  }

  lemma SmallAddress(s: Slab, size: nat) returns (k: nat)
    requires Inv(s) && 0 < size < Limit(s) && Malloc(s, size).1 != NULL
    ensures ChunkSize(size) > 0 && Malloc(s, size).1 == FirstPage(s, size) * PAGE + FirstChunk(ChunkSize(size)) + k * ChunkSize(size)
  {
    Ready(s, size);
    var zi := ZoneIndex(size);
    if s.classes[zi] != [] {
      TakeReady(s, zi);
      var zone := s.zones[s.classes[zi][0]];
      Layout(s.zoneSize, zone);
      k := NextChunk(zone);
    } else {
      k := 0;
    }
  }

  lemma ShiftByMultiples(x: nat, y: nat, z: nat, c: nat)
    requires c > 0 && y % c == 0 && z % c == 0
    ensures (x + y + z) % c == 0 <==> x % c == 0
  {
    if x % c == 0 { SumOfMultiples(x, y, z, c); }
    if (x + y + z) % c == 0 {
      WholeParts(x + y + z, c);
      WholeParts(y, c);
      WholeParts(z, c);
      Difference(x, (x + y + z) / c, y / c + z / c, c);
    }
  }

  lemma Difference(x: nat, p: nat, q: nat, c: nat)
    requires c > 0 && x == p * c - q * c
    ensures x % c == 0
  {
    if p < q { Beyond(q, p, c); } else { DivisionUnique(x, c, p - q, 0); }
  }

  lemma ChunkOfLimit()
    ensures ChunkSize(2 * PAGE) == 2 * PAGE && 2 * PAGE % MIN_CHUNK == 0
  {
  }

  lemma LargeAligned(s: Slab, size: nat)
    requires Inv(s) && PowerOfTwo(size) && PAGE < size < WRAP && size >= Limit(s) && Malloc(s, size).1 != NULL
    ensures Malloc(s, size).1 == FirstPage(s, size) * PAGE
  {
  }

  lemma SmallAligned(s: Slab, size: nat, start: nat)
    requires Inv(s) && PowerOfTwo(size) && PAGE < size < Limit(s) && Malloc(s, size).1 != NULL && FirstPage(s, size) >= 0
    ensures Malloc(s, size).1 >= 0
    ensures Address(start, Malloc(s, size).1) % size == 0 <==> (start + FirstPage(s, size)) * PAGE % size == 0
  {
    PowersToLimit(size);
    ChunkOfLimit();
    var k := SmallAddress(s, size);
    FirstChunkMultiple(size);
    Multiple(k, size);
    ShiftByMultiples((start + FirstPage(s, size)) * PAGE, FirstChunk(size), k * size, size);
  }

  lemma RunStart(rs: PageRuns.Runs, n: nat)
    requires PageRuns.Canonical(rs) && PageRuns.Alloc(rs, n).1 != -1
    ensures PageRuns.Alloc(rs, n).1 >= 0
  {
    PageRuns.AllocExact(rs, n);
  }

  lemma FirstPageKnown(s: Slab, size: nat)
    requires Inv(s) && size > 0 && Malloc(s, size).1 != NULL
    ensures FirstPage(s, size) >= 0
  {
    if size < Limit(s) {
      Ready(s, size);
      if s.classes[ZoneIndex(size)] == [] && s.cache == [] { RunStart(s.pages, ZonePages(s)); }
    }
  }

  /** Large requests get the lowest pages there are, and small ones too if they need a new zone. */
  lemma FirstPageLowest(s: Slab, size: nat)
    requires Inv(s) && 0 < size < WRAP && Malloc(s, size).1 != NULL
    ensures FirstPage(s, size) >= 0
    ensures size >= Limit(s) ==> PageRuns.LowestStretch(s.pages, FirstPage(s, size), PageCount(size))
    ensures size < Limit(s) ==> ZoneIndex(size) < |s.classes|
    ensures size < Limit(s) && s.classes[ZoneIndex(size)] == [] && s.cache == [] ==>
              PageRuns.LowestStretch(s.pages, FirstPage(s, size), ZonePages(s))
  {
    FirstPageKnown(s, size);
    if size >= Limit(s) {
      PageRuns.AllocLowest(s.pages, PageCount(size));
    } else {
      Ready(s, size);
      if s.classes[ZoneIndex(size)] == [] && s.cache == [] { PageRuns.AllocLowest(s.pages, ZonePages(s)); }
    }
  }

  /** Exactly when a request for a power of two above a page is aligned to it. */
  lemma AlignedExactly(s: Slab, size: nat, start: nat)
    requires Inv(s) && PowerOfTwo(size) && PAGE < size < WRAP && Malloc(s, size).1 != NULL
    ensures FirstPage(s, size) >= 0 && Malloc(s, size).1 >= 0
    ensures Address(start, Malloc(s, size).1) % size == 0 <==> (start + FirstPage(s, size)) * PAGE % size == 0
  {
    FirstPageKnown(s, size);
    if size < Limit(s) {
      SmallAligned(s, size, start);
    } else {
      LargeAligned(s, size);
      AddressOf(start, FirstPage(s, size));
    }
  }

  lemma AddressOf(start: nat, p: nat)
    ensures Address(start, p * PAGE) == (start + p) * PAGE
  {
  }

  lemma LowestIsFirst(s: Slab, size: nat, p: nat)
    requires Inv(s) && 0 < size < WRAP && size >= Limit(s) && Malloc(s, size).1 != NULL
    requires PageRuns.LowestStretch(s.pages, p, PageCount(size))
    ensures FirstPage(s, size) == p
  {
    FirstPageLowest(s, size);
    assert PageRuns.Contiguous(s.pages, p, PageCount(size)) && PageRuns.Contiguous(s.pages, FirstPage(s, size), PageCount(size));
  }

  /** A large power of two is aligned exactly when the lowest free pages that hold it are, wherever they are. */
  lemma LargeAlignedExactly(s: Slab, size: nat, start: nat, p: nat)
    requires Inv(s) && PowerOfTwo(size) && PAGE < size < WRAP && size >= Limit(s) && Malloc(s, size).1 != NULL
    requires PageRuns.LowestStretch(s.pages, p, PageCount(size))
    ensures Malloc(s, size).1 == p * PAGE
    ensures Address(start, Malloc(s, size).1) % size == 0 <==> (start + p) * PAGE % size == 0
  {
    LowestIsFirst(s, size, p);
    LargeAligned(s, size);
    AddressOf(start, p);
  }

  /** It can fail: in a fresh heap the first block of two pages comes right after a table of one page, so it is aligned
      only if the heap begins at an odd page. */
  lemma NotAlignedBeyondAPage(words: seq<Usage>, start: nat)
    requires 3 <= |words| <= PAGE / 4
    ensures Inv(Init(words)) && PowerOfTwo(2 * PAGE) && Malloc(Init(words), 2 * PAGE).1 == PAGE
    ensures Address(start, PAGE) % (2 * PAGE) == 0 <==> start % 2 == 1
  {
    InitInv(words);
    var s := Init(words);
    assert s.pages == PageRuns.Cons(PageRuns.Run(1, |words| - 1), PageRuns.Nil);
    ZoneSizes(32768, |words| * PAGE);
    assert GrowZone(32768, |words| * PAGE) == 32768;
    TwoPages();
  }

  lemma Double(n: nat)
    requires PowerOfTwo(n)
    ensures PowerOfTwo(2 * n)
  {
    assert n > 0 && 2 * n % 2 == 0 && 2 * n / 2 == n;
  }

  lemma TwoPages()
    ensures PowerOfTwo(2 * PAGE) && PageCount(2 * PAGE) == 2
  {
    assert PowerOfTwo(1);
    Double(1);
    Double(2);
    Double(4);
    Double(8);
    Double(16);
    Double(32);
    Double(64);
    Double(128);
    Double(256);
    Double(512);
    Double(1024);
    Double(2048);
    Double(4096);
  }

  // ----- the allocator's own data

  /** Where the allocator writes: the table, the heads of free runs, zone headers, free chunks and cached zones. */
  ghost predicate Bookkeeping(s: Slab, x: int) {
    || x < s.table * PAGE
    || (x >= 0 && PageRuns.Free(s.pages, PageOf(x)))
    || (exists z :: z in s.zones && z * PAGE <= x < z * PAGE + ZONE_HEADER)
    || (exists z, k: nat :: z in s.zones && k < s.zones[z].nmax && !InUse(s.zones[z], k)
                            && AddrOf(z, s.zones[z], k) <= x < AddrOf(z, s.zones[z], k) + s.zones[z].chunk)
    || (exists z :: z in s.cache && z * PAGE <= x < z * PAGE + s.zoneSize)
  }

  lemma OwnSpan(s: Slab, p: nat, q: nat, x: int)
    requires Inv(s) && p in Spans(s) && q in Spans(s)
    requires p * PAGE <= x < (p + Spans(s)[p]) * PAGE && q * PAGE <= x < (q + Spans(s)[q]) * PAGE
    ensures p == q
  {
  }

  lemma ZoneBytes(s: Slab, z: nat)
    requires Inv(s) && (z in s.zones || z in s.cache)
    ensures z in Spans(s) && (z + Spans(s)[z]) * PAGE == z * PAGE + s.zoneSize && z !in s.large
  {
    SpanOf(s, z);
    Kinds(s, z);
    ZoneSpan(s);
  }

  ghost predicate Sits(s: Slab, p: nat, a: int, n: nat) {
    && p in Spans(s) && p * PAGE <= a && a + n <= (p + Spans(s)[p]) * PAGE
    && (PagesAt(s, p, a, n) || exists k :: ChunkAt(s, p, k, a, n))
  }

  lemma NotInHeader(s: Slab, p: nat, z: nat, a: int, n: nat, x: int)
    requires Inv(s) && Sits(s, p, a, n) && a <= x < a + n && z in s.zones && z * PAGE <= x < z * PAGE + s.zoneSize
    ensures p == z && x >= z * PAGE + ZONE_HEADER
  {
    ZoneBytes(s, z);
    OwnSpan(s, p, z, x);
    var k: nat :| ChunkAt(s, p, k, a, n);
    ChunkRange(s.zoneSize, z, s.zones[z], k);
  }

  lemma NotInFreeChunk(s: Slab, p: nat, z: nat, k: nat, a: int, n: nat, x: int)
    requires Inv(s) && Sits(s, p, a, n) && a <= x < a + n && z in s.zones && k < s.zones[z].nmax && !InUse(s.zones[z], k)
    ensures !(AddrOf(z, s.zones[z], k) <= x < AddrOf(z, s.zones[z], k) + s.zones[z].chunk)
  {
    ChunkRange(s.zoneSize, z, s.zones[z], k);
    if z * PAGE <= x < z * PAGE + s.zoneSize {
      NotInHeader(s, p, z, a, n, x);
      ZoneBytes(s, z);
      var j: nat :| ChunkAt(s, p, j, a, n);
      if j < k { ChunksApart(z, s.zones[z], j, k); } else { ChunksApart(z, s.zones[z], k, j); }
    }
  }

  lemma NotInCached(s: Slab, p: nat, z: nat, a: int, n: nat, x: int)
    requires Inv(s) && Sits(s, p, a, n) && a <= x < a + n && z in s.cache
    ensures !(z * PAGE <= x < z * PAGE + s.zoneSize)
  {
    ZoneBytes(s, z);
    Kinds(s, p);
    assert p != z;
    if z * PAGE <= x < z * PAGE + s.zoneSize { OwnSpan(s, p, z, x); }
  }

  lemma NotInTableOrFree(s: Slab, p: nat, a: int, n: nat, x: int)
    requires Inv(s) && Sits(s, p, a, n) && a <= x < a + n
    ensures x >= s.table * PAGE && !PageRuns.Free(s.pages, PageOf(x))
  {
    assert p <= PageOf(x) < p + Spans(s)[p];
    assert Owned(Spans(s), PageOf(x));
  }

  /** No byte of a block handed out is ever written by the allocator. */
  lemma LiveIsPrivate(s: Slab, a: int, n: nat, x: int)
    requires Inv(s) && Live(s, a, n) && a <= x < a + n
    ensures !Bookkeeping(s, x)
  {
    var p: nat := LiveSpan(s, a, n);
    NotInTableOrFree(s, p, a, n, x);
    forall z | z in s.zones && z * PAGE <= x < z * PAGE + s.zoneSize ensures x >= z * PAGE + ZONE_HEADER { NotInHeader(s, p, z, a, n, x); }
    forall z, k: nat | z in s.zones && k < s.zones[z].nmax && !InUse(s.zones[z], k)
      ensures !(AddrOf(z, s.zones[z], k) <= x < AddrOf(z, s.zones[z], k) + s.zones[z].chunk)
    {
      NotInFreeChunk(s, p, z, k, a, n, x);
    }
    forall z | z in s.cache ensures !(z * PAGE <= x < z * PAGE + s.zoneSize) { NotInCached(s, p, z, a, n, x); }
  }
}
