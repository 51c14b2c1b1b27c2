/** slab.c on its own fields: the page list below, the memusage array, zone_array and zone_free. */
module SlabHeaps {
  import opened Arithmetic
  import MemoryRoutines
  import PageRuns
  import opened PageAllocators
  import opened SlabSpec
  import T = SlabTheorems
  import R = SlabRuns
  import opened Sequences

  /** The list without the zone found at `i`. */
  lemma {:induction false} RemoveAt(q: seq<nat>, i: nat, z: nat)
    requires i < |q| && q[i] == z && z !in q[..i]
    ensures Remove(q, z) == q[..i] + q[i + 1..]
  {
    if i > 0 {
      assert q[0] in q[..i];
      assert q[1..][..i - 1] == q[1..i];
      RemoveAt(q[1..], i - 1, z);
      assert [q[0]] + (q[1..i] + q[i + 1..]) == q[..i] + q[i + 1..];
    }
  }

  class SlabHeap {
    const pager: PageAllocator
    const table: nat
    const memusage: array<Usage>
    const zoneSize: nat
    const zoneLimit: nat
    const zonePageCnt: nat
    var zones: map<nat, Zone>          // the headers of the zones in use, by first page
    var zoneArray: seq<seq<nat>>
    var zoneFree: seq<nat>
    var zoneFreeCnt: nat
    ghost var large: map<nat, nat>

    ghost function State(): Slab
      reads this, pager, memusage
    {
      Slab(table, zoneSize, pager.runs, memusage[..], zones, zoneArray, zoneFree, large)
    }

    ghost predicate Linked()
      reads this, pager
    {
      && pager.Valid() && |pager.page| == memusage.Length
      && zoneLimit == (if zoneSize / 4 > MAX_SMALL then MAX_SMALL else zoneSize / 4)
      && zonePageCnt == zoneSize / PAGE && zoneFreeCnt == |zoneFree|
    }

    ghost predicate Valid()
      reads this, pager, memusage
    {
      Linked() && Inv(State())
    }

    /** rt_system_heap_init */
    constructor (npages: nat)
      requires npages > 0
      ensures Valid() && fresh(pager) && fresh(memusage) && memusage.Length == npages
      ensures State() == Init(memusage[..])
    {
      var size := 32768;
      while size < 131072 && 2 * size < npages * PAGE / 1024
        invariant size > 0 && GrowZone(size, npages * PAGE) == GrowZone(32768, npages * PAGE)
        decreases if size < 131072 then 131072 - size else 0
      {
        size := 2 * size;
      }
      var pages := new PageAllocator(npages);
      var tablePages := TablePages(npages);
      var t := pages.PageAlloc(tablePages);
      pager, table, memusage := pages, tablePages, new Usage[npages];
      zoneSize, zoneLimit, zonePageCnt := size, if size / 4 > MAX_SMALL then MAX_SMALL else size / 4, size / PAGE;
      zones, zoneArray, zoneFree, zoneFreeCnt, large := map[], seq(NZONES, _ => []), [], 0, map[];
      new;
      R.InitInv(memusage[..]);
    }

    /** memusage of the pages of a zone: how far back the zone starts. */
    method MarkSmall(z: nat)
      requires z + zonePageCnt <= memusage.Length
      modifies memusage
      ensures memusage[..] == MarkZone(old(memusage[..]), z, zonePageCnt)
    {
      var off := 0;
      while off < zonePageCnt
        invariant off <= zonePageCnt
        invariant memusage[..] == MarkZone(old(memusage[..]), z, off)
      {
        memusage[z + off] := Small(off);
        off := off + 1;
      }
    }

    method MarkFree(z: nat)
      requires z + zonePageCnt <= memusage.Length
      modifies memusage
      ensures memusage[..] == ClearZone(old(memusage[..]), z, zonePageCnt)
    {
      var i := 0;
      while i < zonePageCnt
        invariant i <= zonePageCnt
        invariant memusage[..] == ClearZone(old(memusage[..]), z, i)
      {
        memusage[z + i] := FreePage;
        i := i + 1;
      }
    }

    method MallocPages(size: nat) returns (chunk: int)
      requires Valid() && Limit(State()) <= size < WRAP
      modifies this, pager, memusage
      ensures Valid() && (State(), chunk) == Malloc(old(State()), size)
    {
      T.MallocSpec(State(), size);
      chunk := TakeRun(PageCount(size));
    }

    method TakeRun(npages: nat) returns (chunk: int)
      requires Valid()
      modifies this, pager, memusage
      ensures Linked() && (State(), chunk) == MallocLarge(old(State()), npages)
    {
      PageRuns.AllocExact(pager.runs, npages);
      if PageRuns.Alloc(pager.runs, npages).1 != NULL { T.NewRun(State(), npages); }
      var p := pager.PageAlloc(npages);
      if p == NIL { return NULL; }
      memusage[p] := Large(npages);
      large := large[p := npages];
      chunk := p * PAGE;
    }

    /** The place z_uindex or z_freechunk names. */
    method PopChunk(z: nat) returns (k: nat)
      requires z in zones && HasChunk(zones[z].(nfree := zones[z].nfree + 1))
      modifies `zones
      ensures var zone := old(zones)[z].(nfree := old(zones)[z].nfree + 1);
        k == NextChunk(zone) && zones == old(zones)[z := Taken(zone)]
    {
      if zones[z].uindex + 1 != zones[z].nmax {
        k := zones[z].uindex + 1;
        zones := zones[z := zones[z].(uindex := k)];
      } else {
        k := zones[z].free[0];
        zones := zones[z := zones[z].(free := zones[z].free[1..])];
      }
    }

    /** A chunk from the zone at the head of its class. */
    method MallocChunk(zi: nat, size: nat) returns (chunk: int)
      requires zi < |zoneArray| && zoneArray[zi] != []
      requires zoneArray[zi][0] in zones && zones[zoneArray[zi][0]].chunk == size && HasChunk(zones[zoneArray[zi][0]])
      modifies `zones, `zoneArray
      ensures (State(), chunk) == TakeChunk(old(State()), zi)
    {
      var z := zoneArray[zi][0];
      ghost var before, zone := zones, zones[z];
      zones := zones[z := zones[z].(nfree := zones[z].nfree - 1)];
      if zones[z].nfree == 0 { zoneArray := zoneArray[zi := zoneArray[zi][1..]]; }
      assert zones[z].(nfree := zones[z].nfree + 1) == zone;
      var k := PopChunk(z);
      assert zones == before[z := Taken(zone)];
      chunk := z * PAGE + zones[z].off + k * size;
    }

    /** The header of a zone is written anew and the zone linked in. */
    method StartZone(z: nat, zi: nat, size: nat) returns (chunk: int)
      requires zi < |zoneArray| && size > 0 && FirstChunk(size) + size <= zoneSize
      modifies `zones, `zoneArray
      ensures (State(), chunk) == OpenZone(old(State()), z, zi, size)
    {
      var off := ZONE_HEADER;
      if PowerOfTwo(size) { off := Round(off, size); } else { off := Round(off, MIN_CHUNK); }
      var nmax := (zoneSize - off) / size;
      zones := zones[z := Zone(zi, size, off, nmax, nmax - 1, 0, [])];
      chunk := z * PAGE + off + 0 * size;
      zoneArray := zoneArray[zi := [z] + zoneArray[zi]];
    }

    /** The pages for a new zone: a cached one, else from the page list. */
    method TakeZone() returns (z: int)
      requires Valid()
      modifies `zoneFree, `zoneFreeCnt, pager, memusage
      ensures Linked() && z >= NIL
      ensures var s := old(State());
        if s.cache != [] then z == s.cache[0] && State() == s.(cache := s.cache[1..])
        else
          var (pages, p) := PageRuns.Alloc(s.pages, ZonePages(s));
          z == p && State() == if p < 0 then s.(pages := pages) else s.(pages := pages, usage := MarkZone(s.usage, p, ZonePages(s)))
    {
      if zoneFree != [] {
        z := zoneFree[0];
        zoneFree, zoneFreeCnt := zoneFree[1..], zoneFreeCnt - 1;
      } else {
        PageRuns.AllocExact(pager.runs, zonePageCnt);
        if PageRuns.Alloc(pager.runs, zonePageCnt).1 != NULL { T.NewRun(State(), zonePageCnt); }
        z := pager.PageAlloc(zonePageCnt);
        if z != NIL { MarkSmall(z); }
      }
    }

    method MallocZone(size: nat) returns (chunk: int)
      requires Valid() && 0 < size < Limit(State())
      modifies this, pager, memusage
      ensures Linked() && (State(), chunk) == Malloc(old(State()), size)
    {
      Ready(State(), size);
      var zi, chunkSize := ZoneIndex(size), ChunkSize(size);
      if zoneArray[zi] != [] {
        chunk := MallocChunk(zi, chunkSize);
      } else {
        var z := TakeZone();
        if z == NIL { return NULL; }
        chunk := StartZone(z, zi, chunkSize);
      }
    }

    /** rt_malloc */
    method Allocate(size: nat) returns (chunk: int)
      requires Valid() && size < WRAP
      modifies this, pager, memusage
      ensures Valid() && (State(), chunk) == Malloc(old(State()), size)
    {
      T.MallocSpec(State(), size);
      if size == 0 { return NULL; }
      if size >= zoneLimit {
        chunk := MallocPages(size);
      } else {
        chunk := MallocZone(size);
      }
    }

    /** Walks the z_next links to the zone and takes it out. */
    method UnlinkZone(z: nat, zi: nat)
      requires zi < |zoneArray| && z in zoneArray[zi]
      modifies `zoneArray
      ensures zoneArray == old(zoneArray)[zi := Remove(old(zoneArray)[zi], z)]
    {
      var q, i: nat := zoneArray[zi], 0;
      while q[i] != z
        invariant zoneArray == old(zoneArray)
        invariant i < |q| && z !in q[..i]
        decreases |q| - i
      {
        assert q[..i + 1] == q[..i] + [q[i]];
        i := i + 1;
      }
      RemoveAt(q, i, z);
      zoneArray := zoneArray[zi := q[..i] + q[i + 1..]];
    }

    method ReleasePages(p: nat, npages: nat)
      requires Linked() && npages > 0 && p + npages <= memusage.Length && PageRuns.Apart(pager.runs, PageRuns.Run(p, npages))
      modifies `large, pager, memusage
      ensures Linked() && State() == FreeLarge(old(State()), p, npages)
    {
      memusage[p] := Large(0);
      large := large - {p};
      pager.PageFree(p, npages);
    }

    /** A zone whose chunks are all free goes to the cache, the third one there to the page list. */
    method RetireZone(z: nat, zi: nat)
      requires Valid() && z in zones && zones[z].zi == zi && z in zoneArray[zi]
      modifies this, pager, memusage
      ensures Linked() && State() == Retire(old(State()), z, zi)
    {
      if |zoneFree| + 1 > THRESH { T.RetireToPages(State(), z); }
      assert ZoneMarks(State().usage, z, ZonePages(State()));
      UnlinkZone(z, zi);
      zones := zones - {z};
      zoneFree, zoneFreeCnt := [z] + zoneFree, zoneFreeCnt + 1;
      if zoneFreeCnt > THRESH {
        assert zoneFree[1..] == old(zoneFree);
        var last := zoneFree[0];
        zoneFree, zoneFreeCnt := zoneFree[1..], zoneFreeCnt - 1;
        MarkFree(last);
        pager.PageFree(last, zonePageCnt);
      }
    }

    /** A chunk goes first on its zone's free list. */
    method PushChunk(z: nat, k: nat)
      requires z in zones && zones[z].zi < |zoneArray|
      modifies `zones, `zoneArray
      ensures State() == PutChunk(old(State()), z, k)
    {
      ghost var before := zones;
      var zi, nfree := zones[z].zi, zones[z].nfree;
      zones := zones[z := zones[z].(free := [k] + zones[z].free)];
      zones := zones[z := zones[z].(nfree := nfree + 1)];
      if nfree == 0 { zoneArray := zoneArray[zi := [z] + zoneArray[zi]]; }
      assert zones == before[z := before[z].(free := [k] + before[z].free, nfree := nfree + 1)];
    }

    method ReleaseChunk(z: nat, k: nat)
      requires Valid() && z in zones && InUse(zones[z], k)
      modifies this, pager, memusage
      ensures Linked() && State() == FreeChunk(old(State()), z, k)
    {
      T.PutInv(State(), z, k);
      var zi := zones[z].zi;
      PushChunk(z, k);
      if zones[z].nfree == zones[z].nmax && zoneArray[zi] != [z] {
        assert T.Listed(State(), zi, z);
        RetireZone(z, zi);
      }
    }

    method ReleaseLarge(ptr: nat)
      requires Valid() && InLarge(State(), ptr) && exists n :: Live(State(), ptr, n)
      modifies this, pager, memusage
      ensures Linked() && State() == Free(old(State()), ptr)
    {
      R.FindsRun(State(), ptr);
      ReleasePages(ptr / PAGE, memusage[ptr / PAGE].pages);
    }

    method ReleaseSmall(ptr: nat)
      requires Valid() && !InLarge(State(), ptr) && (exists n :: Live(State(), ptr, n))
      requires InZone(State(), ptr) && PlaceOf(ZoneOf(State(), ptr), State().zones[ZoneOf(State(), ptr)], ptr) >= 0
      modifies this, pager, memusage
      ensures Linked() && State() == Free(old(State()), ptr)
    {
      R.FindsChunk(State(), ptr);
      var z := ptr / PAGE - memusage[ptr / PAGE].offset;
      assert z == ZoneOf(State(), ptr);
      ReleaseChunk(z, PlaceOf(z, zones[z], ptr));
    }

    /** rt_free */
    method Release(ptr: int)
      requires Valid() && R.Legal(State(), R.DoFree(ptr))
      modifies this, pager, memusage
      ensures Valid() && State() == R.Step(old(State()), R.DoFree(ptr)).0
    {
      R.StepInv(State(), R.DoFree(ptr));
      if ptr == NULL { return; }
      R.Freeable(State(), ptr);
      if memusage[ptr / PAGE].Large? {
        ReleaseLarge(ptr);
      } else {
        ReleaseSmall(ptr);
      }
    }

    /** The size to ask for when the block has to move, unless its chunk will do. */
    method Fits(ptr: nat, size: nat) returns (stays: bool, asked: nat, length: nat)
      requires Valid() && Known(State(), ptr)
      ensures asked == R.Asked(State(), ptr, size) && length == R.Length(State(), ptr)
      ensures stays <==> !InLarge(State(), ptr) && State().zones[ZoneOf(State(), ptr)].chunk == ChunkSize(size)
    {
      if memusage[ptr / PAGE].Large? { return false, size, memusage[ptr / PAGE].pages * PAGE; }
      var z := ptr / PAGE - memusage[ptr / PAGE].offset;
      asked := ChunkSize(size);
      length := zones[z].chunk;
      stays := length == asked;
    }

    /** Asks for a new block, copies what both hold, and gives up the old one. */
    method MoveBlock(memory: array<MemoryRoutines.Byte>, ptr: nat, size: nat, length: nat) returns (nptr: int)
      requires Valid() && size < WRAP && Live(State(), ptr, length) && memory.Length == memusage.Length * PAGE
      modifies this, pager, memusage, memory
      ensures Valid() && (State(), nptr) == R.Move(old(State()), ptr, size)
      ensures memory[..] == if nptr == NULL then old(memory[..])
                            else R.Moved(old(memory[..]), nptr, ptr, if size > length then length else size)
    {
      ghost var s := State();
      T.MallocSpec(s, size);
      nptr := Allocate(size);
      if nptr != NULL {
        R.MoveFacts(s, ptr, length, size);
        CopyBlock(memory, nptr, ptr, if size > length then length else size);
        assert State() == Malloc(s, size).0;
        Release(ptr);
      }
    }

    method CopyBlock(memory: array<MemoryRoutines.Byte>, nptr: nat, ptr: nat, count: nat)
      requires nptr + count <= memory.Length && ptr + count <= memory.Length
      modifies memory
      ensures memory[..] == R.Moved(old(memory[..]), nptr, ptr, count)
    {
      var r := MemoryRoutines.MemCpy(memory, nptr, ptr, count);
    }

    /** rt_realloc; `memory` are the bytes of the heap as far as they belong to blocks. */
    method Reallocate(memory: array<MemoryRoutines.Byte>, ptr: int, size: nat) returns (nptr: int)
      requires Valid() && R.Legal(State(), R.DoRealloc(ptr, size)) && memory.Length == memusage.Length * PAGE
      modifies this, pager, memusage, memory
      ensures Valid() && (State(), nptr) == R.Step(old(State()), R.DoRealloc(ptr, size))
      ensures memory[..] == if ptr == NULL || size == 0 then old(memory[..]) else R.Contents(old(State()), old(memory[..]), ptr, size)
    {
      if ptr == NULL {
        nptr := Allocate(size);
        return;
      }
      R.Freeable(State(), ptr);
      if size == 0 {
        Release(ptr);
        return NULL;
      }
      nptr := Change(memory, ptr, size);
    }

    /** The part of rt_realloc that deals with a block and a size. */
    method Change(memory: array<MemoryRoutines.Byte>, ptr: nat, size: nat) returns (nptr: int)
      requires Valid() && 0 < size < WRAP && (exists n :: Live(State(), ptr, n)) && memory.Length == memusage.Length * PAGE
      modifies this, pager, memusage, memory
      ensures Valid() && (State(), nptr) == R.Step(old(State()), R.DoRealloc(ptr, size))
      ensures memory[..] == R.Contents(old(State()), old(memory[..]), ptr, size)
    {
      ghost var n :| Live(State(), ptr, n);
      R.ReallocSteps(State(), memory[..], ptr, n, size);
      var stays, asked, length := Fits(ptr, size);
      if stays { return ptr; }
      nptr := MoveBlock(memory, ptr, asked, length);
    }
  }
}
