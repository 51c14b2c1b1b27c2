/** What malloc and free of the slab allocator keep, over all runs. */
module SlabTheorems {
  import opened Arithmetic
  import PageRuns
  import opened SlabSpec
  import opened Sequences

  // ----- counting

  lemma FullList(q: seq<nat>, n: nat)
    requires Distinct(q) && forall k :: k in q ==> k < n
    ensures |q| <= n && (|q| == n <==> forall k: nat :: k < n ==> k in q)
  {
    ElementsOf(q);
    SubsetSize(Elems(q), UpTo(n));
    assert |q| == n ==> Elems(q) == UpTo(n);
    if forall k: nat :: k < n ==> k in q { assert Elems(q) == UpTo(n); }
    if |q| == n {
      forall k: nat | k < n ensures k in q { assert k in UpTo(n); }
    }
  }

  /** All chunks are free exactly when z_nfree says so. */
  lemma WholeZone(zoneSize: nat, zone: Zone)
    requires ZoneOk(zoneSize, zone)
    ensures zone.nfree <= zone.nmax
    ensures zone.nfree == zone.nmax <==> forall k: nat :: !InUse(zone, k)
  {
    FullList(zone.free, zone.uindex + 1);
    if zone.nfree != zone.nmax {
      var k: nat :| k < zone.uindex + 1 && k !in zone.free;
      assert InUse(zone, k);
    }
  }

  // ----- one zone

  lemma TakenZone(zoneSize: nat, zone: Zone)
    requires ZoneOk(zoneSize, zone) && HasChunk(zone)
    ensures ZoneOk(zoneSize, Taken(zone))
    ensures NextChunk(zone) < zone.nmax && !InUse(zone, NextChunk(zone))
    ensures forall k :: InUse(Taken(zone), k) <==> InUse(zone, k) || k == NextChunk(zone)
  {
    if zone.uindex + 1 == zone.nmax {
      assert zone.free == [zone.free[0]] + zone.free[1..] && zone.free[0] in zone.free;
      forall k | k in zone.free[1..] ensures k <= zone.uindex { assert k in zone.free; }
    }
  }

  function Put(zone: Zone, k: nat): Zone { zone.(free := [k] + zone.free, nfree := zone.nfree + 1) }

  lemma PutZone(zoneSize: nat, zone: Zone, k: nat)
    requires ZoneOk(zoneSize, zone) && InUse(zone, k)
    ensures ZoneOk(zoneSize, Put(zone, k))
    ensures forall j :: InUse(Put(zone, k), j) <==> InUse(zone, j) && j != k
  {
  }

  /** Chunks lie inside the zone behind its header, one after the other. */
  lemma ChunkRange(zoneSize: nat, z: nat, zone: Zone, k: nat)
    requires ZoneOk(zoneSize, zone) && k < zone.nmax
    ensures z * PAGE + ZONE_HEADER <= AddrOf(z, zone, k)
    ensures AddrOf(z, zone, k) + zone.chunk <= z * PAGE + zoneSize
  {
    PlaceRange(zone.off, zone.chunk, zone.nmax, k, zoneSize);
  }

  lemma PlaceRange(off: nat, chunk: nat, nmax: nat, k: nat, zoneSize: nat)
    requires off + nmax * chunk <= zoneSize && k < nmax
    ensures 0 <= k * chunk && off + k * chunk + chunk <= zoneSize
  {
    Beyond(nmax, k, chunk);
  }

  lemma ChunksApart(z: nat, zone: Zone, k: nat, j: nat)
    requires k < j
    ensures AddrOf(z, zone, k) + zone.chunk <= AddrOf(z, zone, j)
  {
    Beyond(j, k, zone.chunk);
  }

  /** The place follows from the address. */
  lemma PlaceBack(z: nat, zone: Zone, k: nat)
    requires zone.chunk > 0 && AddrOf(z, zone, k) >= 0
    ensures PlaceOf(z, zone, AddrOf(z, zone, k)) == k
  {
    Multiple(k, zone.chunk);
  }

  // ----- the pages

  lemma OwnedWith(m: map<nat, nat>, p: nat, n: nat, i: nat)
    requires p !in m
    ensures Owned(m[p := n], i) <==> Owned(m, i) || p <= i < p + n
  {
    var m' := m[p := n];
    if p <= i < p + n { assert p in m'; }
    if Owned(m, i) {
      var q :| q in m && q <= i < q + m[q];
      assert q in m';
    }
  }

  lemma OwnedWithout(m: map<nat, nat>, p: nat, i: nat)
    requires p in m && forall q :: q in m && q != p ==> q + m[q] <= p || p + m[p] <= q
    ensures Owned(m - {p}, i) <==> Owned(m, i) && !(p <= i < p + m[p])
  {
    var m' := m - {p};
    if Owned(m', i) {
      var q :| q in m' && q <= i < q + m'[q];
      assert q in m;
    }
    if Owned(m, i) && !(p <= i < p + m[p]) {
      var q :| q in m && q <= i < q + m[q];
      assert q in m';
    }
  }

  /** Pages that are free lie in no run. */
  lemma FreshApart(rs: PageRuns.Runs, m: map<nat, nat>, lo: nat, hi: nat, p: nat, n: nat)
    requires Arena(rs, m, lo, hi) && n > 0 && PageRuns.Contiguous(rs, p, n)
    ensures lo <= p && p + n <= hi && p !in m && forall q :: q in m ==> q + m[q] <= p || p + n <= q
  {
    assert PageRuns.Free(rs, p) && PageRuns.Free(rs, p + n - 1);
    forall q: nat | q in m ensures q + m[q] <= p || p + n <= q {
      assert Owned(m, q);
      assert p <= q < p + n ==> PageRuns.Free(rs, q);
      assert q <= p < q + m[q] ==> Owned(m, p);
    }
  }

  lemma ArenaTake(rs: PageRuns.Runs, m: map<nat, nat>, lo: nat, hi: nat, n: nat)
    requires Arena(rs, m, lo, hi) && PageRuns.Alloc(rs, n).1 != -1
    ensures var p := PageRuns.Alloc(rs, n).1;
      n > 0 && lo <= p && p + n <= hi && p !in m && Arena(PageRuns.Alloc(rs, n).0, m[p := n], lo, hi)
  {
    PageRuns.AllocExact(rs, n);
    var rs', p: nat := PageRuns.Alloc(rs, n).0, PageRuns.Alloc(rs, n).1;
    FreshApart(rs, m, lo, hi, p, n);
    forall i: nat | lo <= i < hi ensures PageRuns.Free(rs', i) <==> !Owned(m[p := n], i) {
      assert PageRuns.Free(rs, i) <==> !Owned(m, i);
      OwnedWith(m, p, n, i);
    }
  }

  lemma ArenaGive(rs: PageRuns.Runs, m: map<nat, nat>, lo: nat, hi: nat, p: nat)
    requires Arena(rs, m, lo, hi) && p in m
    ensures PageRuns.Apart(rs, PageRuns.Run(p, m[p]))
    ensures Arena(PageRuns.Release(rs, PageRuns.Run(p, m[p])), m - {p}, lo, hi)
  {
    var r := PageRuns.Run(p, m[p]);
    var rs', m' := PageRuns.Release(rs, r), m - {p};
    forall i | r.Covers(i) ensures !PageRuns.Free(rs, i) { assert Owned(m, i); }
    PageRuns.ReleaseCanonical(rs, r);
    forall i: nat ensures PageRuns.Free(rs', i) <==> PageRuns.Free(rs, i) || r.Covers(i) { PageRuns.ReleasePages(rs, r, i); }
    forall i: nat | lo <= i < hi ensures PageRuns.Free(rs', i) <==> !Owned(m', i) {
      assert PageRuns.Free(rs, i) <==> !Owned(m, i);
      OwnedWithout(m, p, i);
    }
  }

  // ----- the invariant on its own terms

  lemma SpanOf(s: Slab, p: nat)
    ensures p in Spans(s) <==> p in s.zones || p in s.cache || p in s.large
    ensures p in Spans(s) ==> Spans(s)[p] == if p in s.large then s.large[p] else ZonePages(s)
  {
  }

  lemma Kinds(s: Slab, p: nat)
    requires Inv(s)
    ensures p in s.large ==> p !in s.zones && p !in s.cache
    ensures p in s.zones ==> p !in s.cache
  {
    assert p in s.zones || p in s.cache ==> s.usage[p].Small?;
  }

  lemma ZoneSpan(s: Slab)
    requires Inv(s)
    ensures ZonePages(s) * PAGE == s.zoneSize && ZonePages(s) >= 8
  {
  }

  // ----- live blocks never overlap

  lemma LiveSpan(s: Slab, a: int, n: nat) returns (p: nat)
    requires Inv(s) && Live(s, a, n)
    ensures n > 0 && p in Spans(s) && p * PAGE <= a && a + n <= (p + Spans(s)[p]) * PAGE
    ensures PagesAt(s, p, a, n) || exists k :: ChunkAt(s, p, k, a, n)
  {
    ZoneSpan(s);
    if exists q :: PagesAt(s, q, a, n) {
      p :| PagesAt(s, p, a, n);
      SpanOf(s, p);
    } else {
      var z, k :| ChunkAt(s, z, k, a, n);
      p := z;
      SpanOf(s, z);
      Kinds(s, z);
      ChunkRange(s.zoneSize, z, s.zones[z], k);
    }
  }

  lemma SameZoneApart(s: Slab, z: nat, a: int, n: nat, b: int, m: nat)
    requires Inv(s) && (exists k :: ChunkAt(s, z, k, a, n)) && exists j :: ChunkAt(s, z, j, b, m)
    ensures n == m && (a < b ==> a + n <= b)
  {
    var k: nat :| ChunkAt(s, z, k, a, n);
    var j: nat :| ChunkAt(s, z, j, b, m);
    if k < j { ChunksApart(z, s.zones[z], k, j); }
    if j < k { ChunksApart(z, s.zones[z], j, k); }
  }

  /** Two blocks handed out are the same block or share no byte. */
  lemma LiveApart(s: Slab, a: int, n: nat, b: int, m: nat)
    requires Inv(s) && Live(s, a, n) && Live(s, b, m)
    ensures n > 0 && a >= 0
    ensures a == b ==> n == m
    ensures a < b ==> a + n <= b
  {
    var p: nat := LiveSpan(s, a, n);
    var q: nat := LiveSpan(s, b, m);
    Kinds(s, p);
    if p == q {
      if !PagesAt(s, p, a, n) { SameZoneApart(s, p, a, n, b, m); }
    } else if p < q {
      assert (p + Spans(s)[p]) * PAGE <= q * PAGE;
    } else {
      assert (q + Spans(s)[q]) * PAGE <= p * PAGE;
    }
  }

  // ----- lists of zones

  ghost predicate Listed(s: Slab, i: nat, z: nat) { z in s.zones && s.zones[z].zi == i && s.zones[z].nfree > 0 }

  /** Only zone `z` of class `zi` changes, and the class lists it as it should. */
  lemma ClassChange(s: Slab, s': Slab, z: nat, zi: nat, q: seq<nat>)
    requires ClassesOk(s) && zi < NZONES && s'.classes == s.classes[zi := q] && Distinct(q)
    requires forall y :: y != z ==> (y in s.zones <==> y in s'.zones) && (y in s.zones ==> s'.zones[y] == s.zones[y])
    requires (z in s.zones ==> s.zones[z].zi == zi) && (z in s'.zones ==> s'.zones[z].zi == zi)
    requires forall y :: y in q <==> if y == z then Listed(s', zi, z) else y in s.classes[zi]
    ensures ClassesOk(s')
  {
    forall i, y | 0 <= i < NZONES ensures y in s'.classes[i] <==> Listed(s', i, y) {
      assert y in s.classes[i] <==> Listed(s, i, y);
    }
  }

  /** The page runs in use do not change. */
  lemma SameSpans(s: Slab, s': Slab)
    requires s'.zoneSize == s.zoneSize && s'.large == s.large
    requires forall p :: p in s'.zones || p in s'.cache <==> p in s.zones || p in s.cache
    ensures Spans(s') == Spans(s)
  {
  }

  // ----- what a step does to the live blocks

  ghost predicate Adds(s: Slab, s': Slab, a: int, n: nat) {
    forall b, m :: Live(s', b, m) <==> Live(s, b, m) || (b == a && m == n)
  }

  ghost predicate Drops(s: Slab, s': Slab, a: int) {
    forall b, m :: Live(s', b, m) <==> Live(s, b, m) && b != a
  }

  ghost predicate Same(s: Slab, s': Slab) { forall b, m :: Live(s', b, m) <==> Live(s, b, m) }

  lemma ChunkAdded(s: Slab, s': Slab, z: nat, k: nat, a: int, n: nat)
    requires s'.large == s.large
    requires forall y, j, b, m :: ChunkAt(s', y, j, b, m) <==> ChunkAt(s, y, j, b, m) || (y == z && j == k && b == a && m == n)
    ensures Adds(s, s', a, n)
  {
    forall b, m ensures Live(s', b, m) <==> Live(s, b, m) || (b == a && m == n) {
      assert forall p :: PagesAt(s', p, b, m) <==> PagesAt(s, p, b, m);
      assert b == a && m == n ==> ChunkAt(s', z, k, b, m);
    }
  }

  lemma ChunkDropped(s: Slab, s': Slab, z: nat, k: nat, a: int, n: nat)
    requires Inv(s) && s'.large == s.large && ChunkAt(s, z, k, a, n)
    requires forall y, j, b, m :: ChunkAt(s', y, j, b, m) <==> ChunkAt(s, y, j, b, m) && !(y == z && j == k)
    ensures Drops(s, s', a)
  {
    forall b, m ensures Live(s', b, m) <==> Live(s, b, m) && b != a {
      assert forall p :: PagesAt(s', p, b, m) <==> PagesAt(s, p, b, m);
      forall y, j | ChunkAt(s, y, j, b, m) && b == a ensures y == z && j == k { OnePlace(s, z, k, y, j, a, n, m); }
      forall p | PagesAt(s, p, b, m) ensures b != a { NoPlace(s, z, k, p, a, n, b, m); }
    }
  }

  lemma OnePlace(s: Slab, z: nat, k: nat, y: nat, j: nat, a: int, n: nat, m: nat)
    requires Inv(s) && ChunkAt(s, z, k, a, n) && ChunkAt(s, y, j, a, m)
    ensures y == z && j == k
  {
    InSpan(s, z, k, a, n);
    InSpan(s, y, j, a, m);
    if k < j { ChunksApart(z, s.zones[z], k, j); }
    if j < k { ChunksApart(z, s.zones[z], j, k); }
  }

  lemma InSpan(s: Slab, z: nat, k: nat, a: int, n: nat)
    requires Inv(s) && ChunkAt(s, z, k, a, n)
    ensures z in Spans(s) && n > 0 && z * PAGE <= a && a + n <= (z + Spans(s)[z]) * PAGE && z !in s.large
  {
    ZoneSpan(s);
    SpanOf(s, z);
    Kinds(s, z);
    ChunkRange(s.zoneSize, z, s.zones[z], k);
  }

  lemma NoPlace(s: Slab, z: nat, k: nat, p: nat, a: int, n: nat, b: int, m: nat)
    requires Inv(s) && ChunkAt(s, z, k, a, n) && PagesAt(s, p, b, m)
    ensures a != b
  {
    InSpan(s, z, k, a, n);
    SpanOf(s, p);
    if p < z { assert (p + Spans(s)[p]) * PAGE <= z * PAGE; }
    if z < p { assert (z + Spans(s)[z]) * PAGE <= p * PAGE; }
  }

  // ----- malloc

  /** A chunk that was not in use before has an address that was not live. */
  lemma ChunkIsNew(s: Slab, s': Slab, z: nat, k: nat, a: int, n: nat)
    requires Inv(s') && s'.large == s.large && ChunkAt(s', z, k, a, n)
    requires forall y, j, b, m :: ChunkAt(s, y, j, b, m) ==> ChunkAt(s', y, j, b, m) && !(y == z && j == k)
    ensures forall m :: !Live(s, a, m)
  {
    forall m ensures !Live(s, a, m) {
      forall y, j | ChunkAt(s, y, j, a, m) ensures false { OnePlace(s', z, k, y, j, a, n, m); }
      forall p | PagesAt(s, p, a, m) ensures false {
        assert PagesAt(s', p, a, m);
        NoPlace(s', z, k, p, a, n, a, m);
      }
    }
  }

  lemma ZoneTakes(s: Slab, s': Slab, z: nat, k: nat, zone: Zone)
    requires z in s.zones && s'.zones == s.zones[z := zone]
    requires zone.chunk == s.zones[z].chunk && zone.off == s.zones[z].off
    requires forall j :: InUse(zone, j) <==> InUse(s.zones[z], j) || j == k
    ensures forall y, j, b, m :: ChunkAt(s', y, j, b, m) <==>
              ChunkAt(s, y, j, b, m) || (y == z && j == k && b == AddrOf(z, zone, k) && m == zone.chunk)
  {
    forall y, j, b, m ensures ChunkAt(s', y, j, b, m) <==>
              ChunkAt(s, y, j, b, m) || (y == z && j == k && b == AddrOf(z, zone, k) && m == zone.chunk) {
      if y != z { assert y in s'.zones <==> y in s.zones; }
    }
  }

  lemma TakeReady(s: Slab, zi: nat)
    requires Inv(s) && zi < NZONES && s.classes[zi] != []
    ensures var z := s.classes[zi][0]; Listed(s, zi, z) && HasChunk(s.zones[z])
  {
    var z := s.classes[zi][0];
    assert z in s.classes[zi];
    HasChunkFacts(s.zoneSize, s.zones[z]);
  }

  lemma TakeInv(s: Slab, zi: nat)
    requires Inv(s) && zi < NZONES && s.classes[zi] != []
    requires var z := s.classes[zi][0]; Listed(s, zi, z) && HasChunk(s.zones[z])
    ensures Inv(TakeChunk(s, zi).0)
  {
    var z := s.classes[zi][0];
    var s' := TakeChunk(s, zi).0;
    TakenZone(s.zoneSize, s.zones[z]);
    TailSpec(s.classes[zi]);
    ClassChange(s, s', z, zi, s'.classes[zi]);
    SameSpans(s, s');
  }

  lemma TakeLive(s: Slab, zi: nat)
    requires Inv(s) && zi < NZONES && s.classes[zi] != []
    requires var z := s.classes[zi][0]; Listed(s, zi, z) && HasChunk(s.zones[z])
    ensures var (s', a) := TakeChunk(s, zi); Inv(s') && Adds(s, s', a, ClassChunk(zi)) && a >= 0 && forall n :: !Live(s, a, n)
  {
    var z, n := s.classes[zi][0], ClassChunk(zi);
    var zone, k := s.zones[z], NextChunk(s.zones[z]);
    var (s', a) := TakeChunk(s, zi);
    TakeInv(s, zi);
    TakenZone(s.zoneSize, zone);
    ChunkRange(s.zoneSize, z, zone, k);
    ZoneTakes(s, s', z, k, Taken(zone));
    ChunkAdded(s, s', z, k, a, n);
    ChunkIsNew(s, s', z, k, a, n);
  }

  /** The pages at `z` belong to no zone in use, but are marked as one. */
  ghost predicate Vacant(s: Slab, z: nat) {
    && s.zoneSize in {32768, 65536, 131072}
    && (forall y :: y in s.zones ==> ZoneOk(s.zoneSize, s.zones[y]))
    && ClassesOk(s) && CacheOk(s) && UsageOk(s)
    && z !in s.zones && z !in s.cache && ZoneMarks(s.usage, z, ZonePages(s))
  }

  lemma OpenInv(s: Slab, z: nat, zi: nat)
    requires Vacant(s, z) && zi < NZONES && 4 * ClassChunk(zi) <= s.zoneSize
    requires FirstChunk(ClassChunk(zi)) + ClassChunk(zi) <= s.zoneSize
    requires var s' := OpenZone(s, z, zi, ClassChunk(zi)).0; Arena(s'.pages, Spans(s'), s'.table, |s'.usage|)
    ensures Inv(OpenZone(s, z, zi, ClassChunk(zi)).0)
  {
    var s' := OpenZone(s, z, zi, ClassChunk(zi)).0;
    NewZoneOk(s.zoneSize, zi);
    assert z !in s.classes[zi] by { assert z in s.classes[zi] ==> Listed(s, zi, z); }
    PushSpec(s.classes[zi], z);
    ClassChange(s, s', z, zi, s'.classes[zi]);
  }

  lemma OpenLive(s: Slab, s0: Slab, z: nat, zi: nat)
    requires Vacant(s0, z) && s0.zones == s.zones && s0.large == s.large
    requires zi < NZONES && 4 * ClassChunk(zi) <= s0.zoneSize && FirstChunk(ClassChunk(zi)) + ClassChunk(zi) <= s0.zoneSize
    requires Inv(OpenZone(s0, z, zi, ClassChunk(zi)).0)
    ensures var (s', a) := OpenZone(s0, z, zi, ClassChunk(zi)); Adds(s, s', a, ClassChunk(zi)) && a >= 0 && forall n :: !Live(s, a, n)
  {
    var (s', a) := OpenZone(s0, z, zi, ClassChunk(zi));
    var zone := NewZone(s0.zoneSize, zi, ClassChunk(zi));
    NewZoneOk(s0.zoneSize, zi);
    ZoneOpens(s, s', z, zone);
    ChunkAdded(s, s', z, 0, a, ClassChunk(zi));
    ChunkIsNew(s, s', z, 0, a, ClassChunk(zi));
  }

  lemma ZoneOpens(s: Slab, s': Slab, z: nat, zone: Zone)
    requires z !in s.zones && s'.zones == s.zones[z := zone]
    requires forall j :: InUse(zone, j) <==> j == 0
    ensures forall y, j, b, m :: ChunkAt(s', y, j, b, m) <==>
              ChunkAt(s, y, j, b, m) || (y == z && j == 0 && b == AddrOf(z, zone, 0) && m == zone.chunk)
  {
    forall y, j, b, m ensures ChunkAt(s', y, j, b, m) <==>
              ChunkAt(s, y, j, b, m) || (y == z && j == 0 && b == AddrOf(z, zone, 0) && m == zone.chunk) {
      if y != z { assert y in s'.zones <==> y in s.zones; }
    }
  }

  /** A zone from the cache. */
  lemma ReuseStep(s: Slab, zi: nat)
    requires Inv(s) && zi < NZONES && s.cache != [] && 4 * ClassChunk(zi) <= s.zoneSize
    ensures FirstChunk(ClassChunk(zi)) + ClassChunk(zi) <= s.zoneSize
    ensures var (s', a) := OpenZone(s.(cache := s.cache[1..]), s.cache[0], zi, ClassChunk(zi));
      Inv(s') && Adds(s, s', a, ClassChunk(zi)) && a >= 0 && forall n :: !Live(s, a, n)
  {
    NewZoneOk(s.zoneSize, zi);
    ReuseInv(s, zi);
    OpenLive(s, s.(cache := s.cache[1..]), s.cache[0], zi);
  }

  lemma CachedVacant(s: Slab)
    requires Inv(s) && s.cache != []
    ensures Vacant(s.(cache := s.cache[1..]), s.cache[0])
  {
    TailSpec(s.cache);
    assert s.cache[0] in s.cache;
  }

  lemma ReuseInv(s: Slab, zi: nat)
    requires Inv(s) && zi < NZONES && s.cache != [] && 4 * ClassChunk(zi) <= s.zoneSize
    requires FirstChunk(ClassChunk(zi)) + ClassChunk(zi) <= s.zoneSize
    ensures Vacant(s.(cache := s.cache[1..]), s.cache[0])
    ensures Inv(OpenZone(s.(cache := s.cache[1..]), s.cache[0], zi, ClassChunk(zi)).0)
  {
    var z := s.cache[0];
    var s0 := s.(cache := s.cache[1..]);
    CachedVacant(s);
    SameSpans(s, OpenZone(s0, z, zi, ClassChunk(zi)).0);
    OpenInv(s0, z, zi);
  }

  // ----- marking pages

  /** Writing the marks of pages that no run owns leaves the marks that matter. */
  lemma Untouched(s: Slab, usage: seq<Usage>, z: nat, n: nat)
    requires UsageOk(s) && |usage| == |s.usage| && forall i :: 0 <= i < |usage| && !(z <= i < z + n) ==> usage[i] == s.usage[i]
    requires forall y :: y in s.zones || y in s.cache ==> y + ZonePages(s) <= z || z + n <= y
    requires forall p :: p in s.large ==> !(z <= p < z + n)
    ensures UsageOk(s.(usage := usage))
  {
    forall y | y in s.zones || y in s.cache ensures ZoneMarks(usage, y, ZonePages(s)) {
      assert ZoneMarks(s.usage, y, ZonePages(s));
    }
  }

  /** Page runs `z` to `z + n` belongs to nobody. */
  lemma Elsewhere(s: Slab, z: nat, n: nat)
    requires Inv(s) && n > 0
    requires forall p :: p in Spans(s) ==> p + Spans(s)[p] <= z || z + n <= p
    ensures forall y :: y in s.zones || y in s.cache ==> y + ZonePages(s) <= z || z + n <= y
    ensures forall p :: p in s.large ==> !(z <= p < z + n)
  {
    forall y | y in s.zones || y in s.cache ensures y + ZonePages(s) <= z || z + n <= y {
      SpanOf(s, y);
      Kinds(s, y);
    }
    forall p | p in s.large ensures !(z <= p < z + n) { SpanOf(s, p); }
  }

  lemma NewRun(s: Slab, n: nat)
    requires Inv(s) && PageRuns.Alloc(s.pages, n).1 >= 0
    ensures var (pages, z) := PageRuns.Alloc(s.pages, n);
      && n > 0 && z + n <= |s.usage| && z !in Spans(s)
      && (forall p :: p in Spans(s) ==> p + Spans(s)[p] <= z || z + n <= p)
      && Arena(pages, Spans(s)[z := n], s.table, |s.usage|)
  {
    var m := Spans(s);
    ArenaTake(s.pages, m, s.table, |s.usage|, n);
    var z := PageRuns.Alloc(s.pages, n).1;
    var m' := m[z := n];
    forall p | p in m ensures p + m[p] <= z || z + n <= p { assert p in m' && z in m'; }
  }

  lemma SpansGrow(s: Slab, s': Slab, z: nat, n: nat)
    requires s'.zoneSize == s.zoneSize && s'.cache == s.cache && z !in Spans(s)
    requires || (s'.zones.Keys == s.zones.Keys + {z} && s'.large == s.large && n == ZonePages(s))
             || (s'.zones == s.zones && s'.large == s.large[z := n])
    ensures Spans(s') == Spans(s)[z := n]
  {
    assert z !in s.zones && z !in s.cache && z !in s.large;
  }

  lemma SameUsage(s: Slab, s': Slab)
    requires UsageOk(s) && s'.zoneSize == s.zoneSize && s'.usage == s.usage && s'.zones == s.zones && s'.cache == s.cache && s'.large == s.large
    ensures UsageOk(s')
  {
    forall z | z in s'.zones || z in s'.cache ensures ZoneMarks(s'.usage, z, ZonePages(s')) { assert ZoneMarks(s.usage, z, ZonePages(s)); }
  }

  lemma FreshUsage(s: Slab, s0: Slab, z: nat, n: nat)
    requires Inv(s) && n > 0 && z + n <= |s.usage| && forall p :: p in Spans(s) ==> p + Spans(s)[p] <= z || z + n <= p
    requires s0 == s.(pages := s0.pages, usage := MarkZone(s.usage, z, n))
    ensures UsageOk(s0) && ZoneMarks(s0.usage, z, n)
  {
    Elsewhere(s, z, n);
    Untouched(s, s0.usage, z, n);
    SameUsage(s.(usage := s0.usage), s0);
  }

  lemma FreshVacant(s: Slab, zi: nat, s0: Slab, z: nat)
    requires Inv(s) && zi < NZONES && 4 * ClassChunk(zi) <= s.zoneSize && PageRuns.Alloc(s.pages, ZonePages(s)).1 == z
    requires s0 == s.(pages := PageRuns.Alloc(s.pages, ZonePages(s)).0, usage := MarkZone(s.usage, z, ZonePages(s)))
    requires FirstChunk(ClassChunk(zi)) + ClassChunk(zi) <= s.zoneSize
    ensures Vacant(s0, z)
  {
    NewRun(s, ZonePages(s));
    FreshUsage(s, s0, z, ZonePages(s));
    SpanOf(s, z);
  }

  lemma FreshArena(s: Slab, zi: nat, s0: Slab, z: nat)
    requires Inv(s) && zi < NZONES && 4 * ClassChunk(zi) <= s.zoneSize && PageRuns.Alloc(s.pages, ZonePages(s)).1 == z
    requires s0 == s.(pages := PageRuns.Alloc(s.pages, ZonePages(s)).0, usage := MarkZone(s.usage, z, ZonePages(s)))
    requires FirstChunk(ClassChunk(zi)) + ClassChunk(zi) <= s.zoneSize
    ensures var s' := OpenZone(s0, z, zi, ClassChunk(zi)).0; Arena(s'.pages, Spans(s'), s'.table, |s'.usage|)
  {
    var n := ZonePages(s);
    NewRun(s, n);
    SpanOf(s, z);
    var s' := OpenZone(s0, z, zi, ClassChunk(zi)).0;
    SpansGrow(s, s', z, n);
  }

  /** A zone from the pages. */
  lemma FreshStep(s: Slab, zi: nat)
    requires Inv(s) && zi < NZONES && 4 * ClassChunk(zi) <= s.zoneSize && PageRuns.Alloc(s.pages, ZonePages(s)).1 >= 0
    ensures FirstChunk(ClassChunk(zi)) + ClassChunk(zi) <= s.zoneSize
    ensures var (pages, z) := PageRuns.Alloc(s.pages, ZonePages(s));
      var (s', a) := OpenZone(s.(pages := pages, usage := MarkZone(s.usage, z, ZonePages(s))), z, zi, ClassChunk(zi));
      Inv(s') && Adds(s, s', a, ClassChunk(zi)) && a >= 0 && forall n :: !Live(s, a, n)
  {
    var (pages, z) := PageRuns.Alloc(s.pages, ZonePages(s));
    var s0 := s.(pages := pages, usage := MarkZone(s.usage, z, ZonePages(s)));
    NewZoneOk(s.zoneSize, zi);
    FreshVacant(s, zi, s0, z);
    FreshArena(s, zi, s0, z);
    OpenInv(s0, z, zi);
    OpenLive(s, s0, z, zi);
  }

  /** A block of whole pages. */
  lemma LargeInv(s: Slab, n: nat)
    requires Inv(s) && PageRuns.Alloc(s.pages, n).1 >= 0
    ensures Inv(MallocLarge(s, n).0)
  {
    var (pages, p) := PageRuns.Alloc(s.pages, n);
    var s' := MallocLarge(s, n).0;
    NewRun(s, n);
    SpanOf(s, p);
    Elsewhere(s, p, n);
    Untouched(s, s'.usage, p, n);
    LargeMarks(s, p, n, pages);
    SpansGrow(s, s', p, n);
  }

  lemma LargeLive(s: Slab, n: nat)
    requires Inv(s) && PageRuns.Alloc(s.pages, n).1 >= 0
    ensures var (s', a) := MallocLarge(s, n); Adds(s, s', a, n * PAGE) && a >= 0 && forall m :: !Live(s, a, m)
  {
    var (pages, p) := PageRuns.Alloc(s.pages, n);
    var (s', a) := MallocLarge(s, n);
    NewRun(s, n);
    forall b, m ensures Live(s', b, m) <==> Live(s, b, m) || (b == a && m == n * PAGE) {
      SpanOf(s, p);
      assert forall y, j :: ChunkAt(s', y, j, b, m) <==> ChunkAt(s, y, j, b, m);
      assert forall q :: PagesAt(s', q, b, m) <==> PagesAt(s, q, b, m) || (q == p && b == a && m == n * PAGE);
      assert b == a && m == n * PAGE ==> PagesAt(s', p, b, m);
    }
    forall m ensures !Live(s, a, m) {
      if Live(s, a, m) { var q := LiveSpan(s, a, m); }
    }
  }

  lemma LargeMarks(s: Slab, p: nat, n: nat, pages: PageRuns.Runs)
    requires Inv(s) && p < |s.usage| && n > 0 && p !in Spans(s)
    requires UsageOk(s.(usage := s.usage[p := Large(n)]))
    ensures UsageOk(s.(pages := pages, usage := s.usage[p := Large(n)], large := s.large[p := n]))
  {
    var u := s.(usage := s.usage[p := Large(n)]);
    forall z | z in s.zones || z in s.cache ensures ZoneMarks(u.usage, z, ZonePages(s)) { assert ZoneMarks(u.usage, z, ZonePages(u)); }
  }

  /** The bytes a request gets. */
  function Granted(s: Slab, size: nat): nat { if size >= Limit(s) then PageCount(size) * PAGE else ChunkSize(size) }

  lemma GrantedEnough(s: Slab, size: nat)
    requires Inv(s) && size < WRAP && (size >= Limit(s) ==> PageCount(size) > 0)
    ensures size <= Granted(s, size)
  {
    if 0 < size < Limit(s) { ClassFacts(size); }
  }

  /** A new zone has as many chunks as fit, all but the first of them free. */
  lemma ZoneIsFull(zoneSize: nat, zi: nat, chunk: nat)
    requires chunk > 0 && FirstChunk(chunk) + chunk <= zoneSize
    ensures var zone := NewZone(zoneSize, zi, chunk);
      && zone.off + zone.nmax * chunk <= zoneSize < zone.off + zone.nmax * chunk + chunk && zone.nfree == zone.nmax - 1
  {
    var room := zoneSize - FirstChunk(chunk);
    DivMod(room, chunk);
    assert room / chunk * chunk == chunk * (room / chunk);
  }

  /** The zone used last is used first: one that is opened, one that gets a chunk back when it had none, and of the
      cached ones the one that was retired last. */
  lemma NewestFirst(s: Slab, z: nat, k: nat, zi: nat)
    requires Inv(s) && zi < NZONES
    ensures FirstChunk(ClassChunk(zi)) + ClassChunk(zi) <= s.zoneSize ==> OpenZone(s, z, zi, ClassChunk(zi)).0.classes[zi][0] == z
    ensures z in s.zones && s.zones[z].nfree == 0 ==> PutChunk(s, z, k).classes[s.zones[z].zi][0] == z
    ensures z in s.zones && |s.cache| < THRESH ==> Retire(s, z, zi).cache == [z] + s.cache
  {
    if z in s.zones { assert s.zones[z].zi < NZONES; }
  }

  /** A large request gets the fewest pages that hold it, or none if the rounding wraps. */
  lemma GrantedTight(s: Slab, size: nat)
    requires Limit(s) <= size < WRAP
    ensures if size <= WRAP - PAGE then size <= Granted(s, size) < size + PAGE else Granted(s, size) == 0
  {
    var q := (size + PAGE - 1) / PAGE;
    assert Round(size, PAGE) == q * PAGE && size <= q * PAGE < size + PAGE;
  }

  /** No free page runs, zones or chunks are left for the request. */
  ghost predicate Exhausted(s: Slab, size: nat) {
    if size >= Limit(s) then
      PageCount(size) == 0 || forall p: nat :: !PageRuns.Contiguous(s.pages, p, PageCount(size))
    else
      && s.cache == [] && (forall p: nat :: !PageRuns.Contiguous(s.pages, p, ZonePages(s)))
      && forall z :: z in s.zones && s.zones[z].chunk == ChunkSize(size) ==> s.zones[z].nfree == 0
  }

  lemma ClassEmpty(s: Slab, size: nat)
    requires Inv(s) && 0 < size < Limit(s)
    ensures 0 <= ZoneIndex(size) < NZONES
    ensures s.classes[ZoneIndex(size)] == [] <==> forall z :: z in s.zones && s.zones[z].chunk == ChunkSize(size) ==> s.zones[z].nfree == 0
  {
    Ready(s, size);
    var zi := ZoneIndex(size);
    if s.classes[zi] == [] {
      forall z | z in s.zones && s.zones[z].chunk == ChunkSize(size) ensures s.zones[z].nfree == 0 {
        assert s.zones[z].zi == zi;
        assert z in s.classes[zi] <==> Listed(s, zi, z);
      }
    } else {
      assert Listed(s, zi, s.classes[zi][0]);
    }
  }

  lemma SmallStep(s: Slab, size: nat)
    requires Inv(s) && 0 < size < Limit(s)
    ensures var (s', a) := Malloc(s, size);
      if a == NULL then s' == s else Inv(s') && a >= 0 && Adds(s, s', a, Granted(s, size)) && forall n :: !Live(s, a, n)
    ensures Malloc(s, size).1 == NULL <==> Exhausted(s, size)
  {
    Ready(s, size);
    ClassEmpty(s, size);
    var zi := ZoneIndex(size);
    if s.classes[zi] != [] {
      TakeReady(s, zi);
      TakeLive(s, zi);
    } else if s.cache != [] {
      ReuseStep(s, zi);
    } else {
      PageRuns.AllocExact(s.pages, ZonePages(s));
      if PageRuns.Alloc(s.pages, ZonePages(s)).1 >= 0 { FreshStep(s, zi); }
    }
  }

  /** Malloc fails exactly when nothing fits and then changes nothing; otherwise the block is long enough,
      was not handed out before, and every other block stays. */
  lemma MallocSpec(s: Slab, size: nat)
    requires Inv(s) && size < WRAP
    ensures var (s', a) := Malloc(s, size);
      && Inv(s')
      && (a == NULL <==> size == 0 || Exhausted(s, size))
      && (a == NULL ==> s' == s)
      && (a != NULL ==> a >= 0 && size <= Granted(s, size) && Adds(s, s', a, Granted(s, size)) && forall n :: !Live(s, a, n))
  {
    if size >= Limit(s) {
      PageRuns.AllocExact(s.pages, PageCount(size));
      if PageRuns.Alloc(s.pages, PageCount(size)).1 >= 0 {
        LargeInv(s, PageCount(size));
        LargeLive(s, PageCount(size));
        NewRun(s, PageCount(size));
        GrantedEnough(s, size);
      }
    } else if size > 0 {
      SmallStep(s, size);
      GrantedEnough(s, size);
    }
  }

  // ----- free

  lemma PutInv(s: Slab, z: nat, k: nat)
    requires Inv(s) && z in s.zones && InUse(s.zones[z], k)
    ensures Inv(PutChunk(s, z, k))
  {
    var zone, s' := s.zones[z], PutChunk(s, z, k);
    var zi := zone.zi;
    PutZone(s.zoneSize, zone, k);
    assert z in s.classes[zi] <==> Listed(s, zi, z);
    if zone.nfree == 0 { PushSpec(s.classes[zi], z); }
    ClassChange(s, s', z, zi, s'.classes[zi]);
    SameSpans(s, s');
  }

  lemma ZonePuts(s: Slab, s': Slab, z: nat, k: nat, zone: Zone)
    requires z in s.zones && s'.zones == s.zones[z := zone]
    requires zone.chunk == s.zones[z].chunk && zone.off == s.zones[z].off
    requires forall j :: InUse(zone, j) <==> InUse(s.zones[z], j) && j != k
    ensures forall y, j, b, m :: ChunkAt(s', y, j, b, m) <==> ChunkAt(s, y, j, b, m) && !(y == z && j == k)
  {
    forall y, j, b, m ensures ChunkAt(s', y, j, b, m) <==> ChunkAt(s, y, j, b, m) && !(y == z && j == k) {
      if y != z { assert y in s'.zones <==> y in s.zones; }
    }
  }

  lemma PutLive(s: Slab, z: nat, k: nat, a: int, n: nat)
    requires Inv(s) && ChunkAt(s, z, k, a, n)
    ensures Drops(s, PutChunk(s, z, k), a)
  {
    PutZone(s.zoneSize, s.zones[z], k);
    ZonePuts(s, PutChunk(s, z, k), z, k, Put(s.zones[z], k));
    ChunkDropped(s, PutChunk(s, z, k), z, k, a, n);
  }

  lemma SpansShrink(s: Slab, s': Slab, z: nat)
    requires s'.zoneSize == s.zoneSize && s'.cache == s.cache && z !in s.cache
    requires || (s'.zones == s.zones - {z} && s'.large == s.large && z !in s.large)
             || (s'.zones == s.zones && s'.large == s.large - {z} && z !in s.zones)
    ensures Spans(s') == Spans(s) - {z}
  {
  }

  lemma RetireClasses(s: Slab, z: nat)
    requires Inv(s) && z in s.zones
    ensures ClassesOk(Retire(s, z, s.zones[z].zi))
  {
    var zi := s.zones[z].zi;
    RemoveSpec(s.classes[zi], z);
    ClassChange(s, Retire(s, z, zi), z, zi, Remove(s.classes[zi], z));
  }

  lemma RetireToCache(s: Slab, z: nat)
    requires Inv(s) && z in s.zones && |s.cache| + 1 <= THRESH
    ensures Inv(Retire(s, z, s.zones[z].zi))
  {
    var s' := Retire(s, z, s.zones[z].zi);
    RetireClasses(s, z);
    Kinds(s, z);
    PushSpec(s.cache, z);
    SameSpans(s, s');
  }

  /** The other runs keep clear of the one at `z`. */
  lemma OthersElsewhere(s: Slab, z: nat)
    requires Inv(s) && z in Spans(s)
    ensures forall y :: (y in s.zones || y in s.cache) && y != z ==> y + ZonePages(s) <= z || z + Spans(s)[z] <= y
    ensures forall p :: p in s.large && p != z ==> !(z <= p < z + Spans(s)[z])
  {
    forall y | (y in s.zones || y in s.cache) && y != z ensures y + ZonePages(s) <= z || z + Spans(s)[z] <= y {
      SpanOf(s, y);
      Kinds(s, y);
    }
    forall p | p in s.large && p != z ensures !(z <= p < z + Spans(s)[z]) { SpanOf(s, p); }
  }

  lemma RetireUsage(s: Slab, z: nat)
    requires Inv(s) && z in s.zones
    ensures UsageOk(s.(zones := s.zones - {z}, usage := ClearZone(s.usage, z, ZonePages(s))))
  {
    SpanOf(s, z);
    Kinds(s, z);
    OthersElsewhere(s, z);
    Untouched(s.(zones := s.zones - {z}), ClearZone(s.usage, z, ZonePages(s)), z, ZonePages(s));
  }

  lemma RetireToPages(s: Slab, z: nat)
    requires Inv(s) && z in s.zones && |s.cache| + 1 > THRESH
    ensures Inv(Retire(s, z, s.zones[z].zi)) && PageRuns.Apart(s.pages, PageRuns.Run(z, ZonePages(s)))
  {
    var s' := Retire(s, z, s.zones[z].zi);
    RetireClasses(s, z);
    RetireUsage(s, z);
    Kinds(s, z);
    SpanOf(s, z);
    ArenaGive(s.pages, Spans(s), s.table, |s.usage|, z);
    SpansShrink(s, s', z);
    SameUsage(s.(zones := s.zones - {z}, usage := ClearZone(s.usage, z, ZonePages(s))), s');
  }

  /** A zone is given up only when none of its chunks is handed out. */
  lemma RetireLive(s: Slab, z: nat)
    requires Inv(s) && z in s.zones && s.zones[z].nfree == s.zones[z].nmax
    ensures Same(s, Retire(s, z, s.zones[z].zi))
  {
    var s' := Retire(s, z, s.zones[z].zi);
    WholeZone(s.zoneSize, s.zones[z]);
    forall b, m ensures Live(s', b, m) <==> Live(s, b, m) {
      assert forall y, j :: ChunkAt(s', y, j, b, m) <==> ChunkAt(s, y, j, b, m);
      assert forall p :: PagesAt(s', p, b, m) <==> PagesAt(s, p, b, m);
    }
  }

  lemma FreeChunkStep(s: Slab, z: nat, k: nat, a: int, n: nat)
    requires Inv(s) && ChunkAt(s, z, k, a, n)
    ensures Inv(FreeChunk(s, z, k)) && Drops(s, FreeChunk(s, z, k), a)
  {
    var s1 := PutChunk(s, z, k);
    PutInv(s, z, k);
    PutLive(s, z, k, a, n);
    if s1.zones[z].nfree == s1.zones[z].nmax && s1.classes[s.zones[z].zi] != [z] {
      RetireLive(s1, z);
      if |s1.cache| + 1 > THRESH { RetireToPages(s1, z); } else { RetireToCache(s1, z); }
    }
  }

  lemma FreeLargeInv(s: Slab, p: nat)
    requires Inv(s) && p in s.large
    ensures Inv(FreeLarge(s, p, s.large[p])) && PageRuns.Apart(s.pages, PageRuns.Run(p, s.large[p]))
  {
    Kinds(s, p);
    SpanOf(s, p);
    FreeLargeUsage(s, p);
    ArenaGive(s.pages, Spans(s), s.table, |s.usage|, p);
    SpansShrink(s, FreeLarge(s, p, s.large[p]), p);
  }

  lemma FreeLargeUsage(s: Slab, p: nat)
    requires Inv(s) && p in s.large
    ensures UsageOk(FreeLarge(s, p, s.large[p]))
  {
    var s' := FreeLarge(s, p, s.large[p]);
    var s0 := s.(large := s.large - {p});
    Kinds(s, p);
    SpanOf(s, p);
    OthersElsewhere(s, p);
    SameUsageBut(s, p);
    Untouched(s0, s'.usage, p, 1);
    SameUsage(s0.(usage := s'.usage), s');
  }

  lemma SameUsageBut(s: Slab, p: nat)
    requires UsageOk(s)
    ensures UsageOk(s.(large := s.large - {p}))
  {
    var s' := s.(large := s.large - {p});
    forall z | z in s'.zones || z in s'.cache ensures ZoneMarks(s'.usage, z, ZonePages(s')) { assert ZoneMarks(s.usage, z, ZonePages(s)); }
  }

  lemma FreeLargeLive(s: Slab, p: nat, a: int, n: nat)
    requires Inv(s) && PagesAt(s, p, a, n)
    ensures Drops(s, FreeLarge(s, p, s.large[p]), a)
  {
    var s' := FreeLarge(s, p, s.large[p]);
    forall b, m ensures Live(s', b, m) <==> Live(s, b, m) && b != a {
      assert forall y, j :: ChunkAt(s', y, j, b, m) <==> ChunkAt(s, y, j, b, m);
      forall q ensures PagesAt(s', q, b, m) <==> PagesAt(s, q, b, m) && b != a { }
      forall y, j | ChunkAt(s, y, j, b, m) ensures b != a { NoPlace(s, y, j, p, b, m, a, n); }
    }
  }

  lemma ChunkHome(s: Slab, z: nat, k: nat, a: int, n: nat)
    requires Inv(s) && ChunkAt(s, z, k, a, n)
    ensures a >= 0 && !InLarge(s, a) && InZone(s, a) && ZoneOf(s, a) == z && s.zones[z].chunk > 0 && PlaceOf(z, s.zones[z], a) == k
  {
    InSpan(s, z, k, a, n);
    SpanOf(s, z);
    assert ZoneMarks(s.usage, z, ZonePages(s));
    assert s.usage[PageOf(a)] == Small(PageOf(a) - z);
    PlaceBack(z, s.zones[z], k);
  }

  /** From any address handed out, memusage leads to the block itself: to the zone it was cut from, and there
      to its own chunk, or to its own page run. */
  lemma LeadsHome(s: Slab, a: int, n: nat)
    requires Inv(s) && Live(s, a, n)
    ensures a >= 0
    ensures InLarge(s, a) ==> PagesAt(s, PageOf(a), a, n) && s.usage[PageOf(a)].pages == s.large[PageOf(a)]
    ensures !InLarge(s, a) ==> InZone(s, a) && var z := ZoneOf(s, a); var k := PlaceOf(z, s.zones[z], a); k >= 0 && ChunkAt(s, z, k, a, n)
  {
    if !exists p :: PagesAt(s, p, a, n) {
      var z: nat, k: nat :| ChunkAt(s, z, k, a, n);
      ChunkHome(s, z, k, a, n);
    }
  }

  /** Free takes exactly the block at its address out of those handed out. */
  lemma FreeSpec(s: Slab, a: int, n: nat)
    requires Inv(s) && Live(s, a, n)
    ensures a >= 0 && Known(s, a)
    ensures Inv(Free(s, a)) && Drops(s, Free(s, a), a)
  {
    LeadsHome(s, a, n);
    if InLarge(s, a) {
      FreeLargeInv(s, PageOf(a));
      FreeLargeLive(s, PageOf(a), a, n);
    } else {
      var z := ZoneOf(s, a);
      FreeChunkStep(s, z, PlaceOf(z, s.zones[z], a), a, n);
    }
  }
}
