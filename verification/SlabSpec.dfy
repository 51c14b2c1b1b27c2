/** The zones of slab.c on top of its page list. Addresses are byte offsets from heap_start; a zone is
    named by its first page, a chunk by its place in its zone. */
module SlabSpec {
  import opened Arithmetic
  import opened PageRuns
  import opened Sequences

  const PAGE: nat := 4096             // RT_MM_PAGE_SIZE
  const NZONES: nat := 72
  const THRESH: nat := 2              // ZONE_RELEASE_THRESH
  const ZONE_HEADER: nat := 36        // sizeof(slab_zone)
  const MIN_CHUNK: nat := 8           // MIN_CHUNK_SIZE
  const MAX_SMALL: nat := 16384       // ZALLOC_ZONE_LIMIT
  const NULL: int := -1

  /** struct memusage */
  datatype Usage = FreePage | Small(offset: nat) | Large(pages: nat)

  /** struct slab_zone; `free` is z_freechunk from its head on. */
  datatype Zone = Zone(zi: nat, chunk: nat, off: nat, nmax: nat, nfree: nat, uindex: nat, free: seq<nat>)

  /** `classes` is zone_array and `cache` is zone_free, as the lists they head; `usage` is memusage, which
      fills the first `table` pages. `large` is no field of the source: the page runs handed out directly. */
  datatype Slab = Slab(table: nat, zoneSize: nat, pages: Runs, usage: seq<Usage>, zones: map<nat, Zone>,
                       classes: seq<seq<nat>>, cache: seq<nat>, large: map<nat, nat>)

  function ZonePages(s: Slab): nat { s.zoneSize / PAGE }

  /** zone_limit */
  function Limit(s: Slab): nat { if s.zoneSize / 4 > MAX_SMALL then MAX_SMALL else s.zoneSize / 4 }

  // ----- rt_system_heap_init

  /** The doubling loop for the zone size of a heap of `bytes`, from `size` on. */
  function GrowZone(size: nat, bytes: nat): nat
    requires size > 0
    decreases if size < 131072 then 131072 - size else 0
  {
    if size < 131072 && 2 * size < bytes / 1024 then GrowZone(2 * size, bytes) else size
  }

  /** The pages of the memusage table itself, four bytes a page. */
  function TablePages(npages: nat): nat { Round(4 * npages, PAGE) / PAGE }

  /** The table is not cleared: its words are whatever the memory held. */
  function Init(words: seq<Usage>): Slab
    requires words != []
  {
    var n := |words|;
    Slab(TablePages(n), GrowZone(32768, n * PAGE), Alloc(Release(Nil, Run(0, n)), TablePages(n)).0, words, map[],
         seq(NZONES, _ => []), [], map[])
  }

  // ----- zoneindex

  function Round(n: nat, m: nat): nat
    requires m > 0
  {
    (n + m - 1) / m * m
  }

  function Grain(n: nat): nat {
    if n < 128 then 8 else if n < 256 then 16 else if n < 512 then 32 else if n < 1024 then 64
    else if n < 2048 then 128 else if n < 4096 then 256 else if n < 8192 then 512 else 1024
  }

  function Base(n: nat): int {
    if n < 128 then -1 else if n < 256 then 7 else if n < 512 then 15 else if n < 1024 then 23
    else if n < 2048 then 31 else if n < 4096 then 39 else if n < 8192 then 47 else 55
  }

  /** What zoneindex makes of the request; it leaves a size it does not know alone. */
  function ChunkSize(n: nat): nat { if n < MAX_SMALL then Round(n, Grain(n)) else n }

  function ZoneIndex(n: nat): int { if n < MAX_SMALL then ChunkSize(n) / Grain(n) + Base(n) else 0 }

  // ----- the invariant

  function AddrOf(z: nat, zone: Zone, k: nat): int { z * PAGE + zone.off + k * zone.chunk }

  /** The chunk sizes in the order of their classes. */
  function ClassChunk(i: nat): nat {
    if i < 16 then 8 * (i + 1) else if i < 24 then 16 * (i - 7) else if i < 32 then 32 * (i - 15)
    else if i < 40 then 64 * (i - 23) else if i < 48 then 128 * (i - 31) else if i < 56 then 256 * (i - 39)
    else if i < 64 then 512 * (i - 47) else 1024 * (i - 55)
  }

  /** z_nfree counts the chunks never used and the chunks on the free list, each once. */
  ghost predicate ZoneOk(zoneSize: nat, zone: Zone) {
    && zone.zi < NZONES && zone.chunk == ClassChunk(zone.zi)
    && ZONE_HEADER <= zone.off == FirstChunk(zone.chunk) && zone.off + zone.nmax * zone.chunk <= zoneSize
    && 2 <= zone.nmax && zone.uindex < zone.nmax
    && zone.nfree == zone.nmax - 1 - zone.uindex + |zone.free|
    && Distinct(zone.free) && forall k :: k in zone.free ==> k <= zone.uindex
  }

  /** zone_array lists exactly the zones with a free chunk, under their class, once each. */
  ghost predicate ClassesOk(s: Slab) {
    && |s.classes| == NZONES
    && (forall i :: 0 <= i < NZONES ==> Distinct(s.classes[i]))
    && forall i, z :: 0 <= i < NZONES ==> (z in s.classes[i] <==> z in s.zones && s.zones[z].zi == i && s.zones[z].nfree > 0)
  }

  ghost predicate CacheOk(s: Slab) {
    Distinct(s.cache) && |s.cache| <= THRESH && forall z :: z in s.cache ==> z !in s.zones
  }

  /** The page runs in use with their lengths: zones, cached zones and large blocks. */
  ghost function Spans(s: Slab): map<nat, nat> {
    map p | p in s.zones.Keys + (set z | z in s.cache) + s.large.Keys :: if p in s.large then s.large[p] else ZonePages(s)
  }

  ghost predicate Owned(m: map<nat, nat>, i: nat) { exists p :: p in m && p <= i < p + m[p] }

  /** Every page from `lo` to `hi` is either free or in exactly one run. */
  ghost predicate Arena(rs: Runs, m: map<nat, nat>, lo: nat, hi: nat) {
    && Canonical(rs)
    && (forall p :: p in m ==> m[p] > 0 && lo <= p && p + m[p] <= hi)
    && (forall p, q :: p in m && q in m && p < q ==> p + m[p] <= q)
    && (forall i: nat :: PageRuns.Free(rs, i) ==> lo <= i < hi)
    && (forall i: nat :: lo <= i < hi ==> (PageRuns.Free(rs, i) <==> !Owned(m, i)))
  }

  ghost predicate ZoneMarks(usage: seq<Usage>, z: nat, n: nat) {
    z + n <= |usage| && forall i :: z <= i < z + n ==> usage[i] == Small(i - z)
  }

  /** memusage tells the pages of a zone how far back it starts, and a large block its length. */
  ghost predicate UsageOk(s: Slab) {
    && (forall z :: z in s.zones || z in s.cache ==> ZoneMarks(s.usage, z, ZonePages(s)))
    && (forall p :: p in s.large ==> p < |s.usage| && s.large[p] > 0 && s.usage[p] == Large(s.large[p]))
  }

  ghost predicate Inv(s: Slab) {
    && s.zoneSize in {32768, 65536, 131072}
    && (forall z :: z in s.zones ==> ZoneOk(s.zoneSize, s.zones[z]))
    && ClassesOk(s) && CacheOk(s) && UsageOk(s)
    && Arena(s.pages, Spans(s), s.table, |s.usage|)
  }

  // ----- rt_malloc

  predicate PowerOfTwo(n: nat) { n == 1 || (n > 0 && n % 2 == 0 && PowerOfTwo(n / 2)) }

  /** The first chunk comes after the zone header, at a multiple of a power-of-two chunk size. */
  function FirstChunk(chunk: nat): nat
    requires chunk > 0
  {
    if PowerOfTwo(chunk) then Round(ZONE_HEADER, chunk) else Round(ZONE_HEADER, MIN_CHUNK)
  }

  /** A new zone with its first chunk in use. */
  function NewZone(zoneSize: nat, zi: nat, chunk: nat): Zone
    requires chunk > 0 && FirstChunk(chunk) + chunk <= zoneSize
  {
    var off := FirstChunk(chunk);
    Zone(zi, chunk, off, (zoneSize - off) / chunk, (zoneSize - off) / chunk - 1, 0, [])
  }

  predicate HasChunk(zone: Zone) { zone.nfree > 0 && (zone.uindex + 1 == zone.nmax ==> zone.free != []) }

  /** The place taken next: one never used before, else the one freed last. */
  function NextChunk(zone: Zone): nat
    requires HasChunk(zone)
  {
    if zone.uindex + 1 != zone.nmax then zone.uindex + 1 else zone.free[0]
  }

  function Taken(zone: Zone): Zone
    requires HasChunk(zone)
  {
    if zone.uindex + 1 != zone.nmax then zone.(nfree := zone.nfree - 1, uindex := zone.uindex + 1)
    else zone.(nfree := zone.nfree - 1, free := zone.free[1..])
  }

  /** A chunk of the first zone of class `zi`, which leaves the class when that was its last one. */
  function TakeChunk(s: Slab, zi: nat): (Slab, int)
    requires zi < |s.classes| && s.classes[zi] != [] && s.classes[zi][0] in s.zones && HasChunk(s.zones[s.classes[zi][0]])
  {
    var z := s.classes[zi][0];
    var zone := Taken(s.zones[z]);
    (s.(zones := s.zones[z := zone], classes := if zone.nfree == 0 then s.classes[zi := s.classes[zi][1..]] else s.classes),
     AddrOf(z, zone, NextChunk(s.zones[z])))
  }

  /** The zone at page `z` starts a new life as the first of class `zi`. */
  function OpenZone(s: Slab, z: nat, zi: nat, chunk: nat): (Slab, int)
    requires zi < |s.classes| && chunk > 0 && FirstChunk(chunk) + chunk <= s.zoneSize
  {
    var zone := NewZone(s.zoneSize, zi, chunk);
    (s.(zones := s.zones[z := zone], classes := s.classes[zi := [z] + s.classes[zi]]), AddrOf(z, zone, 0))
  }

  function MarkZone(usage: seq<Usage>, z: nat, n: nat): seq<Usage> {
    seq(|usage|, i requires 0 <= i < |usage| => if z <= i < z + n then Small(i - z) else usage[i])
  }

  function ClearZone(usage: seq<Usage>, z: nat, n: nat): seq<Usage> {
    seq(|usage|, i requires 0 <= i < |usage| => if z <= i < z + n then FreePage else usage[i])
  }

  function MallocSmall(s: Slab, zi: nat, chunk: nat): (Slab, int)
    requires zi < |s.classes| && chunk > 0 && FirstChunk(chunk) + chunk <= s.zoneSize
    requires s.classes[zi] != [] ==> s.classes[zi][0] in s.zones && HasChunk(s.zones[s.classes[zi][0]])
  {
    if s.classes[zi] != [] then TakeChunk(s, zi)
    else if s.cache != [] then OpenZone(s.(cache := s.cache[1..]), s.cache[0], zi, chunk)
    else
      var (pages, z) := Alloc(s.pages, ZonePages(s));
      if z < 0 then (s.(pages := pages), NULL)
      else OpenZone(s.(pages := pages, usage := MarkZone(s.usage, z, ZonePages(s))), z, zi, chunk)
  }

  /** The size rounded up to pages, as 32 bits hold it. */
  function PageCount(size: nat): nat { Round(size, PAGE) % WRAP / PAGE }

  function MallocLarge(s: Slab, n: nat): (Slab, int) {
    var (pages, p) := Alloc(s.pages, n);
    if 0 <= p < |s.usage| then (s.(pages := pages, usage := s.usage[p := Large(n)], large := s.large[p := n]), p * PAGE)
    else (s.(pages := pages), NULL)
  }

  // ----- rt_free

  function FreeLarge(s: Slab, p: nat, n: nat): Slab
    requires p < |s.usage|
  {
    s.(usage := s.usage[p := Large(0)], large := s.large - {p}, pages := Release(s.pages, Run(p, n)))
  }

  /** A zone without a chunk in use leaves its class for the cache; the third one goes back to the pages. */
  function Retire(s: Slab, z: nat, zi: nat): Slab
    requires zi < |s.classes|
  {
    var s1 := s.(classes := s.classes[zi := Remove(s.classes[zi], z)], zones := s.zones - {z});
    if |s.cache| + 1 > THRESH then
      s1.(usage := ClearZone(s.usage, z, ZonePages(s)), pages := Release(s.pages, Run(z, ZonePages(s))))
    else s1.(cache := [z] + s.cache)
  }

  /** A zone whose chunks were all in use goes back to its class first. */
  function PutChunk(s: Slab, z: nat, k: nat): Slab
    requires z in s.zones && s.zones[z].zi < |s.classes|
  {
    var zone := s.zones[z];
    s.(zones := s.zones[z := zone.(free := [k] + zone.free, nfree := zone.nfree + 1)],
       classes := if zone.nfree == 0 then s.classes[zone.zi := [z] + s.classes[zone.zi]] else s.classes)
  }

  /** The only zone left of its class stays. */
  function FreeChunk(s: Slab, z: nat, k: nat): Slab
    requires z in s.zones && s.zones[z].zi < |s.classes|
  {
    var s1, zi := PutChunk(s, z, k), s.zones[z].zi;
    if s1.zones[z].nfree == s1.zones[z].nmax && s1.classes[zi] != [z] then Retire(s1, z, zi) else s1
  }

  // ----- blocks

  predicate InUse(zone: Zone, k: nat) { k <= zone.uindex && k !in zone.free }

  ghost predicate ChunkAt(s: Slab, z: nat, k: nat, a: int, n: nat) {
    z in s.zones && InUse(s.zones[z], k) && a == AddrOf(z, s.zones[z], k) && n == s.zones[z].chunk
  }

  ghost predicate PagesAt(s: Slab, p: nat, a: int, n: nat) { p in s.large && a == p * PAGE && n == s.large[p] * PAGE }

  /** A block of `n` bytes is handed out at `a`. */
  ghost predicate Live(s: Slab, a: int, n: nat) {
    (exists z, k :: ChunkAt(s, z, k, a, n)) || exists p :: PagesAt(s, p, a, n)
  }

  // ----- size classes and zones

  lemma InClass(n: nat, g: nat, base: int)
    requires g in {8, 16, 32, 64, 128, 256, 512, 1024} && n < MAX_SMALL && Grain(n) == g && Base(n) == base
    ensures n <= ChunkSize(n) < n + g && ChunkSize(n) == g * (ZoneIndex(n) - base)
  {
    RoundIs(n, g);
  }

  lemma RoundIs(n: nat, g: nat)
    requires g > 0
    ensures n <= Round(n, g) < n + g && Round(n, g) == g * (Round(n, g) / g)
  {
    var q := (n + g - 1) / g;
    DivMod(n + g - 1, g);
    Multiple(q, g);
    assert q * g == g * q;
  }

  /** The class of a request is the first whose chunks are long enough. */
  lemma ClassFacts(n: nat)
    requires 0 < n < MAX_SMALL
    ensures 0 <= ZoneIndex(n) < NZONES && n <= ChunkSize(n) == ClassChunk(ZoneIndex(n))
    ensures forall i :: 0 <= i < ZoneIndex(n) ==> ClassChunk(i) < n
  {
    InClass(n, Grain(n), Base(n));
  }

  lemma {:induction false} FirstChunkFacts(chunk: nat)
    requires chunk >= MIN_CHUNK
    ensures ZONE_HEADER <= FirstChunk(chunk) <= ZONE_HEADER + chunk
  {
    var q := (ZONE_HEADER + chunk - 1) / chunk;
    assert q * chunk == ZONE_HEADER + chunk - 1 - (ZONE_HEADER + chunk - 1) % chunk;
  }

  /** A size below the limit leaves room for at least two chunks in a zone. */
  lemma NewZoneOk(zoneSize: nat, zi: nat)
    requires zi < NZONES && zoneSize >= 32768 && 4 * ClassChunk(zi) <= zoneSize
    ensures FirstChunk(ClassChunk(zi)) + ClassChunk(zi) <= zoneSize
    ensures ZoneOk(zoneSize, NewZone(zoneSize, zi, ClassChunk(zi)))
    ensures forall k :: InUse(NewZone(zoneSize, zi, ClassChunk(zi)), k) <==> k == 0
  {
    var chunk := ClassChunk(zi);
    FirstChunkFacts(chunk);
    var room := zoneSize - FirstChunk(chunk);
    PartsFit(room, chunk);
  }

  lemma HasChunkFacts(zoneSize: nat, zone: Zone)
    requires ZoneOk(zoneSize, zone) && zone.nfree > 0
    ensures HasChunk(zone)
  {
  }

  /** What the code takes for granted of a class it takes a chunk from. */
  lemma Ready(s: Slab, size: nat)
    requires Inv(s) && 0 < size < Limit(s)
    ensures size < MAX_SMALL && 0 <= ZoneIndex(size) < NZONES && ChunkSize(size) == ClassChunk(ZoneIndex(size)) > 0
    ensures 4 * ChunkSize(size) <= s.zoneSize && FirstChunk(ChunkSize(size)) + ChunkSize(size) <= s.zoneSize
    ensures var q := s.classes[ZoneIndex(size)]; q != [] ==> q[0] in s.zones && s.zones[q[0]].zi == ZoneIndex(size) && HasChunk(s.zones[q[0]])
  {
    ClassFacts(size);
    InClass(size, Grain(size), Base(size));
    NewZoneOk(s.zoneSize, ZoneIndex(size));
    var q := s.classes[ZoneIndex(size)];
    if q != [] { HasChunkFacts(s.zoneSize, s.zones[q[0]]); }
  }

  function Malloc(s: Slab, size: nat): (Slab, int)
    requires Inv(s)
  {
    if size == 0 then (s, NULL)
    else if size >= Limit(s) then MallocLarge(s, PageCount(size))
    else
      Ready(s, size);
      MallocSmall(s, ZoneIndex(size), ChunkSize(size))
  }

  /** The page of an address, and the zone memusage says it belongs to. */
  function PageOf(ptr: nat): nat { ptr / PAGE }

  predicate InZone(s: Slab, ptr: nat) {
    var p := PageOf(ptr);
    p < |s.usage| && s.usage[p].Small? && p - s.usage[p].offset in s.zones
  }

  function ZoneOf(s: Slab, ptr: nat): nat
    requires InZone(s, ptr)
  {
    PageOf(ptr) - s.usage[PageOf(ptr)].offset
  }

  function PlaceOf(z: nat, zone: Zone, ptr: nat): int
    requires zone.chunk > 0
  {
    (ptr - z * PAGE - zone.off) / zone.chunk
  }

  predicate InLarge(s: Slab, ptr: nat) {
    PageOf(ptr) < |s.usage| && s.usage[PageOf(ptr)].Large?
  }

  /** What the code takes for granted of a block it frees. */
  predicate Known(s: Slab, ptr: nat) {
    InLarge(s, ptr) || (InZone(s, ptr) && s.zones[ZoneOf(s, ptr)].chunk > 0 && s.zones[ZoneOf(s, ptr)].zi < |s.classes|
                        && PlaceOf(ZoneOf(s, ptr), s.zones[ZoneOf(s, ptr)], ptr) >= 0)
  }

  /** memusage alone decides between the two kinds of blocks. */
  function Free(s: Slab, ptr: int): Slab
    requires Inv(s)
    requires ptr != NULL ==> ptr >= 0 && Known(s, ptr)
  {
    if ptr == NULL then s
    else if InLarge(s, ptr) then FreeLarge(s, PageOf(ptr), s.usage[PageOf(ptr)].pages)
    else FreeChunk(s, ZoneOf(s, ptr), PlaceOf(ZoneOf(s, ptr), s.zones[ZoneOf(s, ptr)], ptr))
  }
}
