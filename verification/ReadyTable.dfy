/** The two-level ready bitmap of the 256-priority build (scheduler.c): one group bit for every
    byte of the table, one table bit for every priority. */
module ReadyTables {
  import opened Arithmetic
  import opened Bitmaps

  /** rt_thread_ready_priority_group, rt_thread_ready_table and the lengths of the lists of
      rt_thread_priority_table. */
  datatype Table = Table(group: nat, bytes: seq<nat>, lists: seq<nat>)

  predicate Shaped(t: Table) {
    && |t.bytes| == 32 && |t.lists| == 256 && t.group < 0x1_0000_0000
    && forall n :: 0 <= n < 32 ==> t.bytes[n] < 256
  }

  /** A bit for every list that is not empty, and for every byte that is not zero. */
  ghost predicate Agrees(t: Table) {
    && Shaped(t)
    && (forall n: nat, b: nat :: n < 32 && b < 8 ==> (Bit(t.bytes[n], b) <==> t.lists[8 * n + b] > 0))
    && (forall n: nat :: n < 32 ==> (Bit(t.group, n) <==> t.bytes[n] != 0))
  }

  function Empty(): Table { Table(0, seq(32, _ => 0), seq(256, _ => 0)) }

  /** rt_schedule_insert_thread: number = priority >> 3, high_mask = 1 << (priority & 7). */
  function Insert(t: Table, p: nat): Table
    requires Shaped(t) && p < 256
  {
    t.(lists := t.lists[p := t.lists[p] + 1], bytes := t.bytes[p / 8 := With(t.bytes[p / 8], p % 8)], group := With(t.group, p / 8))
  }

  /** rt_schedule_remove_thread */
  function Remove(t: Table, p: nat): Table
    requires Shaped(t) && p < 256
  {
    var lists := t.lists[p := if t.lists[p] > 0 then t.lists[p] - 1 else 0];
    if lists[p] > 0 then t.(lists := lists)
    else
      var byte := Without(t.bytes[p / 8], p % 8);
      Table(if byte == 0 then Without(t.group, p / 8) else t.group, t.bytes[p / 8 := byte], lists)
  }

  /** _get_highest_priority_thread */
  function Highest(t: Table): int
    requires Shaped(t) && t.group != 0
  {
    var number := Ffs(t.group) - 1;
    8 * number + Ffs(t.bytes[number]) - 1
  }

  lemma Widths(t: Table, p: nat)
    requires Shaped(t) && p < 256
    ensures With(t.group, p / 8) < 0x1_0000_0000 && Without(t.group, p / 8) < 0x1_0000_0000
    ensures With(t.bytes[p / 8], p % 8) < 256 && Without(t.bytes[p / 8], p % 8) < 256
  {
    WordWidth();
    InWidth(t.group, p / 8, 32);
    InWidth(t.bytes[p / 8], p % 8, 8);
  }

  lemma Place(p: nat, n: nat, b: nat)
    requires b < 8
    ensures 8 * n + b == p <==> n == p / 8 && b == p % 8
  {
  }

  lemma EmptyAgrees()
    ensures Agrees(Empty())
  {
    forall p: nat ensures !Bit(0, p) { ZeroBit(p); }
  }

  lemma ZeroByte(g: nat, b: nat)
    requires Bit(g, b)
    ensures g != 0
  {
    ZeroBit(b);
  }

  lemma InsertAgrees(t: Table, p: nat)
    requires Agrees(t) && p < 256
    ensures Agrees(Insert(t, p))
  {
    var r := Insert(t, p);
    Widths(t, p);
    forall n: nat, b: nat | n < 32 && b < 8 ensures Bit(r.bytes[n], b) <==> r.lists[8 * n + b] > 0 {
      OneBitSet(t.bytes[p / 8], p % 8, b);
      Place(p, n, b);
    }
    OneBitSet(t.bytes[p / 8], p % 8, p % 8);
    ZeroByte(r.bytes[p / 8], p % 8);
    forall n: nat | n < 32 ensures Bit(r.group, n) <==> r.bytes[n] != 0 { OneBitSet(t.group, p / 8, n); }
  }

  lemma RemoveBits(t: Table, p: nat, n: nat, b: nat)
    requires Agrees(t) && p < 256 && Shaped(Remove(t, p)) && n < 32 && b < 8
    ensures Bit(Remove(t, p).bytes[n], b) <==> Remove(t, p).lists[8 * n + b] > 0
  {
    OneBitCleared(t.bytes[p / 8], p % 8, b);
    Place(p, n, b);
  }

  lemma RemoveGroup(t: Table, p: nat, n: nat)
    requires Agrees(t) && p < 256 && Shaped(Remove(t, p)) && n < 32
    ensures Bit(Remove(t, p).group, n) <==> Remove(t, p).bytes[n] != 0
  {
    OneBitCleared(t.group, p / 8, n);
    if n == p / 8 && t.bytes[n] == 0 { Cleared(p % 8); }
  }

  lemma RemoveAgrees(t: Table, p: nat)
    requires Agrees(t) && p < 256
    ensures Agrees(Remove(t, p))
  {
    var r := Remove(t, p);
    Widths(t, p);
    forall n: nat, b: nat | n < 32 && b < 8 ensures Bit(r.bytes[n], b) <==> r.lists[8 * n + b] > 0 { RemoveBits(t, p, n, b); }
    forall n: nat | n < 32 ensures Bit(r.group, n) <==> r.bytes[n] != 0 { RemoveGroup(t, p, n); }
  }

  lemma {:induction false} Cleared(p: nat)
    ensures Without(0, p) == 0
  {
    if p > 0 { Cleared(p - 1); }
  }

  datatype Op = DoInsert(prio: nat) | DoRemove(prio: nat)

  function Run(t: Table, ops: seq<Op>): Table
    requires Shaped(t) && forall i :: 0 <= i < |ops| ==> ops[i].prio < 256
    decreases |ops|
  {
    if ops == [] then t
    else
      var r := if ops[0].DoInsert? then Insert(t, ops[0].prio) else Remove(t, ops[0].prio);
      if Shaped(r) then Run(r, ops[1..]) else r
  }

  lemma {:induction false} RunAgrees(t: Table, ops: seq<Op>)
    requires Agrees(t) && forall i :: 0 <= i < |ops| ==> ops[i].prio < 256
    ensures Agrees(Run(t, ops))
    decreases |ops|
  {
    if ops != [] {
      if ops[0].DoInsert? {
        InsertAgrees(t, ops[0].prio);
        RunAgrees(Insert(t, ops[0].prio), ops[1..]);
      } else {
        RemoveAgrees(t, ops[0].prio);
        RunAgrees(Remove(t, ops[0].prio), ops[1..]);
      }
    }
  }

  lemma ListedBits(t: Table, p: nat)
    requires Agrees(t) && p < 256 && t.lists[p] > 0
    ensures Bit(t.group, p / 8) && Bit(t.bytes[p / 8], p % 8) && t.group != 0
  {
    DivMod(p, 8);
    ListedBit(t, p / 8, p % 8);
  }

  lemma ListedBit(t: Table, n: nat, b: nat)
    requires Agrees(t) && n < 32 && b < 8 && t.lists[8 * n + b] > 0
    ensures Bit(t.group, n) && Bit(t.bytes[n], b) && t.group != 0
  {
    ZeroByte(t.bytes[n], b);
    ZeroByte(t.group, n);
  }

  lemma FirstByte(t: Table)
    requires Agrees(t) && t.group != 0
    ensures var n := Ffs(t.group) - 1; var b := Ffs(t.bytes[n]) - 1;
      && First(t.group, n) && t.bytes[n] != 0 && 0 <= b < 8 && First(t.bytes[n], b)
  {
    FfsSpec(t.group);
    var n := Ffs(t.group) - 1;
    FfsSpec(t.bytes[n]);
    FfsIsLow(t.bytes[n]);
    WordWidth();
    LowInWidth(t.bytes[n], 8);
  }

  lemma ListedAt(t: Table, n: nat, b: nat)
    requires Agrees(t) && n < 32 && b < 8 && Bit(t.bytes[n], b)
    ensures t.lists[8 * n + b] > 0
  {
  }

  lemma ListedAfter(t: Table, p: nat, n: nat, b: nat)
    requires Agrees(t) && n < 32 && b < 8 && p < 8 * n + b && First(t.group, n) && First(t.bytes[n], b)
    ensures t.lists[p] == 0
  {
    assert p / 8 < n || (p / 8 == n && p % 8 < b);
    if t.lists[p] > 0 { ListedBits(t, p); }
  }

  /** Group and byte together select exactly the smallest priority whose list is not empty. */
  lemma HighestIsSmallest(t: Table)
    requires Agrees(t) && t.group != 0
    ensures 0 <= Highest(t) < 256 && t.lists[Highest(t)] > 0 && forall p :: 0 <= p < Highest(t) ==> t.lists[p] == 0
  {
    FirstByte(t);
    var n := Ffs(t.group) - 1;
    var b := Ffs(t.bytes[n]) - 1;
    ListedAt(t, n, b);
    forall p: nat | p < 8 * n + b ensures t.lists[p] == 0 { ListedAfter(t, p, n, b); }
  }

  lemma NothingListed(t: Table)
    requires Agrees(t)
    ensures t.group == 0 <==> forall p :: 0 <= p < 256 ==> t.lists[p] == 0
  {
    forall p: nat | p < 256 && t.lists[p] > 0 ensures t.group != 0 { ListedBits(t, p); }
    if t.group != 0 { HighestIsSmallest(t); }
  }

  /** After any run of insertions and removals from the empty table. */
  lemma RunSelectsSmallest(ops: seq<Op>)
    requires forall i :: 0 <= i < |ops| ==> ops[i].prio < 256
    ensures var t := Run(Empty(), ops);
      && Shaped(t)
      && (t.group == 0 <==> forall p :: 0 <= p < 256 ==> t.lists[p] == 0)
      && (t.group != 0 ==> 0 <= Highest(t) < 256 && t.lists[Highest(t)] > 0 && forall p :: 0 <= p < Highest(t) ==> t.lists[p] == 0)
  {
    EmptyAgrees();
    RunAgrees(Empty(), ops);
    NothingListed(Run(Empty(), ops));
    if Run(Empty(), ops).group != 0 { HighestIsSmallest(Run(Empty(), ops)); }
  }
}
