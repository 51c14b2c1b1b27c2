/** The circular doubly linked lists of rtservice.h. Nodes are numbered; `next` and `prev` hold the
    two links of every node. */
module RtLists {
  import opened Sequences

  type Node = int
  type Memory = map<Node, Node>

  /** From node `a` the links lead through `q` to node `b`, and back. */
  ghost predicate Path(next: Memory, prev: Memory, a: Node, q: seq<Node>, b: Node)
    decreases |q|
  {
    a in next && b in prev &&
    if q == [] then next[a] == b && prev[b] == a
    else next[a] == q[0] && q[0] in prev && prev[q[0]] == a && Path(next, prev, q[0], q[1..], b)
  }

  /** The list with head node `l` has the nodes `q`, in order. */
  ghost predicate Ring(next: Memory, prev: Memory, l: Node, q: seq<Node>) {
    Path(next, prev, l, q, l) && Distinct(q) && l !in q
  }

  lemma {:induction false} PathSplit(next: Memory, prev: Memory, a: Node, p: seq<Node>, x: Node, q: seq<Node>, b: Node)
    ensures Path(next, prev, a, p + [x] + q, b) <==> Path(next, prev, a, p, x) && Path(next, prev, x, q, b)
    decreases |p|
  {
    if p == [] {
      assert [] + [x] + q == [x] + q && ([x] + q)[1..] == q;
    } else {
      assert (p + [x] + q)[1..] == p[1..] + [x] + q;
      PathSplit(next, prev, p[0], p[1..], x, q, b);
    }
  }

  /** Only the forward links of `a` and `q`, and the backward links of `q` and `b`, matter. */
  lemma {:induction false} PathFrame(next: Memory, prev: Memory, next': Memory, prev': Memory, a: Node, q: seq<Node>, b: Node)
    requires Path(next, prev, a, q, b)
    requires forall x :: (x == a || x in q) && x in next ==> x in next' && next'[x] == next[x]
    requires forall x :: (x == b || x in q) && x in prev ==> x in prev' && prev'[x] == prev[x]
    ensures Path(next', prev', a, q, b)
    decreases |q|
  {
    if q != [] { PathFrame(next, prev, next', prev', q[0], q[1..], b); }
  }

  lemma {:induction false} PathEnds(next: Memory, prev: Memory, a: Node, q: seq<Node>, b: Node)
    requires Path(next, prev, a, q, b)
    ensures next[a] == if q == [] then b else q[0]
    ensures prev[b] == if q == [] then a else q[|q| - 1]
    decreases |q|
  {
    if q != [] { PathEnds(next, prev, q[0], q[1..], b); }
  }

  lemma DistinctParts(p: seq<Node>, x: Node, q: seq<Node>)
    requires Distinct(p + [x] + q)
    ensures Distinct(p + q) && x !in p && x !in q && (forall y :: y in p ==> y !in q)
  {
    var r := p + [x] + q;
    forall i | 0 <= i < |p| ensures p[i] != x { assert r[i] == p[i] && r[|p|] == x; }
    forall j | 0 <= j < |q| ensures q[j] != x { assert r[|p| + 1 + j] == q[j] && r[|p|] == x; }
    forall i, j | 0 <= i < |p| && 0 <= j < |q| ensures p[i] != q[j] { assert r[i] == p[i] && r[|p| + 1 + j] == q[j]; }
    forall i, j | 0 <= i < j < |p + q| ensures (p + q)[i] != (p + q)[j] {
      assert (p + q)[i] == r[if i < |p| then i else i + 1] && (p + q)[j] == r[if j < |p| then j else j + 1];
    }
  }

  lemma DistinctJoined(p: seq<Node>, x: Node, q: seq<Node>)
    requires Distinct(p + q) && x !in p && x !in q
    ensures Distinct(p + [x] + q) && forall y :: y in p ==> y !in q
  {
    var r := p + [x] + q;
    forall i, j | 0 <= i < |p| && 0 <= j < |q| ensures p[i] != q[j] { assert (p + q)[i] == p[i] && (p + q)[|p| + j] == q[j]; }
    forall i, j | 0 <= i < j < |r| ensures r[i] != r[j] {
      assert i != |p| ==> r[i] == (p + q)[if i < |p| then i else i - 1];
      assert j != |p| ==> r[j] == (p + q)[if j < |p| then j else j - 1];
      assert r[|p|] == x;
    }
  }

  function Last(a: Node, p: seq<Node>): Node { if p == [] then a else p[|p| - 1] }

  function First(q: seq<Node>, b: Node): Node { if q == [] then b else q[0] }

  /** The path from `a` through `p` is led to another end. */
  lemma {:induction false} Retarget(next: Memory, prev: Memory, next': Memory, prev': Memory, a: Node, p: seq<Node>, b: Node, c: Node)
    requires Path(next, prev, a, p, b) && Distinct(p) && a !in p
    requires var z := Last(a, p); z in next' && next'[z] == c && c in prev' && prev'[c] == z
    requires forall x :: (x == a || x in p) && x != Last(a, p) ==> x in next' && x in next && next'[x] == next[x]
    requires forall x :: x in p ==> x in prev' && x in prev && prev'[x] == prev[x]
    ensures Path(next', prev', a, p, c)
    decreases |p|
  {
    if p != [] {
      assert p == [p[0]] + p[1..];
      assert p[0] !in p[1..];
      Retarget(next, prev, next', prev', p[0], p[1..], b, c);
    }
  }

  /** The path through `q` to `b` is entered from another node. */
  lemma Reenter(next: Memory, prev: Memory, next': Memory, prev': Memory, a: Node, q: seq<Node>, b: Node, c: Node)
    requires Path(next, prev, a, q, b) && Distinct(q) && b !in q
    requires var f := First(q, b); c in next' && next'[c] == f && f in prev' && prev'[f] == c
    requires forall x :: x in q ==> x in next' && x in next && next'[x] == next[x]
    requires forall x :: (x == b || x in q) && x != First(q, b) ==> x in prev' && x in prev && prev'[x] == prev[x]
    ensures Path(next', prev', c, q, b)
  {
    if q != [] {
      TailSpec(q);
      PathFrame(next, prev, next', prev', q[0], q[1..], b);
    }
  }

  /** A ring seen from one of its gaps. */
  lemma RingParts(next: Memory, prev: Memory, l: Node, p: seq<Node>, q: seq<Node>)
    requires Ring(next, prev, l, p + q)
    ensures Path(next, prev, l, p, First(q, l)) && Path(next, prev, Last(l, p), q, l)
    ensures Distinct(p) && Distinct(q) && (forall y :: y in p ==> y !in q) && l !in p && l !in q
    ensures next[Last(l, p)] == First(q, l) && prev[First(q, l)] == Last(l, p)
  {
    forall i, j | 0 <= i < |p| && 0 <= j < |q| ensures p[i] != q[j] { assert (p + q)[i] == p[i] && (p + q)[|p| + j] == q[j]; }
    forall i, j | 0 <= i < j < |p| ensures p[i] != p[j] { assert (p + q)[i] == p[i] && (p + q)[j] == p[j]; }
    forall i, j | 0 <= i < j < |q| ensures q[i] != q[j] { assert (p + q)[|p| + i] == q[i] && (p + q)[|p| + j] == q[j]; }
    if q == [] {
      assert p + q == p;
    } else {
      Regroup(p, q);
      PathSplit(next, prev, l, p, q[0], q[1..], l);
    }
    if p == [] {
      assert p + q == q;
    } else {
      var p' := p[..|p| - 1];
      assert p + q == p' + [p[|p| - 1]] + q;
      PathSplit(next, prev, l, p', p[|p| - 1], q, l);
    }
    PathEnds(next, prev, l, p, First(q, l));
    PathEnds(next, prev, Last(l, p), q, l);
  }

  /** Linking a new node into a gap. */
  lemma LinkedIn(next: Memory, prev: Memory, l: Node, p: seq<Node>, q: seq<Node>, n: Node)
    requires Ring(next, prev, l, p + q) && n != l && n !in p && n !in q
    ensures var a, b := Last(l, p), First(q, l);
            Ring(next[a := n][n := b], prev[b := n][n := a], l, p + [n] + q)
  {
    var a, b := Last(l, p), First(q, l);
    var next', prev' := next[a := n][n := b], prev[b := n][n := a];
    RingParts(next, prev, l, p, q);
    MembersKnown(next, prev, l, p, b);
    MembersKnown(next, prev, a, q, l);
    Retarget(next, prev, next', prev', l, p, b, n);
    Reenter(next, prev, next', prev', a, q, l, n);
    PathSplit(next', prev', l, p, n, q, l);
    DistinctJoined(p, n, q);
  }

  /** Every node on a path has both links. */
  lemma {:induction false} MembersKnown(next: Memory, prev: Memory, a: Node, q: seq<Node>, b: Node)
    requires Path(next, prev, a, q, b)
    ensures a in next && b in prev && forall x :: x in q ==> x in next && x in prev
    decreases |q|
  {
    if q != [] {
      MembersKnown(next, prev, q[0], q[1..], b);
      assert q == [q[0]] + q[1..];
    }
  }

  /** Taking a node out; it is linked to itself. */
  lemma TakenOut(next: Memory, prev: Memory, l: Node, p: seq<Node>, n: Node, q: seq<Node>)
    requires Ring(next, prev, l, p + [n] + q)
    ensures var a, b := Last(l, p), First(q, l);
            Ring(next[a := b][n := n], prev[b := a][n := n], l, p + q)
  {
    var a, b := Last(l, p), First(q, l);
    var next', prev' := next[a := b][n := n], prev[b := a][n := n];
    DistinctParts(p, n, q);
    PathSplit(next, prev, l, p, n, q, l);
    MembersKnown(next, prev, l, p, n);
    MembersKnown(next, prev, n, q, l);
    assert n in p + [n] + q;
    forall i, j | 0 <= i < j < |p| ensures p[i] != p[j] { assert (p + q)[i] == p[i] && (p + q)[j] == p[j]; }
    forall i, j | 0 <= i < j < |q| ensures q[i] != q[j] { assert (p + q)[|p| + i] == q[i] && (p + q)[|p| + j] == q[j]; }
    assert forall x :: x in p || x in q ==> x in p + [n] + q;
    Retarget(next, prev, next', prev', l, p, n, b);
    if q == [] {
      assert p + q == p;
    } else {
      Reenter(next, prev, next', prev', n, q, l, a);
      PathSplit(next', prev', l, p, q[0], q[1..], l);
      Regroup(p, q);
    }
  }

  lemma Regroup(p: seq<Node>, q: seq<Node>)
    requires q != []
    ensures p + [q[0]] + q[1..] == p + q
  {
    var r := p + [q[0]] + q[1..];
    forall i | 0 <= i < |p + q| ensures r[i] == (p + q)[i] {}
  }

  /** The links of all nodes there are. The methods that insert and remove are told, for the proof, the
      list and the place in it; lists that do not share a node with it are not touched. */
  class Lists {
    var next: Memory
    var prev: Memory

    ghost predicate Has(l: Node, q: seq<Node>)
      reads this
    {
      Ring(next, prev, l, q)
    }

    constructor ()
      ensures next == map[] && prev == map[]
    {
      next, prev := map[], map[];
    }

    /** rt_list_init */
    method Init(l: Node)
      modifies this
      ensures Has(l, []) && next == old(next)[l := l] && prev == old(prev)[l := l]
    {
      next, prev := next[l := l], prev[l := l];
    }

    /** rt_list_insert_after */
    method InsertAfter(l: Node, n: Node, ghost head: Node, ghost p: seq<Node>, ghost q: seq<Node>)
      requires Has(head, p + q) && l == Last(head, p) && n != head && n !in p && n !in q
      modifies this
      ensures Has(head, p + [n] + q)
      ensures forall x :: x !in [head] + p + q && x != n && x in old(next) ==> x in next && next[x] == old(next)[x]
      ensures forall x :: x !in [head] + p + q && x != n && x in old(prev) ==> x in prev && prev[x] == old(prev)[x]
    {
      RingParts(next, prev, head, p, q);
      LinkedIn(next, prev, head, p, q, n);
      MembersKnown(next, prev, head, p, First(q, head));
      MembersKnown(next, prev, l, q, head);
      ghost var next', prev' := next[l := n][n := First(q, head)], prev[First(q, head) := n][n := l];
      prev := prev[next[l] := n];
      next := next[n := next[l]];
      next := next[l := n];
      prev := prev[n := l];
      assert next == next' && prev == prev';
    }

    /** rt_list_insert_before */
    method InsertBefore(l: Node, n: Node, ghost head: Node, ghost p: seq<Node>, ghost q: seq<Node>)
      requires Has(head, p + q) && l == First(q, head) && n != head && n !in p && n !in q
      modifies this
      ensures Has(head, p + [n] + q)
      ensures forall x :: x !in [head] + p + q && x != n && x in old(next) ==> x in next && next[x] == old(next)[x]
      ensures forall x :: x !in [head] + p + q && x != n && x in old(prev) ==> x in prev && prev[x] == old(prev)[x]
    {
      RingParts(next, prev, head, p, q);
      LinkedIn(next, prev, head, p, q, n);
      MembersKnown(next, prev, head, p, l);
      MembersKnown(next, prev, Last(head, p), q, head);
      ghost var next', prev' := next[Last(head, p) := n][n := l], prev[l := n][n := Last(head, p)];
      next := next[prev[l] := n];
      prev := prev[n := prev[l]];
      prev := prev[l := n];
      next := next[n := l];
      assert next == next' && prev == prev';
    }

    /** rt_list_remove */
    method Remove(n: Node, ghost head: Node, ghost p: seq<Node>, ghost q: seq<Node>)
      requires Has(head, p + [n] + q)
      modifies this
      ensures Has(head, p + q) && Has(n, [])
      ensures forall x :: x !in [head] + p + q && x != n && x in old(next) ==> x in next && next[x] == old(next)[x]
      ensures forall x :: x !in [head] + p + q && x != n && x in old(prev) ==> x in prev && prev[x] == old(prev)[x]
    {
      TakenOut(next, prev, head, p, n, q);
      PathSplit(next, prev, head, p, n, q, head);
      PathEnds(next, prev, head, p, n);
      PathEnds(next, prev, n, q, head);
      MembersKnown(next, prev, head, p, n);
      MembersKnown(next, prev, n, q, head);
      DistinctParts(p, n, q);
      assert n in p + [n] + q;
      ghost var a, b := Last(head, p), First(q, head);
      ghost var next', prev' := next[a := b][n := n], prev[b := a][n := n];
      prev := prev[next[n] := prev[n]];
      next := next[prev[n] := next[n]];
      next, prev := next[n := n], prev[n := n];
      assert next == next' && prev == prev';
    }

    /** rt_list_isempty */
    method IsEmpty(l: Node, ghost q: seq<Node>) returns (empty: bool)
      requires Has(l, q)
      ensures empty <==> q == []
    {
      PathEnds(next, prev, l, q, l);
      return next[l] == l;
    }

    /** rt_list_len */
    method Len(l: Node, ghost q: seq<Node>) returns (len: nat)
      requires Has(l, q)
      ensures len == |q|
    {
      len := 0;
      var p := l;
      ghost var ahead := q;
      PathEnds(next, prev, l, q, l);
      while next[p] != l
        invariant Path(next, prev, p, ahead, l) && l !in ahead && len + |ahead| == |q|
        invariant p in next && next[p] == First(ahead, l)
        decreases |ahead|
      {
        p := next[p];
        len := len + 1;
        ahead := ahead[1..];
        PathEnds(next, prev, p, ahead, l);
      }
    }
  }
}
