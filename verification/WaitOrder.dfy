/** The place rt_ipc_list_suspend (ipc.c) finds for a thread in a wait list. */
module WaitOrder {
  import opened Sequences

  /** At the end of a first-in first-out list; of one by priority in front of the first that is less urgent. */
  function PlaceOf<T>(byPriority: bool, q: seq<T>, prio: T -> nat, p: nat): (i: nat)
    ensures i <= |q|
    decreases |q|
  {
    if !byPriority || q == [] then |q| else if p < prio(q[0]) then 0 else 1 + PlaceOf(byPriority, q[1..], prio, p)
  }

  ghost predicate InOrder<T(!new)>(q: seq<T>, prio: T -> nat) { forall i, j :: 0 <= i < j < |q| ==> prio(q[i]) <= prio(q[j]) }

  /** In a list in order of priority the thread comes behind its equals, in front of all that are less urgent. */
  lemma {:induction false} PlaceSpec<T(!new)>(q: seq<T>, prio: T -> nat, p: nat)
    requires InOrder(q, prio)
    ensures var i := PlaceOf(true, q, prio, p);
      (forall j :: 0 <= j < i ==> prio(q[j]) <= p) && forall j :: i <= j < |q| ==> p < prio(q[j])
    decreases |q|
  {
    if q != [] && prio(q[0]) <= p {
      PlaceSpec(q[1..], prio, p);
      forall j | 0 < j < |q| ensures q[j] == q[1..][j - 1] {}
    }
  }

  /** So the list stays in order. */
  lemma JoinInOrder<T(!new)>(q: seq<T>, prio: T -> nat, x: T)
    requires InOrder(q, prio)
    ensures InOrder(Insert(q, PlaceOf(true, q, prio, prio(x)), x), prio)
  {
    var n := PlaceOf(true, q, prio, prio(x));
    var r := Insert(q, n, x);
    PlaceSpec(q, prio, prio(x));
    forall i, j | 0 <= i < j < |r| ensures prio(r[i]) <= prio(r[j]) {
      assert r[i] == (if i < n then q[i] else if i == n then x else q[i - 1]);
      assert r[j] == (if j < n then q[j] else if j == n then x else q[j - 1]);
    }
  }

  lemma RestInOrder<T(!new)>(q: seq<T>, rank: T -> nat)
    requires InOrder(q, rank) && q != []
    ensures InOrder(q[1..], rank) && forall x :: x in q ==> rank(q[0]) <= rank(x)
  {
  }

  lemma {:induction false} RemoveInOrder<T(!new)>(q: seq<T>, rank: T -> nat, x: T)
    requires InOrder(q, rank)
    ensures InOrder(Remove(q, x), rank) && forall y :: y in Remove(q, x) ==> y in q
    decreases |q|
  {
    if q != [] {
      RestInOrder(q, rank);
      RemoveInOrder(q[1..], rank, x);
    }
  }

  /** First in, first out is the order of arrival. */
  lemma {:induction false} LastIsPlace<T(!new)>(q: seq<T>, rank: T -> nat, p: nat)
    requires forall x :: x in q ==> rank(x) <= p
    ensures PlaceOf(true, q, rank, p) == |q| == PlaceOf(false, q, rank, p)
    decreases |q|
  {
    if q != [] { LastIsPlace(q[1..], rank, p); }
  }

  lemma WalkOn<T>(q: seq<T>, prio: T -> nat, p: nat, n: nat)
    requires n < |q| && prio(q[n]) <= p
    ensures PlaceOf(true, q[n..], prio, p) == 1 + PlaceOf(true, q[n + 1..], prio, p)
  {
    assert q[n..][1..] == q[n + 1..];
  }

  /** The walk over the list. */
  method FindPlace<T>(byPriority: bool, q: seq<T>, prio: T -> nat, p: nat) returns (n: nat)
    ensures n == PlaceOf(byPriority, q, prio, p)
  {
    if !byPriority { return |q|; }
    n := 0;
    assert q[0..] == q;
    while n < |q|
      invariant 0 <= n <= |q|
      invariant PlaceOf(true, q, prio, p) == n + PlaceOf(true, q[n..], prio, p)
    {
      if p < prio(q[n]) { return; }
      WalkOn(q, prio, p, n);
      n := n + 1;
    }
  }
}
