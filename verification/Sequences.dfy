/** Lists without repetitions: wait lists, free lists, chains of links. */
module Sequences {

  ghost predicate Distinct<T(!new)>(q: seq<T>) { forall i, j :: 0 <= i < j < |q| ==> q[i] != q[j] }

  /** A node is unlinked. */
  function Remove<T(==)>(q: seq<T>, x: T): seq<T>
    decreases |q|
  {
    if q == [] then [] else if q[0] == x then q[1..] else [q[0]] + Remove(q[1..], x)
  }

  /** A node is linked in at place `i`, or at the end. */
  function Insert<T>(q: seq<T>, i: nat, x: T): seq<T> { if i <= |q| then q[..i] + [x] + q[i..] else q + [x] }

  lemma {:induction false} RemoveSpec<T(!new)>(q: seq<T>, x: T)
    requires Distinct(q)
    ensures Distinct(Remove(q, x)) && |Remove(q, x)| <= |q| && forall y :: y in Remove(q, x) <==> y in q && y != x
    decreases |q|
  {
    if q != [] {
      assert q == [q[0]] + q[1..];
      if q[0] != x {
        RemoveSpec(q[1..], x);
        assert q[0] !in q[1..];
      }
    }
  }

  lemma {:induction false} RemoveAbsent<T>(q: seq<T>, x: T)
    requires x !in q
    ensures Remove(q, x) == q
    decreases |q|
  {
    if q != [] {
      RemoveAbsent(q[1..], x);
      assert q == [q[0]] + q[1..];
    }
  }

  lemma InsertSpec<T(!new)>(q: seq<T>, i: nat, x: T)
    requires Distinct(q) && x !in q
    ensures Distinct(Insert(q, i, x)) && forall y :: y in Insert(q, i, x) <==> y in q || y == x
  {
    if i <= |q| { assert q == q[..i] + q[i..]; }
  }

  lemma InsertedTwice<T(!new)>(q: seq<T>, i: nat, x: T)
    requires x in q
    ensures !Distinct(Insert(q, i, x))
  {
    var r := Insert(q, i, x);
    var j :| 0 <= j < |q| && q[j] == x;
    if i <= |q| {
      assert r[i] == x && r[if j < i then j else j + 1] == x;
    } else {
      assert r[|q|] == x && r[j] == x;
    }
  }

  lemma TailSpec<T(!new)>(q: seq<T>)
    requires Distinct(q) && q != []
    ensures Distinct(q[1..]) && forall y :: y in q[1..] <==> y in q && y != q[0]
  {
    assert q == [q[0]] + q[1..];
  }

  lemma PushSpec<T(!new)>(q: seq<T>, x: T)
    requires Distinct(q) && x !in q
    ensures Distinct([x] + q) && forall y :: y in [x] + q <==> y in q || y == x
  {
  }

  /** The `n` elements at `dst` are those that were at `src`. */
  function Copied<T>(m: seq<T>, dst: nat, src: nat, n: nat): seq<T>
    requires dst + n <= |m| && src + n <= |m|
  {
    m[..dst] + m[src..src + n] + m[dst + n..]
  }

  lemma CopiedFront<T>(m: seq<T>, dst: nat, src: nat, n: nat, k: nat)
    requires dst + n <= |m| && src + n <= |m| && k <= n
    ensures Copied(m, dst, src, n)[dst..dst + k] == m[src..src + k]
  {
    var r := Copied(m, dst, src, n);
    assert r[dst..dst + n] == m[src..src + n];
    assert r[dst..dst + k] == r[dst..dst + n][..k] && m[src..src + k] == m[src..src + n][..k];
  }

  lemma SliceOfFront<T>(m: seq<T>, d: nat, a: nat, b: nat)
    requires a <= b <= d <= |m|
    ensures m[a..b] == m[..d][a..b]
  {
  }

  lemma SliceOfRest<T>(m: seq<T>, d: nat, a: nat, b: nat)
    requires d <= a <= b <= |m|
    ensures m[a..b] == m[d..][a - d..b - d]
  {
  }

  lemma CopiedElsewhere<T>(m: seq<T>, dst: nat, src: nat, n: nat, a: nat, k: nat)
    requires dst + n <= |m| && src + n <= |m| && a + k <= |m| && (a + k <= dst || dst + n <= a)
    ensures Copied(m, dst, src, n)[a..a + k] == m[a..a + k]
  {
    var r := Copied(m, dst, src, n);
    if a + k <= dst {
      assert r[..dst] == m[..dst];
      SliceOfFront(r, dst, a, a + k);
      SliceOfFront(m, dst, a, a + k);
    } else {
      assert r[dst + n..] == m[dst + n..];
      SliceOfRest(r, dst + n, a, a + k);
      SliceOfRest(m, dst + n, a, a + k);
    }
  }

  ghost function Elems<T(!new)>(q: seq<T>): set<T> { set x | x in q }

  /** A list without repetitions has as many elements as places. */
  lemma {:induction false} ElementsOf<T(!new)>(q: seq<T>)
    requires Distinct(q)
    ensures |Elems(q)| == |q|
    decreases |q|
  {
    if q != [] {
      TailSpec(q);
      ElementsOf(q[1..]);
      assert Elems(q) == Elems(q[1..]) + {q[0]};
    }
  }

  ghost function UpTo(n: nat): (r: set<nat>)
    ensures |r| == n && forall k :: k in r <==> 0 <= k < n
  {
    if n == 0 then {} else UpTo(n - 1) + {n - 1}
  }

  lemma SubsetSize<T>(a: set<T>, b: set<T>)
    requires a <= b
    ensures |a| <= |b| && (|a| == |b| ==> a == b)
  {
    assert b == a + (b - a);
  }

  lemma FewerByOne<T>(s: set<T>, x: T)
    ensures |s - {x}| >= |s| - 1
  {
    if x in s { assert s == (s - {x}) + {x}; } else { assert s - {x} == s; }
  }
}
