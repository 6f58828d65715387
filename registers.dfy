/** The cash register's FIFO queue of customers, identified by customer number. */
module Registers {

  /**
   * Python's `list.remove(x)`: deletes the first occurrence of `x`. Where `list.remove` raises
   * `ValueError` (`x` is absent) this returns `s` unchanged; `CashRegister.RemoveCustomer`
   * reports that case through `found`.
   */
  function RemoveFirst<T(==)>(s: seq<T>, x: T): (r: seq<T>)
    ensures x !in s ==> r == s
    ensures x in s ==> |r| == |s| - 1
  {
    if s == [] then []
    else if s[0] == x then s[1..]
    else [s[0]] + RemoveFirst(s[1..], x)
  }

  /** The position of the first occurrence of `x` in `s`. */
  function FirstIndex<T(==)>(s: seq<T>, x: T): (i: nat)
    requires x in s
    ensures i < |s| && s[i] == x && x !in s[..i]
  {
    if s[0] == x then 0
    else
      assert x in s[1..];
      var j := FirstIndex(s[1..], x);
      assert s[..j + 1] == [s[0]] + s[1..][..j];
      j + 1
  }

  /** Removing `x` cuts out exactly its first occurrence; everything else keeps its order. */
  lemma {:induction false} RemoveFirstSplits<T>(s: seq<T>, x: T)
    requires x in s
    ensures RemoveFirst(s, x) == s[..FirstIndex(s, x)] + s[FirstIndex(s, x) + 1..]
  {
    if s[0] != x {
      var t := s[1..];
      assert x in t;
      var j := FirstIndex(t, x);
      assert FirstIndex(s, x) == j + 1;
      RemoveFirstSplits(t, x);
      assert RemoveFirst(s, x) == [s[0]] + (t[..j] + t[j + 1..]);
      assert [s[0]] + t[..j] == s[..j + 1];
      assert t[j + 1..] == s[j + 2..];
    }
  }

  /** Removing `x` takes away exactly one copy of it and adds nothing. */
  lemma RemoveFirstOccurrence<T>(s: seq<T>, x: T)
    requires x in s
    ensures multiset(RemoveFirst(s, x)) == multiset(s) - multiset{x}
  {
    RemoveFirstSplits(s, x);
    var i := FirstIndex(s, x);
    assert s == s[..i] + [x] + s[i + 1..];
  }

  /** Position by position: the elements before the first `x` stay, the ones after move up by one. */
  lemma RemoveFirstIndices<T>(s: seq<T>, x: T)
    requires x in s
    ensures var i, r := FirstIndex(s, x), RemoveFirst(s, x);
      && |r| == |s| - 1
      && (forall k | 0 <= k < i :: r[k] == s[k])
      && (forall k | i <= k < |r| :: r[k] == s[k + 1])
  {
    RemoveFirstSplits(s, x);
  }

  /** From a queue without repeats, removing `x` leaves no `x`, keeps every other element and keeps it without repeats. */
  lemma RemoveFirstDistinct<T>(s: seq<T>, x: T)
    requires x in s
    requires forall k, l | 0 <= k < l < |s| :: s[k] != s[l]
    ensures var r := RemoveFirst(s, x);
      && x !in r
      && (forall y | y != x :: y in r <==> y in s)
      && (forall k, l | 0 <= k < l < |r| :: r[k] != r[l])
  {
    RemoveFirstIndices(s, x);
    var i, r := FirstIndex(s, x), RemoveFirst(s, x);
    forall k | 0 <= k < |r| ensures r[k] != x {
      if k < i {
        assert s[k] != s[i];
      } else {
        assert s[k + 1] != s[i];
      }
    }
    forall y | y != x && y in s ensures y in r {
      var k :| 0 <= k < |s| && s[k] == y;
      if k < i {
        assert r[k] == y;
      } else {
        assert r[k - 1] == y;
      }
    }
  }

  /** A queue without repeats whose customers all belong to `S` holds at most |S| customers. */
  lemma {:induction false} DistinctWithin(q: seq<nat>, S: set<nat>)
    requires forall k | 0 <= k < |q| :: q[k] in S
    requires forall k, l | 0 <= k < l < |q| :: q[k] != q[l]
    ensures |q| <= |S|
  {
    if q != [] {
      var n := |q| - 1;
      var x := q[n];
      forall k | 0 <= k < n ensures q[..n][k] in S - {x} {
        assert q[k] != q[n];
      }
      DistinctWithin(q[..n], S - {x});
      assert |S - {x}| == |S| - 1;
    }
  }

  /** A queue of distinct customer numbers below `n` holds at most `n` customers. */
  lemma {:induction false} DistinctBounded(q: seq<nat>, n: nat)
    requires forall k | 0 <= k < |q| :: q[k] < n
    requires forall k, l | 0 <= k < l < |q| :: q[k] != q[l]
    ensures |q| <= n
  {
    if q != [] {
      assert q[0] < n;
      if n - 1 in q {
        var i := FirstIndex(q, n - 1);
        var r := q[..i] + q[i + 1..];
        assert forall k | 0 <= k < |r| :: r[k] == if k < i then q[k] else q[k + 1];
        DistinctBounded(r, n - 1);
      } else {
        DistinctBounded(q, n - 1);
      }
    }
  }

  /** A cash register: its number and its queue, head first (the head is the one being served). */
  class CashRegister {
    const id: nat
    var queue: seq<nat>

    constructor (id: nat)
      ensures this.id == id && queue == []
    {
      this.id := id;
      queue := [];
    }

    function QueueLength(): nat
      reads this
    {
      |queue|
    }

    /** Joins the customer at the tail. */
    method Append(c: nat)
      modifies this
      ensures queue == old(queue) + [c]
    {
      queue := queue + [c];
    }

    /** `queue = queue[1:]`: drops the head (a slice of an empty list is empty). */
    method DropHead()
      modifies this
      ensures queue == if old(queue) == [] then [] else old(queue)[1..]
    {
      queue := if queue == [] then [] else queue[1..];
    }

    /** `remove_customer`: `found` is false exactly where `list.remove` would raise. */
    method RemoveCustomer(c: nat) returns (found: bool)
      modifies this
      ensures found == (c in old(queue))
      ensures queue == RemoveFirst(old(queue), c)
    {
      found := c in queue;
      queue := RemoveFirst(queue, c);
    }
  }
}
