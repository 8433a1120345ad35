/** The queue shared by the network thread and a match worker. Each method is one region
    under the queue's lock. */
module MatchQueue {
  function Without<T(==)>(q: seq<T>, x: T): seq<T> {
    if q == [] then []
    else if q[0] == x then Without(q[1..], x)
    else [q[0]] + Without(q[1..], x)
  }

  lemma {:induction false} WithoutAppend<T>(a: seq<T>, b: seq<T>, x: T)
    ensures Without(a + b, x) == Without(a, x) + Without(b, x)
  {
    if a == [] {
      assert a + b == b;
    } else {
      assert (a + b)[1..] == a[1..] + b;
      WithoutAppend(a[1..], b, x);
    }
  }

  /** Removing every copy of x leaves the others, in order and with their multiplicity. */
  lemma {:induction false} WithoutKeepsOthers<T>(q: seq<T>, x: T)
    ensures multiset(Without(q, x)) == multiset(q)[x := 0]
  {
    if q == [] {
    } else {
      WithoutKeepsOthers(q[1..], x);
      assert q == [q[0]] + q[1..];
    }
  }

  class MatchQueue<T(==)> {
    var list: seq<T>
    /** Threads blocked in wait. */
    var asleep: nat

    /** Nobody sleeps while there are two entries. */
    ghost predicate Valid()
      reads this
    {
      asleep > 0 ==> |list| < 2
    }

    constructor ()
      ensures Valid() && list == [] && asleep == 0
    {
      list, asleep := [], 0;
    }

    method Size() returns (n: nat)
      ensures n == |list|
    {
      n := |list|;
    }

    method Empty() returns (r: bool)
      ensures r <==> list == []
    {
      r := |list| == 0;
    }

    /** Test the predicate and go on, or sleep. */
    method Wait() returns (through: bool)
      requires Valid()
      modifies this`asleep
      ensures Valid()
      ensures through <==> |list| >= 2
      ensures asleep == old(asleep) + if through then 0 else 1
    {
      through := |list| >= 2;
      if !through {
        asleep := asleep + 1;
      }
    }

    method Push(x: T)
      requires Valid()
      modifies this
      ensures Valid()
      ensures list == old(list) + [x] && asleep == 0
    {
      list := list + [x];
      asleep := 0;
    }

    method Pop(fallback: T) returns (ok: bool, x: T)
      requires Valid()
      modifies this`list
      ensures Valid()
      ensures ok <==> old(list) != []
      ensures if ok then [x] + list == old(list) else list == [] && x == fallback
    {
      ok, x := |list| > 0, fallback;
      if ok {
        x, list := list[0], list[1..];
      }
    }

    method Remove(x: T)
      requires Valid()
      modifies this`list
      ensures Valid()
      ensures list == Without(old(list), x)
      ensures multiset(list) == multiset(old(list))[x := 0]
    {
      WithoutKeepsOthers(list, x);
      var kept, i := [], 0;
      while i < |list|
        invariant 0 <= i <= |list| && list == old(list)
        invariant kept == Without(list[..i], x)
      {
        assert list[..i + 1] == list[..i] + [list[i]];
        WithoutAppend(list[..i], [list[i]], x);
        if list[i] != x {
          kept := kept + [list[i]];
        }
        i := i + 1;
      }
      assert list[..i] == list;
      Shrinks(list, x);
      list := kept;
    }
  }

  lemma {:induction false} Shrinks<T>(q: seq<T>, x: T)
    ensures |Without(q, x)| <= |q|
  {
    if q == [] {
    } else {
      Shrinks(q[1..], x);
    }
  }
}
