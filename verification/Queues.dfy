/** First-in first-out queues whose members are distinct. */
module Queues {

  predicate NoDup<T(==)>(q: seq<T>) {
    q == [] || (q[0] !in q[1..] && NoDup(q[1..]))
  }

  lemma {:induction false} NoDupAppend<T>(q: seq<T>, x: T)
    requires NoDup(q) && x !in q
    ensures NoDup(q + [x])
  {
    if q != [] {
      NoDupAppend(q[1..], x);
      assert (q + [x])[1..] == q[1..] + [x];
    }
  }

  /** A member does not occur earlier in the queue. */
  lemma {:induction false} NoDupFront<T>(q: seq<T>, k: nat)
    requires NoDup(q) && k < |q|
    ensures q[k] !in q[..k]
  {
    if k > 0 {
      NoDupFront(q[1..], k - 1);
      assert q[..k] == [q[0]] + q[1..][..k - 1];
      assert q[k] in q[1..];
    }
  }

  function Members<T>(q: seq<T>): set<T> {
    set x | x in q
  }

  /** So many members as the queue is long. */
  lemma {:induction false} NoDupSize<T>(q: seq<T>)
    requires NoDup(q)
    ensures |Members(q)| == |q|
  {
    if q != [] {
      NoDupSize(q[1..]);
      assert Members(q) == {q[0]} + Members(q[1..]);
    }
  }

  lemma {:induction false} NoDupConcat<T>(p: seq<T>, q: seq<T>)
    requires NoDup(p) && NoDup(q) && forall x :: x in q ==> x !in p
    ensures NoDup(p + q)
  {
    if p == [] {
      assert p + q == q;
    } else {
      NoDupConcat(p[1..], q);
      assert (p + q)[1..] == p[1..] + q;
      assert p[0] in p;
    }
  }

  lemma {:induction false} NoDupPrefix<T>(q: seq<T>, n: nat)
    requires NoDup(q) && n <= |q|
    ensures NoDup(q[..n])
  {
    if n > 0 {
      NoDupPrefix(q[1..], n - 1);
      assert q[..n][1..] == q[1..][..n - 1];
      assert forall x :: x in q[1..][..n - 1] ==> x in q[1..];
    }
  }
}
