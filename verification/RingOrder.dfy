/** The circular order in which event threads are linked. Threads are numbered
    in the order they were spawned; `nexttid` of thread `i` names `Next(i, n)`. */
module RingOrder {

  function Next(i: nat, n: nat): (j: nat)
    requires i < n
    ensures j < n
  {
    if i == 0 then n - 1 else i - 1
  }

  /** What holds of one thread and passes from each thread to its successor
      holds of every thread. */
  lemma {:induction false} AroundTheRing(n: nat, p: nat -> bool, start: nat)
    requires start < n && p(start)
    requires forall i :: 0 <= i < n && p(i) ==> p(Next(i, n))
    ensures forall i :: 0 <= i < n ==> p(i)
  {
    forall i | 0 < i < n && p(i)
      ensures p(i - 1)
    {
      assert p(Next(i, n));
    }
    DownTheRing(n, p, start);
    assert p(Next(0, n));
    DownTheRing(n, p, n - 1);
  }

  lemma {:induction false} DownTheRing(n: nat, p: nat -> bool, top: nat)
    requires top < n && p(top)
    requires forall i :: 0 < i < n && p(i) ==> p(i - 1)
    ensures forall i :: 0 <= i <= top ==> p(i)
  {
    if top > 0 {
      DownTheRing(n, p, top - 1);
    }
  }
}
