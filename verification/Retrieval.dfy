/** Waiting for events (events/sysdep.h). */
module Retrieval {
  import opened Common

  /** What one epoll_wait() does: it returns events and leaves errno alone, or fails and sets
      errno, to EINTR or to something else. */
  datatype Attempt<E> = Got(events: seq<E>) | Failed(eintr: bool)

  /** Whether errno is EINTR after these attempts. */
  function EintrAfter<E>(eintr: bool, attempts: seq<Attempt<E>>): bool {
    if attempts == [] then eintr
    else
      var last := attempts[|attempts| - 1];
      if last.Failed? then last.eintr else EintrAfter(eintr, attempts[..|attempts| - 1])
  }

  /** The loop is left after attempt `k`. */
  predicate LeavesAt<E>(eintr: bool, attempts: seq<Attempt<E>>, k: nat) {
    k < |attempts| && attempts[k].Got? && !EintrAfter(eintr, attempts[..k])
  }

  /** What attempts that returned events returned. */
  function AllGot<E>(attempts: seq<Attempt<E>>): seq<seq<E>> {
    if attempts == [] then []
    else
      var last := attempts[|attempts| - 1];
      AllGot(attempts[..|attempts| - 1]) + if last.Got? then [last.events] else []
  }

  /** kevent_retrieve(): goes on while the call failed or errno is EINTR, over the same vector.
      It hands on what the last attempt returned; what attempts before it returned is lost. */
  method KeventRetrieve<E>(eintr: bool, attempts: seq<Attempt<E>>) returns (r: Option<seq<E>>, lost: seq<seq<E>>)
    ensures r.Some? <==> exists k: nat :: LeavesAt(eintr, attempts, k)
    ensures r.Some? ==> exists k: nat :: LeavesAt(eintr, attempts, k) && (forall i :: 0 <= i < k ==> !LeavesAt(eintr, attempts, i))
                          && r.value == attempts[k].events && lost == AllGot(attempts[..k])
    ensures r.None? ==> lost == AllGot(attempts)
  {
    lost := [];
    var errno := eintr;
    var k: nat := 0;
    assert attempts[..0] == [];
    while k < |attempts|
      invariant k <= |attempts| && errno == EintrAfter(eintr, attempts[..k]) && lost == AllGot(attempts[..k])
      invariant forall i :: 0 <= i < k ==> !LeavesAt(eintr, attempts, i)
    {
      assert attempts[..k + 1][..k] == attempts[..k];
      var ret := attempts[k];
      if ret.Failed? {
        errno := ret.eintr;
      }
      if !(ret.Failed? || errno) {
        assert LeavesAt(eintr, attempts, k);
        return Some(ret.events), lost;
      }
      if ret.Got? {
        lost := lost + [ret.events];
      }
      k := k + 1;
    }
    assert attempts[..k] == attempts;
    return None, lost;
  }

  /** A failure with another error lets the loop be left at the next success, whatever errno was
      before. */
  lemma OtherErrorHelps<E>(eintr: bool, attempts: seq<Attempt<E>>, k: nat)
    requires k + 1 < |attempts| && attempts[k] == Failed(false) && attempts[k + 1].Got?
    ensures LeavesAt(eintr, attempts, k + 1)
  {
    assert attempts[..k + 1][k] == attempts[k];
  }

  /** A success does not change errno. */
  lemma SuccessKeepsErrno<E>(eintr: bool, attempts: seq<Attempt<E>>, k: nat)
    requires k < |attempts| && attempts[k].Got?
    ensures EintrAfter(eintr, attempts[..k + 1]) == EintrAfter(eintr, attempts[..k])
  {
    assert attempts[..k + 1][..k] == attempts[..k];
  }

  /** Nothing that was retrieved is missing from what is handed on or lost. */
  lemma {:induction false} GotHas<E>(attempts: seq<Attempt<E>>, k: nat)
    requires k < |attempts| && attempts[k].Got?
    ensures attempts[k].events in AllGot(attempts)
  {
    if k < |attempts| - 1 {
      GotHas(attempts[..|attempts| - 1], k);
    }
  }

  /** And nothing else is. */
  lemma {:induction false} GotOnly<E>(attempts: seq<Attempt<E>>, events: seq<E>)
    requires events in AllGot(attempts)
    ensures exists k :: 0 <= k < |attempts| && attempts[k] == Got(events)
  {
    var n := |attempts| - 1;
    if attempts[n] != Got(events) {
      GotOnly(attempts[..n], events);
      var k :| 0 <= k < n && attempts[..n][k] == Got(events);
      assert attempts[k] == Got(events);
    }
  }

  predicate OnlyInterrupted<E>(attempts: seq<Attempt<E>>) {
    forall i :: 0 <= i < |attempts| && attempts[i].Failed? ==> attempts[i].eintr
  }

  lemma {:induction false} EintrLasts<E>(eintr: bool, attempts: seq<Attempt<E>>, k: nat, l: nat)
    requires OnlyInterrupted(attempts) && k <= l <= |attempts| && EintrAfter(eintr, attempts[..k])
    ensures EintrAfter(eintr, attempts[..l])
    decreases l
  {
    if k < l {
      EintrLasts(eintr, attempts, k, l - 1);
      assert attempts[..l][..l - 1] == attempts[..l - 1];
    }
  }

  /** Where epoll_wait() fails by interruption alone: the loop is left, and then at the first
      success with nothing lost, if and only if errno was not EINTR on entry and no attempt
      was interrupted before the first success. */
  lemma RetrievesIff<E>(eintr: bool, attempts: seq<Attempt<E>>, k: nat)
    requires OnlyInterrupted(attempts) && k < |attempts| && attempts[k].Got?
    requires forall i :: 0 <= i < k ==> attempts[i].Failed?
    ensures (exists l: nat :: LeavesAt(eintr, attempts, l)) <==> !eintr && k == 0
    ensures LeavesAt(eintr, attempts, k) <==> !eintr && k == 0
  {
    assert attempts[..0] == [];
    if k > 0 {
      assert attempts[..1][..0] == [] && attempts[..1][0] == attempts[0];
      assert EintrAfter(eintr, attempts[..1]);
    }
    if eintr || k > 0 {
      var from := if k > 0 then 1 else 0;
      forall l: nat
        ensures !LeavesAt(eintr, attempts, l)
      {
        if l < from {
          assert attempts[0].Failed?;
        } else if l < |attempts| {
          EintrLasts(eintr, attempts, from, l);
        }
      }
    } else {
      assert LeavesAt(eintr, attempts, 0);
    }
  }
}
