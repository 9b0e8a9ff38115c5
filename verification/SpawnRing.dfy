/** Spawning event threads (schedule.c): the handshake between `spawn_thread` and
    its child, and the insertion of the child into the ring of `nexttid` links. */
module SpawnRing {
  import opened Common
  import opened RingOrder

  type Tid = nat

  // ---- The ring ------------------------------------------------------------------

  /** `ctx->ev` and the `nexttid` fields describe the ring of `linked`, oldest
      thread first: the leader points at the newest thread, every other thread at
      the one linked just before it. */
  ghost predicate IsRing(leader: Option<Tid>, next: map<Tid, Tid>, linked: seq<Tid>) {
    && (forall i, j :: 0 <= i < j < |linked| ==> linked[i] != linked[j])
    && next.Keys == (set t | t in linked)
    && leader == (if linked == [] then None else Some(linked[0]))
    && (forall i {:trigger next[linked[i]]} :: 0 <= i < |linked| ==> next[linked[i]] == linked[Next(i, |linked|)])
  }

  /** The thread reached from `t` by following `nexttid` `k` times. */
  ghost function Walk(next: map<Tid, Tid>, t: Tid, k: nat): Tid
    decreases k
  {
    if k == 0 || t !in next then t else Walk(next, next[t], k - 1)
  }

  ghost predicate Meets(next: map<Tid, Tid>, t: Tid, u: Tid, n: nat) {
    exists k: nat :: k < n && Walk(next, t, k) == u
  }

  lemma {:induction false} WalkPosition(leader: Option<Tid>, next: map<Tid, Tid>, linked: seq<Tid>, i: nat, k: nat)
    requires IsRing(leader, next, linked) && i < |linked| && k <= |linked|
    ensures Walk(next, linked[i], k) == linked[if k <= i then i - k else i + |linked| - k]
    decreases k
  {
    if k > 0 {
      assert linked[i] in linked;
      assert next[linked[i]] == linked[Next(i, |linked|)];
      WalkPosition(leader, next, linked, Next(i, |linked|), k - 1);
    }
  }

  lemma MeetsOther(leader: Option<Tid>, next: map<Tid, Tid>, linked: seq<Tid>, i: nat, j: nat)
    requires IsRing(leader, next, linked) && i < |linked| && j < |linked|
    ensures Meets(next, linked[i], linked[j], |linked|)
  {
    var k := if j <= i then i - j else i + |linked| - j;
    WalkPosition(leader, next, linked, i, k);
  }

  lemma NeverMeetsTwice(leader: Option<Tid>, next: map<Tid, Tid>, linked: seq<Tid>, i: nat, j: nat, k: nat)
    requires IsRing(leader, next, linked) && i < |linked| && j < k < |linked|
    ensures Walk(next, linked[i], j) != Walk(next, linked[i], k)
  {
    WalkPosition(leader, next, linked, i, j);
    WalkPosition(leader, next, linked, i, k);
  }

  /** One cycle through all threads: from any thread, following the links first
      comes back after exactly as many steps as there are threads, having met
      every thread exactly once on the way. */
  lemma RingIsOneCycle(leader: Option<Tid>, next: map<Tid, Tid>, linked: seq<Tid>, i: nat)
    requires IsRing(leader, next, linked) && i < |linked|
    ensures Walk(next, linked[i], |linked|) == linked[i]
    ensures forall j :: 0 <= j < |linked| ==> Meets(next, linked[i], linked[j], |linked|)
    ensures forall j: nat, k: nat :: j < k < |linked| ==> Walk(next, linked[i], j) != Walk(next, linked[i], k)
  {
    WalkPosition(leader, next, linked, i, |linked|);
    forall j | 0 <= j < |linked|
      ensures Meets(next, linked[i], linked[j], |linked|)
    {
      MeetsOther(leader, next, linked, i, j);
    }
    forall j: nat, k: nat | j < k < |linked|
      ensures Walk(next, linked[i], j) != Walk(next, linked[i], k)
    {
      NeverMeetsTwice(leader, next, linked, i, j, k);
    }
  }

  /** The shared part of `torque_ctx` and the event handlers' `nexttid` fields. */
  class Context {
    var leader: Option<Tid>
    var nexttid: map<Tid, Tid>

    constructor ()
      ensures IsRing(leader, nexttid, [])
    {
      leader, nexttid := None, map[];
    }

    /** The insertion performed by `thread` under its lock. */
    method LinkSelf(self: Tid, ghost linked: seq<Tid>)
      requires IsRing(leader, nexttid, linked) && self !in linked
      modifies this
      ensures IsRing(leader, nexttid, linked + [self])
    {
      ghost var old_ := nexttid;
      if leader.None? {
        leader := Some(self);
      } else {
        nexttid := nexttid[self := nexttid[leader.value]];
      }
      nexttid := nexttid[leader.value := self];
      if linked == [] {
        RingOfOne(self);
        assert nexttid == map[self := self];
      } else {
        RingGrows(leader, old_, linked, self);
      }
    }
  }

  // ---- The handshake ---------------------------------------------------------------

  datatype Status = Unlaunched | Prefail | Started
  datatype Holder = Free | ByParent | ByChild

  /** The `tguard` on the parent's stack, one for each call of spawn_thread(). */
  datatype Guard = Guard(alive: bool, lock: Holder, status: Status)

  datatype Child =
    | Starting | WantLock | Holding | HalfLinked | Linked | Serving
    | FailWant | FailHolding | FailMarked | FailOut | Dead | Joined

  datatype Parent = Calling | Locking | Checking | Waiting | Finishing(ok: bool) | Reaping

  datatype State = State(
    parent: Parent,
    children: seq<Child>,
    guards: seq<Guard>,
    leader: Option<Tid>,
    next: map<Tid, Tid>,
    linked: seq<Tid>,
    returned: seq<bool>,         // what each completed spawn_thread() call reported
    dangling: bool)              // a child used a guard its parent had given up

  datatype Step =
    | Create                     // pthread_create() succeeds
    | Lock                       // pthread_mutex_lock(), or the return of pthread_cond_wait()
    | Test                       // the while condition, then wait or unlock
    | Destroy                    // the lock and condition go away
    | Gather                     // pthread_join() of a child that failed
    | Begin(c: Tid, ok: bool)    // the child sets itself up, or fails to
    | ChildLock(c: Tid)
    | LinkFirst(c: Tid)
    | LinkSecond(c: Tid)
    | Unlock(c: Tid)
    | Mark(c: Tid)
    | Return(c: Tid)

  predicate Shaped(s: State) {
    && |s.guards| == |s.children|
    && (s.parent.Calling? || s.children != [])
  }

  /** The guard of the call in progress. */
  function Current(s: State): Tid
    requires Shaped(s) && !s.parent.Calling?
  {
    |s.children| - 1
  }

  predicate Enabled(s: State, e: Step)
    requires Shaped(s)
  {
    match e
    case Create => s.parent.Calling?
    case Lock => (s.parent.Locking? || s.parent.Waiting?) && s.guards[Current(s)].lock.Free?
    case Test => s.parent.Checking?
    case Destroy => s.parent.Finishing?
    case Gather => s.parent.Reaping? && s.children[Current(s)].Dead?
    case Begin(c, _) => c < |s.children| && s.children[c].Starting?
    case ChildLock(c) => c < |s.children| && (s.children[c].WantLock? || s.children[c].FailWant?) && s.guards[c].lock.Free?
    case LinkFirst(c) => c < |s.children| && s.children[c].Holding?
    case LinkSecond(c) => c < |s.children| && s.children[c].HalfLinked?
    case Unlock(c) => c < |s.children| && (s.children[c].Linked? || s.children[c].FailMarked?)
    case Mark(c) => c < |s.children| && s.children[c].FailHolding?
    case Return(c) => c < |s.children| && s.children[c].FailOut?
  }

  function SetGuard(s: State, c: Tid, g: Guard): State
    requires c < |s.guards|
  {
    s.(guards := s.guards[c := g])
  }

  /** A child's next stage; anything it does to its guard counts as a touch. */
  function Move(s: State, c: Tid, to: Child, touches: bool): State
    requires c < |s.children| && c < |s.guards|
  {
    s.(children := s.children[c := to], dangling := s.dangling || (touches && !s.guards[c].alive))
  }

  function Apply(s: State, e: Step): (r: State)
    requires Shaped(s) && Enabled(s, e)
    ensures Shaped(r)
  {
    match e
    case Create =>
      s.(parent := Locking, children := s.children + [Starting], guards := s.guards + [Guard(true, Free, Unlaunched)])
    case Lock =>
      SetGuard(s, Current(s), s.guards[Current(s)].(lock := ByParent)).(parent := Checking)
    case Test =>
      var g := s.guards[Current(s)];
      SetGuard(s, Current(s), g.(lock := Free)).(
        parent := if g.status.Unlaunched? then Waiting else Finishing(g.status.Started?))
    case Destroy =>
      var t := SetGuard(s, Current(s), s.guards[Current(s)].(alive := false));
      if s.parent.ok then t.(parent := Calling, returned := s.returned + [true]) else t.(parent := Reaping)
    case Gather =>
      s.(parent := Calling, children := s.children[Current(s) := Joined], returned := s.returned + [false])
    case Begin(c, ok) => Move(s, c, if ok then WantLock else FailWant, true)
    case ChildLock(c) =>
      SetGuard(Move(s, c, if s.children[c].WantLock? then Holding else FailHolding, true), c,
               s.guards[c].(lock := ByChild))
    case LinkFirst(c) =>
      var t := Move(s, c, HalfLinked, true);
      if s.leader.None? then t.(leader := Some(c))
      else if s.leader.value in s.next then t.(next := s.next[c := s.next[s.leader.value]])
      else t
    case LinkSecond(c) =>
      var t := Move(SetGuard(s, c, s.guards[c].(status := Started)), c, Linked, true);
      (if s.leader.Some? then t.(next := s.next[s.leader.value := c]) else t).(linked := s.linked + [c])
    case Unlock(c) =>
      SetGuard(Move(s, c, if s.children[c].Linked? then Serving else FailOut, true), c, s.guards[c].(lock := Free))
    case Mark(c) => Move(SetGuard(s, c, s.guards[c].(status := Prefail)), c, FailMarked, true)
    case Return(c) => Move(s, c, Dead, false)
  }

  const INIT := State(Calling, [], [], None, map[], [], [], false)

  predicate HoldsLock(c: Child) {
    c.Holding? || c.HalfLinked? || c.Linked? || c.FailHolding? || c.FailMarked?
  }

  predicate OnRing(c: Child) { c.Linked? || c.Serving? }

  /** A finished call: its child either serves or has been joined. */
  predicate Settled(s: State, c: Tid)
    requires c < |s.children| && c < |s.returned|
  {
    s.children[c] == if s.returned[c] then Serving else Joined
  }

  /** The call in progress: who holds the lock, what the status says, and how far
      the parent can have got. */
  predicate InProgress(p: Parent, g: Guard, c: Child) {
    && !p.Calling? && !c.Joined?
    && (g.alive <==> !p.Reaping?)
    && (g.lock.ByParent? <==> p.Checking?)
    && (g.lock.ByChild? <==> HoldsLock(c))
    && (g.status.Started? <==> OnRing(c))
    && (g.status.Prefail? <==> c.FailMarked? || c.FailOut? || c.Dead?)
    && (p.Finishing? ==> if p.ok then c.Serving? else c.FailOut? || c.Dead?)
    && (p.Reaping? ==> c.FailOut? || c.Dead?)
  }

  /** Between its two writes a thread has copied the leader's link but the leader
      does not yet point at it. */
  ghost predicate HalfRing(s: State, c: Tid) {
    if s.linked == [] then s.leader == Some(c) && s.next == map[]
    else exists before: map<Tid, Tid> :: IsRing(s.leader, before, s.linked) && s.next == before[c := before[s.linked[0]]]
  }

  ghost predicate Inv(s: State) {
    && Shaped(s) && !s.dangling
    && |s.returned| == (if s.parent.Calling? then |s.children| else |s.children| - 1)
    && (forall c :: 0 <= c < |s.returned| ==> Settled(s, c))
    && (!s.parent.Calling? ==> InProgress(s.parent, s.guards[Current(s)], s.children[Current(s)]))
    && (forall c :: c in s.linked <==> 0 <= c < |s.children| && OnRing(s.children[c]))
    && Increasing(s.linked)
    && (if !s.parent.Calling? && s.children[Current(s)].HalfLinked? then HalfRing(s, Current(s))
        else IsRing(s.leader, s.next, s.linked))
  }

  lemma ParentStepKeepsInv(s: State, e: Step)
    requires Inv(s) && Enabled(s, e)
    requires e.Create? || e.Lock? || e.Test? || e.Destroy? || e.Gather?
    ensures Inv(Apply(s, e))
  {
    var r := Apply(s, e);
    ParentSettles(s, e);
    ParentLeavesRing(s, e);
    assert r.linked == s.linked && r.next == s.next && r.leader == s.leader;
  }

  lemma ParentSettles(s: State, e: Step)
    requires Inv(s) && Enabled(s, e)
    requires e.Create? || e.Lock? || e.Test? || e.Destroy? || e.Gather?
    ensures var r := Apply(s, e);
            && |r.returned| == (if r.parent.Calling? then |r.children| else |r.children| - 1)
            && (forall c :: 0 <= c < |r.returned| ==> Settled(r, c))
  {
    var r := Apply(s, e);
    forall c | 0 <= c < |r.returned|
      ensures Settled(r, c)
    {
      assert c < |s.returned| ==> Settled(s, c);
    }
  }

  lemma ParentLeavesRing(s: State, e: Step)
    requires Inv(s) && Enabled(s, e)
    requires e.Create? || e.Lock? || e.Test? || e.Destroy? || e.Gather?
    ensures forall c :: c in s.linked <==> 0 <= c < |Apply(s, e).children| && OnRing(Apply(s, e).children[c])
  {
  }

  /** A child that is not of the call in progress has nothing left to do here. */
  lemma OnlyCurrentActs(s: State, c: Tid)
    requires Inv(s) && c < |s.children| && !s.children[c].Serving? && !s.children[c].Joined?
    ensures !s.parent.Calling? && c == Current(s)
  {
    assert c < |s.returned| ==> Settled(s, c);
  }

  lemma QuietChildStepKeepsInv(s: State, e: Step)
    requires Inv(s) && Enabled(s, e)
    requires e.Begin? || e.ChildLock? || e.Unlock? || e.Mark? || e.Return?
    ensures Inv(Apply(s, e))
  {
    var r := Apply(s, e);
    OnlyCurrentActs(s, e.c);
    forall c | 0 <= c < |r.returned|
      ensures Settled(r, c)
    {
      assert Settled(s, c);
    }
    assert r.linked == s.linked && r.next == s.next && r.leader == s.leader;
  }

  lemma LinkFirstKeepsInv(s: State, c: Tid)
    requires Inv(s) && Enabled(s, LinkFirst(c))
    ensures Inv(Apply(s, LinkFirst(c)))
  {
    var r := Apply(s, LinkFirst(c));
    OnlyCurrentActs(s, c);
    forall d | 0 <= d < |r.returned|
      ensures Settled(r, d)
    {
      assert Settled(s, d);
    }
    if s.linked != [] {
      assert IsRing(s.leader, s.next, s.linked);
      assert s.linked[0] in s.linked;
      assert r.next == s.next[c := s.next[s.linked[0]]];
    } else {
      assert s.next == map[];
    }
  }

  lemma LinkSecondKeepsInv(s: State, c: Tid)
    requires Inv(s) && Enabled(s, LinkSecond(c))
    ensures Inv(Apply(s, LinkSecond(c)))
  {
    var r := Apply(s, LinkSecond(c));
    OnlyCurrentActs(s, c);
    forall d | 0 <= d < |r.returned|
      ensures Settled(r, d)
    {
      assert Settled(s, d);
    }
    RingClosed(s, c);
    LinkedStaysSorted(s, c);
    LinkedIsOnRing(s, c);
  }

  /** The second write turns the half-made ring into a ring. */
  lemma RingClosed(s: State, c: Tid)
    requires Shaped(s) && Enabled(s, LinkSecond(c)) && HalfRing(s, c) && c !in s.linked
    ensures var r := Apply(s, LinkSecond(c)); IsRing(r.leader, r.next, r.linked)
  {
    var r := Apply(s, LinkSecond(c));
    if s.linked != [] {
      var before: map<Tid, Tid> :| IsRing(s.leader, before, s.linked) && s.next == before[c := before[s.linked[0]]];
      RingGrows(s.leader, before, s.linked, c);
      assert s.leader == Some(s.linked[0]);
      assert r.leader == s.leader && r.linked == s.linked + [c] && r.next == s.next[s.linked[0] := c];
    } else {
      RingOfOne(c);
      assert r.leader == Some(c) && r.linked == [c] && r.next == map[c := c];
    }
  }

  lemma RingOfOne(c: Tid)
    ensures IsRing(Some(c), map[c := c], [c])
  {
  }

  lemma RingGrows(leader: Option<Tid>, next: map<Tid, Tid>, linked: seq<Tid>, c: Tid)
    requires IsRing(leader, next, linked) && linked != [] && c !in linked
    ensures IsRing(leader, next[c := next[linked[0]]][linked[0] := c], linked + [c])
  {
    var grown := linked + [c];
    var after := next[c := next[linked[0]]][linked[0] := c];
    assert after.Keys == next.Keys + {c} == (set t | t in grown);
  }

  lemma LinkedStaysSorted(s: State, c: Tid)
    requires Inv(s) && Enabled(s, LinkSecond(c)) && !s.parent.Calling? && c == Current(s)
    ensures Increasing(s.linked + [c])
  {
    forall i | 0 <= i < |s.linked|
      ensures s.linked[i] < c
    {
      assert s.linked[i] in s.linked;
    }
  }

  lemma LinkedIsOnRing(s: State, c: Tid)
    requires Inv(s) && Enabled(s, LinkSecond(c))
    ensures var r := Apply(s, LinkSecond(c));
            forall d :: d in r.linked <==> 0 <= d < |r.children| && OnRing(r.children[d])
  {
    var r := Apply(s, LinkSecond(c));
    assert r.children == s.children[c := Linked] && r.linked == s.linked + [c];
  }

  lemma StepKeepsInv(s: State, e: Step)
    requires Inv(s) && Enabled(s, e)
    ensures Inv(Apply(s, e))
  {
    if e.LinkFirst? {
      LinkFirstKeepsInv(s, e.c);
    } else if e.LinkSecond? {
      LinkSecondKeepsInv(s, e.c);
    } else if e.Begin? || e.ChildLock? || e.Unlock? || e.Mark? || e.Return? {
      QuietChildStepKeepsInv(s, e);
    } else {
      ParentStepKeepsInv(s, e);
    }
  }

  // ---- Runs --------------------------------------------------------------------------

  predicate ValidRun(s: State, run: seq<Step>)
    requires Shaped(s)
    decreases |run|
  {
    run == [] || (Enabled(s, run[0]) && ValidRun(Apply(s, run[0]), run[1..]))
  }

  function After(s: State, run: seq<Step>): (r: State)
    requires Shaped(s) && ValidRun(s, run)
    ensures Shaped(r)
    decreases |run|
  {
    if run == [] then s else After(Apply(s, run[0]), run[1..])
  }

  lemma {:induction false} RunKeepsInv(s: State, run: seq<Step>)
    requires Inv(s) && ValidRun(s, run)
    ensures Inv(After(s, run))
    decreases |run|
  {
    if run != [] {
      StepKeepsInv(s, run[0]);
      RunKeepsInv(Apply(s, run[0]), run[1..]);
    }
  }

  /** In every run: no child uses its parent's guard after the parent has given it
      up; no two children are ever inside the insertion, although every call has a
      lock of its own; and a call that reported success has its child linked. */
  lemma SpawnIsSafe(run: seq<Step>)
    requires ValidRun(INIT, run)
    ensures var s := After(INIT, run);
            && !s.dangling
            && (forall c, d | 0 <= c < |s.children| && 0 <= d < |s.children| ::
                  HoldsLock(s.children[c]) && HoldsLock(s.children[d]) ==> c == d)
            && (forall c :: 0 <= c < |s.returned| && s.returned[c] ==> c in s.linked)
  {
    RunKeepsInv(INIT, run);
    var s := After(INIT, run);
    forall c, d | 0 <= c < |s.children| && 0 <= d < |s.children| && HoldsLock(s.children[c]) && HoldsLock(s.children[d])
      ensures c == d
    {
      OnlyCurrentActs(s, c);
      OnlyCurrentActs(s, d);
    }
    forall c | 0 <= c < |s.returned| && s.returned[c]
      ensures c in s.linked
    {
      assert Settled(s, c);
    }
  }

  /** Whenever no child is between its two writes, the links form one cycle of the
      threads linked so far, in spawning order. */
  lemma SpawnedRing(run: seq<Step>)
    requires ValidRun(INIT, run)
    requires forall c :: 0 <= c < |After(INIT, run).children| ==> !After(INIT, run).children[c].HalfLinked?
    ensures var s := After(INIT, run); IsRing(s.leader, s.next, s.linked)
  {
    RunKeepsInv(INIT, run);
  }

  /** After k calls that all succeeded the ring links thread i to Next(i, k), and
      the link the controller follows from `ctx->ev` names the newest thread. */
  lemma AllSpawned(run: seq<Step>)
    requires ValidRun(INIT, run) && After(INIT, run).parent.Calling?
    requires forall c :: 0 <= c < |After(INIT, run).returned| ==> After(INIT, run).returned[c]
    ensures var s := After(INIT, run);
            var k := |s.returned|;
            && |s.children| == k
            && (forall i :: i in s.next <==> 0 <= i < k)
            && (forall i :: 0 <= i < k ==> s.next[i] == Next(i, k))
            && (k > 0 ==> s.leader == Some(0) && s.next[0] == k - 1)
  {
    RunKeepsInv(INIT, run);
    var s := After(INIT, run);
    forall c | 0 <= c < |s.children|
      ensures c in s.linked
    {
      assert Settled(s, c);
    }
    NumberedRing(s.leader, s.next, s.linked, |s.children|);
  }

  lemma NumberedRing(leader: Option<Tid>, next: map<Tid, Tid>, linked: seq<Tid>, k: nat)
    requires IsRing(leader, next, linked)
    requires forall i, j :: 0 <= i < j < |linked| ==> linked[i] < linked[j]
    requires forall c :: c in linked <==> 0 <= c < k
    ensures forall i :: i in next <==> 0 <= i < k
    ensures forall i :: 0 <= i < k ==> next[i] == Next(i, k)
    ensures k > 0 ==> leader == Some(0)
  {
    SortedIsIdentity(linked, k);
    forall i | 0 <= i < k
      ensures next[i] == Next(i, k)
    {
      assert next[linked[i]] == linked[Next(i, k)];
    }
  }

  lemma {:induction false} SortedIsIdentity(l: seq<Tid>, k: nat)
    requires forall i, j :: 0 <= i < j < |l| ==> l[i] < l[j]
    requires forall c :: c in l <==> 0 <= c < k
    ensures |l| == k && forall i :: 0 <= i < k ==> l[i] == i
    decreases k
  {
    if |l| > 0 {
      assert l[0] in l;
    }
    if k > 0 {
      assert k - 1 in l;
      var m: nat :| m < |l| && l[m] == k - 1;
      assert l[|l| - 1] in l;
      var front := l[..|l| - 1];
      assert l == front + [l[|l| - 1]];
      assert m == |l| - 1;
      forall c
        ensures c in front <==> 0 <= c < k - 1
      {
        assert c in l <==> c in front || c == l[|l| - 1];
      }
      SortedIsIdentity(front, k - 1);
    }
  }
}
