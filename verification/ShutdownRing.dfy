/** Orderly shutdown of the event threads (events/thread.c, schedule.c).

    A thread that receives SIGTERM or SIGINT signals its successor on the ring,
    joins it, and exits whatever the join returned. The controlling thread joins
    the newest event thread. Threads interleave freely at the granularity of one
    library call per step. */
module ShutdownRing {
  import opened RingOrder

  /** Where an event thread stands in `rxcommonsignal`. The flag records whether
      its own `pthread_join` returned zero. */
  datatype Stage =
    | Running                     // in the event loop
    | Astray                      // still in it, but never again at its signals
    | Handling                    // took a signal, has not yet called pthread_kill
    | Sent                        // successor signalled, join not yet called
    | Joining                     // blocked in pthread_join of the successor
    | Leaving(joined: bool)       // join returned
    | Cleared(joined: bool)       // its event handler has been freed
    | Exited(joined: bool)        // pthread_exit called, not yet joined by anyone
    | Reaped(joined: bool)        // joined: the identifier is no longer usable

  /** The thread calling torque_block() or torque_stop(). */
  datatype Controller = Idle | Ready | Blocked | Done(joined: bool)

  /** `detectsCycles`: a join that would close any cycle of waiting threads fails with
      EDEADLK. Without it only a self-join and two threads joining each other are noticed.
      `strays`: a thread may stop coming back to its signals, because kevent_retrieve() keeps
      waiting once errno is EINTR, or because a callback does not return. */
  datatype Platform = Platform(detectsCycles: bool, strays: bool)

  /** `stale` records that pthread_kill or a ring join was aimed at a thread already reaped,
      `dangling` that the controller read the leader's event handler after it was freed. */
  datatype State = State(
    platform: Platform,
    stage: seq<Stage>,
    pending: seq<bool>,
    process: bool,
    control: Controller,
    stale: bool,
    dangling: bool)

  datatype Step =
    | Deliver(i: nat)             // read a signal directed at this thread
    | DeliverShared(i: nat)       // read a signal directed at the process
    | Send(i: nat)
    | Join(i: nat)
    | Wake(i: nat)                // a blocked join returns
    | Clear(i: nat)               // destroy_evhandler()
    | Leave(i: nat)
    | Stop                        // reap_thread()'s kill()
    | Await                       // block_thread()'s pthread_join()
    | Release
    | KillProcess                 // a further signal from outside
    | KillThread(i: nat)
    | Stray(i: nat)

  predicate Past(t: Stage) { t.Leaving? || t.Cleared? || t.Exited? || t.Reaped? }
  predicate Freed(t: Stage) { t.Cleared? || t.Exited? || t.Reaped? }
  predicate Gone(t: Stage) { t.Exited? || t.Reaped? }
  predicate Unsent(t: Stage) { t.Running? || t.Astray? || t.Handling? }
  predicate JoinedOk(t: Stage) { Past(t) && t.joined }
  predicate JoinFailed(t: Stage) { Past(t) && !t.joined }
  predicate ThreadStep(e: Step) {
    e.Deliver? || e.DeliverShared? || e.Send? || e.Join? || e.Wake? || e.Clear? || e.Leave?
  }
  predicate Own(e: Step) { !e.KillProcess? && !e.KillThread? && !e.Stray? }

  predicate Shaped(s: State) { |s.pending| == |s.stage| }

  /** Following the chain of blocked joins from `from` reaches `to`. */
  predicate LeadsTo(s: State, from: nat, to: nat, fuel: nat)
    requires from < |s.stage| && to < |s.stage|
    decreases fuel
  {
    from == to ||
    (fuel > 0 && s.stage[from].Joining? &&
     LeadsTo(s, Next(from, |s.stage|), to, fuel - 1))
  }

  /** The platform reports that thread `i` joining its successor would deadlock. */
  predicate Deadlock(s: State, i: nat)
    requires i < |s.stage|
  {
    var n := |s.stage|;
    var t := Next(i, n);
    if s.platform.detectsCycles then LeadsTo(s, t, i, n)
    else t == i || (s.stage[t].Joining? && Next(t, n) == i)
  }

  datatype JoinResult = Gathered | Blocks | Edeadlk | Einval | Esrch

  function JoinOutcome(s: State, i: nat): JoinResult
    requires i < |s.stage|
  {
    var t := Next(i, |s.stage|);
    if s.stage[t].Reaped? then Esrch
    else if Deadlock(s, i) then Edeadlk
    else if i == 0 && s.control.Blocked? then Einval
    else if s.stage[t].Exited? then Gathered
    else Blocks
  }

  /** The controller waits for the newest thread, whose only other waiter can be
      thread 0. */
  function AwaitOutcome(s: State): JoinResult
    requires |s.stage| > 0
  {
    var t := s.stage[|s.stage| - 1];
    if t.Reaped? then Esrch
    else if |s.stage| > 1 && s.stage[0].Joining? then Einval
    else if t.Exited? then Gathered
    else Blocks
  }

  predicate Enabled(s: State, e: Step)
    requires Shaped(s)
  {
    match e
    case Deliver(i) => i < |s.stage| && s.stage[i].Running? && s.pending[i]
    case DeliverShared(i) => i < |s.stage| && s.stage[i].Running? && s.process
    case Send(i) => i < |s.stage| && s.stage[i].Handling?
    case Join(i) => i < |s.stage| && s.stage[i].Sent?
    case Wake(i) => i < |s.stage| && s.stage[i].Joining? && s.stage[Next(i, |s.stage|)].Exited?
    case Clear(i) => i < |s.stage| && s.stage[i].Leaving?
    case Leave(i) => i < |s.stage| && s.stage[i].Cleared?
    case Stop => s.control.Idle?
    case Await => s.control.Idle? || s.control.Ready?
    case Release => s.control.Blocked? && |s.stage| > 0 && s.stage[|s.stage| - 1].Exited?
    case KillProcess => true
    case KillThread(i) => i < |s.stage|
    case Stray(i) => s.platform.strays && i < |s.stage| && s.stage[i].Running?
  }

  function Reap(t: Stage): Stage
    requires t.Exited?
  {
    Reaped(t.joined)
  }

  /** reap_threads() looks the newest thread up before it sends the signal,
      block_threads() when it joins; both through the leader's handler. */
  predicate ReadsLeader(s: State, e: Step) {
    |s.stage| > 0 && (e.Stop? || (e.Await? && s.control.Idle?))
  }

  predicate ReadsFreed(s: State, e: Step) {
    ReadsLeader(s, e) && Freed(s.stage[0])
  }

  function Apply(s: State, e: Step): (r: State)
    requires Shaped(s) && Enabled(s, e)
    ensures Shaped(r) && |r.stage| == |s.stage| && r.platform == s.platform
  {
    var n := |s.stage|;
    match e
    case Deliver(i) => s.(stage := s.stage[i := Handling], pending := s.pending[i := false])
    case DeliverShared(i) => s.(stage := s.stage[i := Handling], process := false)
    case Send(i) =>
      s.(stage := s.stage[i := Sent],
         pending := s.pending[Next(i, n) := true],
         stale := s.stale || s.stage[Next(i, n)].Reaped?)
    case Join(i) =>
      (match JoinOutcome(s, i)
       case Gathered => s.(stage := s.stage[Next(i, n) := Reap(s.stage[Next(i, n)])][i := Leaving(true)])
       case Blocks => s.(stage := s.stage[i := Joining])
       case Esrch => s.(stage := s.stage[i := Leaving(false)], stale := true)
       case _ => s.(stage := s.stage[i := Leaving(false)]))
    case Wake(i) => s.(stage := s.stage[Next(i, n) := Reap(s.stage[Next(i, n)])][i := Leaving(true)])
    case Clear(i) => s.(stage := s.stage[i := Cleared(s.stage[i].joined)])
    case Leave(i) => s.(stage := s.stage[i := Exited(s.stage[i].joined)])
    case Stop => s.(control := Ready, process := true, dangling := s.dangling || ReadsFreed(s, e))
    case Await =>
      if n == 0 then s.(control := Done(true))
      else
        var t := s.(dangling := s.dangling || ReadsFreed(s, e));
        (match AwaitOutcome(s)
         case Gathered => t.(stage := s.stage[n - 1 := Reap(s.stage[n - 1])], control := Done(true))
         case Blocks => t.(control := Blocked)
         case _ => t.(control := Done(false)))
    case Release => s.(stage := s.stage[n - 1 := Reap(s.stage[n - 1])], control := Done(true))
    case KillProcess => s.(process := true)
    case KillThread(i) => s.(pending := s.pending[i := true])
    case Stray(i) => s.(stage := s.stage[i := Astray])
  }

  function Init(n: nat, platform: Platform): (s: State)
    ensures Shaped(s)
  {
    State(platform, seq(n, _ => Running), seq(n, _ => false), false, Idle, false, false)
  }

  // ---- The wait graph -------------------------------------------------------

  /** Every thread from `from` up to, not including, `to` is blocked. */
  predicate WaitingBetween(s: State, from: nat, to: nat) {
    forall j | 0 <= j < |s.stage| && (if from >= to then to < j <= from else j <= from || to < j) ::
      s.stage[j].Joining?
  }

  predicate OthersWait(s: State, i: nat) {
    forall j | 0 <= j < |s.stage| && j != i :: s.stage[j].Joining?
  }

  lemma {:induction false} LeadsToMeans(s: State, from: nat, to: nat, fuel: nat)
    requires from < |s.stage| && to < |s.stage|
    requires fuel >= if from >= to then from - to else from + |s.stage| - to
    ensures LeadsTo(s, from, to, fuel) <==> WaitingBetween(s, from, to)
    decreases fuel
  {
    if from != to && s.stage[from].Joining? {
      LeadsToMeans(s, Next(from, |s.stage|), to, fuel - 1);
    }
  }

  /** A reported deadlock means every other thread of the ring is blocked; and
      when cycles are detected, or the ring is small, the report is complete. */
  lemma DeadlockMeansAllOthersWait(s: State, i: nat)
    requires i < |s.stage|
    ensures Deadlock(s, i) ==> OthersWait(s, i)
    ensures s.platform.detectsCycles || |s.stage| <= 2 ==> (Deadlock(s, i) <==> OthersWait(s, i))
  {
    var n := |s.stage|;
    if s.platform.detectsCycles {
      LeadsToMeans(s, Next(i, n), i, n);
    }
  }

  // ---- The invariant ---------------------------------------------------------

  /** What each thread has done to its successor: a successful join has reaped
      it; nobody else reaps it, save the controller the newest thread; and past
      pthread_kill it has been signalled. */
  predicate Link(s: State, i: nat)
    requires Shaped(s) && i < |s.stage|
  {
    var next := Next(i, |s.stage|);
    && (JoinedOk(s.stage[i]) ==> s.stage[next].Reaped?)
    && (s.stage[next].Reaped? ==> JoinedOk(s.stage[i]) || (i == 0 && s.control == Done(true)))
    && (Unsent(s.stage[i]) || !s.stage[next].Running? || s.pending[next])
  }

  predicate Links(s: State)
    requires Shaped(s)
  {
    forall i :: 0 <= i < |s.stage| ==> Link(s, i)
  }

  /** The first join to return cannot have succeeded. */
  predicate SomeFailureFirst(s: State) {
    (exists i :: 0 <= i < |s.stage| && Past(s.stage[i])) ==>
      exists f :: 0 <= f < |s.stage| && JoinFailed(s.stage[f])
  }

  predicate BeatenByController(s: State, f: nat) {
    f == 0 && (s.control.Blocked? || s.control == Done(true))
  }

  predicate ClosedTheCycle(s: State, f: nat) {
    forall j :: 0 <= j < |s.stage| && j != f ==> s.stage[j].Joining? || JoinedOk(s.stage[j])
  }

  /** A join fails only because the controller got there first or because every
      other thread was already blocked. */
  predicate FailuresExplained(s: State) {
    forall f :: 0 <= f < |s.stage| && JoinFailed(s.stage[f]) ==>
      BeatenByController(s, f) || ClosedTheCycle(s, f)
  }

  predicate ControllerFirst(s: State) {
    |s.stage| > 0 && (s.control.Blocked? || s.control == Done(true)) ==>
      !s.stage[0].Joining? && !JoinedOk(s.stage[0])
  }

  predicate AllGone(s: State) {
    forall i :: 0 <= i < |s.stage| ==> Gone(s.stage[i])
  }

  predicate DoneMeansGone(s: State) {
    s.control == Done(true) ==>
      AllGone(s) && (|s.stage| > 0 ==> s.stage[|s.stage| - 1].Reaped?)
  }

  predicate AllJoining(s: State) {
    |s.stage| > 0 && forall i :: 0 <= i < |s.stage| ==> s.stage[i].Joining?
  }

  predicate NotAllJoining(s: State) {
    s.platform.detectsCycles || |s.stage| <= 2 ==> !AllJoining(s)
  }

  predicate NoneAstray(s: State) {
    forall i :: 0 <= i < |s.stage| ==> !s.stage[i].Astray?
  }

  predicate NobodyPast(s: State) {
    forall i :: 0 <= i < |s.stage| ==> !Past(s.stage[i])
  }

  /** Where only self-joins and mutual joins are noticed, no join of a larger ring returns
      unless the controller waits for the newest thread. */
  predicate PastNeedsController(s: State) {
    !s.platform.detectsCycles && |s.stage| >= 3 ==>
      NobodyPast(s) || s.control.Blocked? || s.control == Done(true)
  }

  predicate Inv(s: State) {
    && Shaped(s)
    && !s.stale
    && Links(s)
    && SomeFailureFirst(s)
    && FailuresExplained(s)
    && ControllerFirst(s)
    && DoneMeansGone(s)
    && NotAllJoining(s)
    && PastNeedsController(s)
    && (!s.platform.strays ==> NoneAstray(s))
  }

  lemma InitInv(n: nat, platform: Platform)
    ensures Inv(Init(n, platform))
  {
    var s := Init(n, platform);
    assert forall i :: 0 <= i < n ==> s.stage[i] == Running;
    assert NobodyPast(s) && NoneAstray(s) && Links(s);
    assert n > 0 ==> !s.stage[0].Joining?;
  }

  /** When the newest thread has exited and thread 0 is not the one waiting for
      it, the successful joins chain down the whole ring. */
  lemma {:induction false} NewestExitsLast(s: State, top: nat)
    requires Shaped(s) && Links(s) && FailuresExplained(s)
    requires top < |s.stage| && Gone(s.stage[top])
    requires !s.stage[0].Joining? && !JoinedOk(s.stage[0])
    ensures forall i :: 0 <= i <= top ==> Gone(s.stage[i])
    decreases top
  {
    if top > 0 {
      assert JoinFailed(s.stage[top]) ==> ClosedTheCycle(s, top);
      assert Link(s, top);
      NewestExitsLast(s, top - 1);
    }
  }

  /** A step moves the stage of the thread taking it and, when a join returns,
      turns the target from exited to reaped; nothing else moves. */
  lemma StageFrame(s: State, e: Step, j: nat)
    requires Shaped(s) && Enabled(s, e) && j < |s.stage|
    ensures var r := Apply(s, e);
            || r.stage[j] == s.stage[j]
            || (s.stage[j].Exited? && r.stage[j] == Reaped(s.stage[j].joined))
            || (ThreadStep(e) && j == e.i)
            || (e.Stray? && j == e.i && s.stage[j].Running? && r.stage[j].Astray?)
  {
    if e.Join? {
      JoinFrame(s, e.i);
    }
  }

  /** A join blocks, fails, or reaps. */
  lemma JoinFrame(s: State, i: nat)
    requires Shaped(s) && Enabled(s, Join(i))
    ensures var r := Apply(s, Join(i));
            var t := Next(i, |s.stage|);
            && r.pending == s.pending && r.control == s.control
            && (|| r.stage == s.stage[i := Joining]
                || r.stage == s.stage[i := Leaving(false)]
                || (s.stage[t].Exited? && r.stage == s.stage[t := Reaped(s.stage[t].joined)][i := Leaving(true)]))
  {
  }

  lemma LinksPreserved(s: State, e: Step, i: nat)
    requires Shaped(s) && Links(s) && DoneMeansGone(s) && Enabled(s, e) && i < |s.stage|
    ensures Link(Apply(s, e), i)
  {
    assert Link(s, i);
    if e.Join? || e.Wake? {
      JoinKeepsLink(s, e, i);
    } else if ThreadStep(e) {
      ThreadKeepsLink(s, e, i);
    } else {
      OutsideKeepsLink(s, e, i);
    }
  }

  lemma JoinKeepsLink(s: State, e: Step, i: nat)
    requires Shaped(s) && Enabled(s, e) && (e.Join? || e.Wake?) && DoneMeansGone(s) && i < |s.stage| && Link(s, i)
    ensures Link(Apply(s, e), i)
  {
    if e.Join? {
      JoinFrame(s, e.i);
    }
  }

  lemma ThreadKeepsLink(s: State, e: Step, i: nat)
    requires Shaped(s) && Enabled(s, e) && ThreadStep(e) && !e.Join? && !e.Wake? && i < |s.stage| && Link(s, i)
    ensures Link(Apply(s, e), i)
  {
  }

  lemma OutsideKeepsLink(s: State, e: Step, i: nat)
    requires Shaped(s) && Enabled(s, e) && !ThreadStep(e) && i < |s.stage| && Link(s, i)
    ensures Link(Apply(s, e), i)
  {
  }

  lemma NeverStale(s: State, e: Step)
    requires Inv(s) && Enabled(s, e)
    ensures !Apply(s, e).stale
  {
    if e.Send? || e.Join? {
      assert Link(s, e.i);
      assert !Gone(s.stage[e.i]);
    }
  }

  lemma FailuresPreserved(s: State, e: Step)
    requires Inv(s) && Enabled(s, e)
    ensures FailuresExplained(Apply(s, e))
  {
    var r := Apply(s, e);
    if e.Join? {
      DeadlockMeansAllOthersWait(s, e.i);
    }
    forall f | 0 <= f < |s.stage| && JoinFailed(r.stage[f])
      ensures BeatenByController(r, f) || ClosedTheCycle(r, f)
    {
      StageFrame(s, e, f);
      if JoinFailed(s.stage[f]) {
        assert BeatenByController(s, f) ==> BeatenByController(r, f);
        if ClosedTheCycle(s, f) {
          ClosedCyclePreserved(s, e, f);
        }
      } else if e.Join? {
        NeverStale(s, e);
        assert f == e.i && r == s.(stage := s.stage[f := Leaving(false)]);
      }
    }
  }

  lemma ClosedCyclePreserved(s: State, e: Step, f: nat)
    requires Shaped(s) && Enabled(s, e) && f < |s.stage|
    requires JoinFailed(s.stage[f]) && ClosedTheCycle(s, f)
    ensures ClosedTheCycle(Apply(s, e), f)
  {
    forall j | 0 <= j < |s.stage| && j != f
      ensures var t := Apply(s, e).stage[j]; t.Joining? || JoinedOk(t)
    {
      StageFrame(s, e, j);
      assert s.stage[j].Joining? || JoinedOk(s.stage[j]);
    }
  }

  lemma SomeFailurePreserved(s: State, e: Step)
    requires Inv(s) && Enabled(s, e)
    ensures SomeFailureFirst(Apply(s, e))
  {
    var r := Apply(s, e);
    if f: nat :| f < |s.stage| && JoinFailed(s.stage[f]) {
      StageFrame(s, e, f);
      assert JoinFailed(r.stage[f]);
    } else if e.Join? {
      JoinFrame(s, e.i);
      assert r.stage[e.i] == Leaving(false) ==> JoinFailed(r.stage[e.i]);
    }
  }

  lemma ControllerPreserved(s: State, e: Step)
    requires Inv(s) && Enabled(s, e)
    ensures ControllerFirst(Apply(s, e)) && DoneMeansGone(Apply(s, e))
  {
    if |s.stage| > 0 {
      assert Link(s, 0);
      if Gone(s.stage[|s.stage| - 1]) && !s.stage[0].Joining? && !JoinedOk(s.stage[0]) {
        NewestExitsLast(s, |s.stage| - 1);
      }
    }
    if ThreadStep(e) {
      ThreadLeavesController(s, e);
    } else {
      ControllerMoves(s, e);
    }
  }

  /** Once the controller waits, thread 0 neither blocks nor reaps. */
  lemma ThreadLeavesController(s: State, e: Step)
    requires Shaped(s) && ControllerFirst(s) && DoneMeansGone(s) && Enabled(s, e) && ThreadStep(e)
    ensures ControllerFirst(Apply(s, e)) && DoneMeansGone(Apply(s, e))
  {
  }

  lemma ControllerMoves(s: State, e: Step)
    requires Shaped(s) && ControllerFirst(s) && DoneMeansGone(s) && NotAllJoining(s) && Enabled(s, e) && !ThreadStep(e)
    requires |s.stage| > 0 ==> Link(s, 0)
    requires |s.stage| > 0 && Gone(s.stage[|s.stage| - 1]) && !s.stage[0].Joining? && !JoinedOk(s.stage[0]) ==> AllGone(s)
    ensures ControllerFirst(Apply(s, e)) && DoneMeansGone(Apply(s, e))
  {
  }

  lemma NotAllJoiningPreserved(s: State, e: Step)
    requires Inv(s) && Enabled(s, e)
    ensures NotAllJoining(Apply(s, e))
  {
    var r := Apply(s, e);
    if e.Join? {
      DeadlockMeansAllOthersWait(s, e.i);
      JoinFrame(s, e.i);
      if !OthersWait(s, e.i) {
        var j :| 0 <= j < |s.stage| && j != e.i && !s.stage[j].Joining?;
        assert !r.stage[j].Joining?;
      } else {
        assert s.platform.detectsCycles || |s.stage| <= 2 ==> r.stage[e.i] == Leaving(false);
      }
    } else if s.platform.detectsCycles || |s.stage| <= 2 {
      if |s.stage| > 0 {
        var j :| 0 <= j < |s.stage| && !s.stage[j].Joining?;
        StageFrame(s, e, j);
        assert !r.stage[j].Joining?;
      }
    }
  }

  lemma PastNeedsControllerPreserved(s: State, e: Step)
    requires Shaped(s) && PastNeedsController(s) && Enabled(s, e)
    ensures PastNeedsController(Apply(s, e))
  {
    if !s.platform.detectsCycles && |s.stage| >= 3 && NobodyPast(s) {
      if e.Join? {
        JoinFrame(s, e.i);
        assert !s.control.Blocked? ==> JoinOutcome(s, e.i) == Blocks;
      } else {
        assert !e.Wake? && !e.Clear? && !e.Leave? && !e.Release?;
        forall j | 0 <= j < |s.stage| ensures s.control.Blocked? || !Past(Apply(s, e).stage[j]) { StageFrame(s, e, j); }
      }
    }
  }

  lemma NoneAstrayPreserved(s: State, e: Step)
    requires Shaped(s) && NoneAstray(s) && !e.Stray? && Enabled(s, e)
    ensures NoneAstray(Apply(s, e))
  {
    if e.Join? {
      JoinFrame(s, e.i);
    }
  }

  /** Every step, of a thread, the controller or the outside, keeps the invariant. */
  lemma StepKeepsInv(s: State, e: Step)
    requires Inv(s) && Enabled(s, e)
    ensures Inv(Apply(s, e))
  {
    forall i | 0 <= i < |s.stage|
      ensures Link(Apply(s, e), i)
    {
      LinksPreserved(s, e, i);
    }
    NeverStale(s, e);
    FailuresPreserved(s, e);
    SomeFailurePreserved(s, e);
    ControllerPreserved(s, e);
    NotAllJoiningPreserved(s, e);
    PastNeedsControllerPreserved(s, e);
    if !s.platform.strays {
      NoneAstrayPreserved(s, e);
    }
  }

  // ---- Runs ------------------------------------------------------------------

  predicate ValidRun(s: State, run: seq<Step>)
    requires Shaped(s)
    decreases |run|
  {
    run == [] || (Enabled(s, run[0]) && ValidRun(Apply(s, run[0]), run[1..]))
  }

  function After(s: State, run: seq<Step>): (r: State)
    requires Shaped(s) && ValidRun(s, run)
    ensures Shaped(r) && |r.stage| == |s.stage| && r.platform == s.platform
    decreases |run|
  {
    if run == [] then s else After(Apply(s, run[0]), run[1..])
  }

  function OwnSteps(run: seq<Step>): nat {
    if run == [] then 0 else (if Own(run[0]) then 1 else 0) + OwnSteps(run[1..])
  }

  lemma {:induction false} RunKeepsInv(s: State, run: seq<Step>)
    requires Inv(s) && ValidRun(s, run)
    ensures Inv(After(s, run))
    decreases |run|
  {
    if run != [] {
      StepKeepsInv(s, run[0]);
      RunKeepsInv(Apply(s, run[0]), run[1..]);
    }
  }

  /** In every run from a freshly spawned ring, whatever the interleaving and
      whatever further signals arrive, pthread_kill and the ring's joins are never
      aimed at a reaped thread, and if the controller's join has succeeded then
      every event thread has exited. */
  lemma ShutdownIsSafe(n: nat, platform: Platform, run: seq<Step>)
    requires ValidRun(Init(n, platform), run)
    ensures var s := After(Init(n, platform), run);
            !s.stale && (s.control == Done(true) ==> AllGone(s))
  {
    InitInv(n, platform);
    RunKeepsInv(Init(n, platform), run);
  }

  /** In every complete shutdown exactly one thread's join failed. Each other
      thread reaped its successor; the one thread nobody on the ring reaped is
      reaped exactly when the controller's join succeeded, and then the failure
      was thread 0's. */
  lemma ExactlyOneJoinFails(n: nat, platform: Platform, run: seq<Step>) returns (f: nat)
    requires n > 0 && ValidRun(Init(n, platform), run)
    requires AllGone(After(Init(n, platform), run))
    ensures var s := After(Init(n, platform), run);
            && f < n && JoinFailed(s.stage[f])
            && (forall j :: 0 <= j < n && j != f ==> JoinedOk(s.stage[j]) && s.stage[Next(j, n)].Reaped?)
            && (s.stage[Next(f, n)].Reaped? <==> s.control == Done(true))
            && (s.control == Done(true) ==> f == 0)
  {
    InitInv(n, platform);
    RunKeepsInv(Init(n, platform), run);
    var s := After(Init(n, platform), run);
    assert Past(s.stage[0]);
    f :| 0 <= f < n && JoinFailed(s.stage[f]);
    forall j | 0 <= j < n && j != f
      ensures JoinedOk(s.stage[j]) && s.stage[Next(j, n)].Reaped?
    {
      assert Link(s, j);
      assert BeatenByController(s, f) || ClosedTheCycle(s, f);
      assert JoinFailed(s.stage[j]) ==> BeatenByController(s, j) || ClosedTheCycle(s, j);
    }
    assert Link(s, f);
  }

  // ---- The steps, in place -------------------------------------------------------

  /** The event threads as the calls of `rxcommonsignal`, `reap_thread` and
      `block_thread` change them. */
  class Threads {
    const platform: Platform
    const stage: array<Stage>
    const pending: array<bool>
    var process: bool
    var control: Controller
    var stale: bool
    var dangling: bool

    ghost predicate Valid() { pending.Length == stage.Length }

    ghost function Snapshot(): State
      reads this, stage, pending
    {
      State(platform, stage[..], pending[..], process, control, stale, dangling)
    }

    constructor (n: nat, platform: Platform)
      ensures Valid() && fresh(stage) && fresh(pending)
      ensures Snapshot() == Init(n, platform) && Inv(Snapshot())
    {
      this.platform := platform;
      stage := new Stage[n](_ => Running);
      pending := new bool[n](_ => false);
      process, control, stale, dangling := false, Idle, false, false;
      new;
      assert Snapshot() == Init(n, platform);
      InitInv(n, platform);
    }

    /** signalfd_demultiplexer() hands a signal to the handler: one directed at
        this thread if there is one, else one directed at the process. */
    method TakeSignal(i: nat)
      requires Valid() && i < stage.Length && stage[i].Running? && (pending[i] || process)
      modifies this, stage, pending
      ensures Snapshot() == Apply(old(Snapshot()), if old(pending[i]) then Deliver(i) else DeliverShared(i))
      ensures old(Inv(Snapshot())) ==> Inv(Snapshot())
    {
      ghost var s := Snapshot();
      ghost var e := if pending[i] then Deliver(i) else DeliverShared(i);
      if pending[i] {
        pending[i] := false;
      } else {
        process := false;
      }
      stage[i] := Handling;
      assert Snapshot() == Apply(s, e);
      if Inv(s) { StepKeepsInv(s, e); }
    }

    /** pthread_kill(e->nexttid, sig) */
    method SignalNext(i: nat)
      requires Valid() && i < stage.Length && stage[i].Handling?
      modifies this, stage, pending
      ensures Snapshot() == Apply(old(Snapshot()), Send(i))
      ensures old(Inv(Snapshot())) ==> Inv(Snapshot())
    {
      ghost var s := Snapshot();
      var next := Next(i, stage.Length);
      if stage[next].Reaped? {
        stale := true;
      }
      pending[next] := true;
      stage[i] := Sent;
      assert Snapshot() == Apply(s, Send(i));
      if Inv(s) { StepKeepsInv(s, Send(i)); }
    }

    /** The thread is caught in kevent_retrieve(), or in a callback. */
    method GoAstray(i: nat)
      requires Valid() && platform.strays && i < stage.Length && stage[i].Running?
      modifies stage
      ensures Snapshot() == Apply(old(Snapshot()), Stray(i))
      ensures old(Inv(Snapshot())) ==> Inv(Snapshot())
    {
      ghost var s := Snapshot();
      stage[i] := Astray;
      assert Snapshot() == Apply(s, Stray(i));
      if Inv(s) { StepKeepsInv(s, Stray(i)); }
    }

    /** Walks the chain of blocked joins. */
    method WaitsFor(from: nat, to: nat) returns (found: bool)
      requires Valid() && from < stage.Length && to < stage.Length
      ensures found <==> LeadsTo(Snapshot(), from, to, stage.Length)
    {
      var at: nat, left: nat := from, stage.Length;
      while at != to && left > 0 && stage[at].Joining?
        invariant at < stage.Length
        invariant LeadsTo(Snapshot(), from, to, stage.Length) == LeadsTo(Snapshot(), at, to, left)
        decreases left
      {
        at, left := Next(at, stage.Length), left - 1;
      }
      found := at == to;
    }

    method WouldDeadlock(i: nat) returns (yes: bool)
      requires Valid() && i < stage.Length
      ensures yes <==> Deadlock(Snapshot(), i)
    {
      var next := Next(i, stage.Length);
      if platform.detectsCycles {
        yes := WaitsFor(next, i);
      } else {
        yes := next == i || (stage[next].Joining? && Next(next, stage.Length) == i);
      }
    }

    /** pthread_join(e->nexttid, &ret), up to the point where it returns or blocks. */
    method JoinNext(i: nat)
      requires Valid() && i < stage.Length && stage[i].Sent?
      modifies this, stage
      ensures Snapshot() == Apply(old(Snapshot()), Join(i))
      ensures old(Inv(Snapshot())) ==> Inv(Snapshot())
    {
      ghost var s := Snapshot();
      var next := Next(i, stage.Length);
      var deadlock := WouldDeadlock(i);
      if stage[next].Reaped? {
        stale := true;
        stage[i] := Leaving(false);
      } else if deadlock || (i == 0 && control.Blocked?) {
        stage[i] := Leaving(false);
      } else if stage[next].Exited? {
        stage[next] := Reaped(stage[next].joined);
        stage[i] := Leaving(true);
      } else {
        stage[i] := Joining;
      }
      assert Snapshot() == Apply(s, Join(i));
      if Inv(s) { StepKeepsInv(s, Join(i)); }
    }

    /** A blocked join returns because its target has exited. */
    method JoinReturns(i: nat)
      requires Valid() && i < stage.Length && stage[i].Joining? && stage[Next(i, stage.Length)].Exited?
      modifies stage
      ensures Snapshot() == Apply(old(Snapshot()), Wake(i))
      ensures old(Inv(Snapshot())) ==> Inv(Snapshot())
    {
      ghost var s := Snapshot();
      var next := Next(i, stage.Length);
      stage[next] := Reaped(stage[next].joined);
      stage[i] := Leaving(true);
      assert Snapshot() == Apply(s, Wake(i));
      if Inv(s) { StepKeepsInv(s, Wake(i)); }
    }

    /** destroy_evhandler(ctx, e) */
    method DestroyHandler(i: nat)
      requires Valid() && i < stage.Length && stage[i].Leaving?
      modifies stage
      ensures Snapshot() == Apply(old(Snapshot()), Clear(i))
      ensures old(Inv(Snapshot())) ==> Inv(Snapshot())
    {
      ghost var s := Snapshot();
      stage[i] := Cleared(stage[i].joined);
      assert Snapshot() == Apply(s, Clear(i));
      if Inv(s) { StepKeepsInv(s, Clear(i)); }
    }

    /** pthread_exit() */
    method Exit(i: nat)
      requires Valid() && i < stage.Length && stage[i].Cleared?
      modifies stage
      ensures Snapshot() == Apply(old(Snapshot()), Leave(i))
      ensures old(Inv(Snapshot())) ==> Inv(Snapshot())
    {
      ghost var s := Snapshot();
      stage[i] := Exited(stage[i].joined);
      assert Snapshot() == Apply(s, Leave(i));
      if Inv(s) { StepKeepsInv(s, Leave(i)); }
    }

    /** ctx->ev->nexttid */
    method ReadLeader()
      requires Valid()
      modifies this`dangling
      ensures dangling == (old(dangling) || (stage.Length > 0 && Freed(stage[0])))
    {
      if stage.Length > 0 && (stage[0].Cleared? || stage[0].Exited? || stage[0].Reaped?) {
        dangling := true;
      }
    }

    /** The lookup in reap_threads(), then kill(getpid(), EVTHREAD_TERM). */
    method RequestStop()
      requires Valid() && control.Idle?
      modifies this
      ensures Snapshot() == Apply(old(Snapshot()), Stop)
      ensures old(Inv(Snapshot())) ==> Inv(Snapshot())
    {
      ghost var s := Snapshot();
      ReadLeader();
      process, control := true, Ready;
      if Inv(s) { StepKeepsInv(s, Stop); }
    }

    /** block_threads(): the join of the newest thread, up to where it returns or
        blocks. With no threads there is nothing to join. */
    method BlockThreads()
      requires Valid() && (control.Idle? || control.Ready?)
      modifies this, stage
      ensures Snapshot() == Apply(old(Snapshot()), Await)
      ensures old(Inv(Snapshot())) ==> Inv(Snapshot())
    {
      ghost var s := Snapshot();
      if control.Idle? {
        ReadLeader();
      }
      JoinNewest();
      assert Snapshot() == Apply(s, Await);
      if Inv(s) { StepKeepsInv(s, Await); }
    }

    /** block_thread(ctx->ev->nexttid) */
    method JoinNewest()
      requires Valid()
      modifies this`control, stage
      ensures var s := old(Snapshot());
              Snapshot() == Apply(s.(control := Ready), Await)
    {
      var n := stage.Length;
      if n == 0 {
        control := Done(true);
      } else if stage[n - 1].Reaped? || (n > 1 && stage[0].Joining?) {
        control := Done(false);
      } else if stage[n - 1].Exited? {
        stage[n - 1] := Reaped(stage[n - 1].joined);
        control := Done(true);
      } else {
        control := Blocked;
      }
    }

    method BlockReturns()
      requires Valid() && control.Blocked? && stage.Length > 0 && stage[stage.Length - 1].Exited?
      modifies this, stage
      ensures Snapshot() == Apply(old(Snapshot()), Release)
      ensures old(Inv(Snapshot())) ==> Inv(Snapshot()) && AllGone(Snapshot())
    {
      ghost var s := Snapshot();
      stage[stage.Length - 1] := Reaped(stage[stage.Length - 1].joined);
      control := Done(true);
      assert Snapshot() == Apply(s, Release);
      if Inv(s) { StepKeepsInv(s, Release); }
    }
  }
}
