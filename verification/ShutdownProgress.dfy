/** How a shutdown ends (events/thread.c, schedule.c, doc/termination): progress, what EDEADLK
    is needed for, and what the controller is promised. */
module ShutdownProgress {
  import opened RingOrder
  import opened ShutdownRing

  // ---- Progress --------------------------------------------------------------

  function StageRank(t: Stage): nat {
    match t
    case Running => 6
    case Astray => 6
    case Handling => 5
    case Sent => 4
    case Joining => 3
    case Leaving(_) => 2
    case Cleared(_) => 1
    case _ => 0
  }

  function StagesRank(stages: seq<Stage>): nat {
    if stages == [] then 0 else StageRank(stages[0]) + StagesRank(stages[1..])
  }

  function ControlRank(c: Controller): nat {
    match c
    case Idle => 3
    case Ready => 2
    case Blocked => 1
    case Done(_) => 0
  }

  function Rank(s: State): nat { StagesRank(s.stage) + ControlRank(s.control) }

  lemma {:induction false} StagesRankUpdate(stages: seq<Stage>, i: nat, t: Stage)
    requires i < |stages|
    ensures StagesRank(stages[i := t]) == StagesRank(stages) - StageRank(stages[i]) + StageRank(t)
  {
    if i > 0 {
      StagesRankUpdate(stages[1..], i - 1, t);
      assert stages[i := t][1..] == stages[1..][i - 1 := t];
    } else {
      assert stages[i := t][1..] == stages[1..];
    }
  }

  lemma GatherRank(stages: seq<Stage>, i: nat, t: nat)
    requires i < |stages| && t < |stages| && stages[t].Exited?
    requires stages[i].Sent? || stages[i].Joining?
    ensures StagesRank(stages[t := Reap(stages[t])][i := Leaving(true)]) < StagesRank(stages)
  {
    StagesRankUpdate(stages, t, Reap(stages[t]));
    StagesRankUpdate(stages[t := Reap(stages[t])], i, Leaving(true));
  }

  lemma JoinRank(s: State, i: nat)
    requires Shaped(s) && Enabled(s, Join(i))
    ensures StagesRank(Apply(s, Join(i)).stage) < StagesRank(s.stage)
  {
    JoinFrame(s, i);
    if s.stage[Next(i, |s.stage|)].Exited? {
      GatherRank(s.stage, i, Next(i, |s.stage|));
    }
    StagesRankUpdate(s.stage, i, Joining);
    StagesRankUpdate(s.stage, i, Leaving(false));
  }

  lemma ThreadRank(s: State, e: Step)
    requires Shaped(s) && Enabled(s, e) && ThreadStep(e)
    ensures StagesRank(Apply(s, e).stage) < StagesRank(s.stage)
  {
    match e {
      case Deliver(i) => StagesRankUpdate(s.stage, i, Handling);
      case DeliverShared(i) => StagesRankUpdate(s.stage, i, Handling);
      case Send(i) => StagesRankUpdate(s.stage, i, Sent);
      case Join(i) => JoinRank(s, i);
      case Wake(i) => GatherRank(s.stage, i, Next(i, |s.stage|));
      case Clear(i) => StagesRankUpdate(s.stage, i, Cleared(s.stage[i].joined));
      case Leave(i) => StagesRankUpdate(s.stage, i, Exited(s.stage[i].joined));
    }
  }

  lemma ControllerRank(s: State, e: Step)
    requires Shaped(s) && Enabled(s, e) && Own(e) && !ThreadStep(e)
    ensures StagesRank(Apply(s, e).stage) == StagesRank(s.stage)
    ensures ControlRank(Apply(s, e).control) < ControlRank(s.control)
  {
    var n := |s.stage|;
    if n > 0 && s.stage[n - 1].Exited? {
      StagesRankUpdate(s.stage, n - 1, Reap(s.stage[n - 1]));
    }
  }

  /** Each step of the threads or the controller lowers the rank; signals from
      outside leave it alone, so they neither speed nor delay the shutdown. */
  lemma RankDecreases(s: State, e: Step)
    requires Shaped(s) && Enabled(s, e)
    ensures Own(e) ==> Rank(Apply(s, e)) < Rank(s)
    ensures !Own(e) ==> Rank(Apply(s, e)) == Rank(s)
  {
    if ThreadStep(e) {
      ThreadRank(s, e);
      assert Apply(s, e).control == s.control;
    } else if Own(e) {
      ControllerRank(s, e);
    } else if e.Stray? {
      StagesRankUpdate(s.stage, e.i, Astray);
    }
  }

  lemma {:induction false} InitialRank(stages: seq<Stage>)
    requires forall i :: 0 <= i < |stages| ==> stages[i].Running?
    ensures StagesRank(stages) == 6 * |stages|
  {
    if stages != [] {
      InitialRank(stages[1..]);
    }
  }

  lemma {:induction false} OwnStepsSpendRank(s: State, run: seq<Step>)
    requires Shaped(s) && ValidRun(s, run)
    ensures OwnSteps(run) + Rank(After(s, run)) <= Rank(s)
    decreases |run|
  {
    if run != [] {
      RankDecreases(s, run[0]);
      OwnStepsSpendRank(Apply(s, run[0]), run[1..]);
    }
  }

  /** However many signals arrive, a shutdown takes at most six steps per thread
      and three of the controller. */
  lemma ShutdownIsBounded(n: nat, platform: Platform, run: seq<Step>)
    requires ValidRun(Init(n, platform), run)
    ensures OwnSteps(run) <= 6 * n + 3
  {
    InitialRank(Init(n, platform).stage);
    OwnStepsSpendRank(Init(n, platform), run);
  }

  /** Some thread has taken a signal or has one waiting. */
  predicate Initiated(s: State)
    requires Shaped(s)
  {
    s.process || exists i :: 0 <= i < |s.stage| && (s.pending[i] || !(s.stage[i].Running? || s.stage[i].Astray?))
  }

  ghost predicate CanStep(s: State)
    requires Shaped(s)
  {
    exists e: Step :: ThreadStep(e) && Enabled(s, e)
  }

  predicate Idling(s: State, i: nat)
    requires Shaped(s) && i < |s.stage|
  {
    s.stage[i].Running? && !s.pending[i]
  }

  lemma Stuck(s: State, i: nat)
    requires Inv(s) && i < |s.stage| && !CanStep(s)
    ensures Idling(s, i) || s.stage[i].Joining? || Gone(s.stage[i]) || s.stage[i].Astray?
    ensures !Idling(s, i) && !s.stage[i].Astray? ==> !Idling(s, Next(i, |s.stage|))
    ensures s.stage[i].Joining? && !AllGone(s) ==> !Gone(s.stage[Next(i, |s.stage|)])
    ensures s.process ==> !s.stage[i].Running?
  {
    assert !Enabled(s, Deliver(i)) && !Enabled(s, DeliverShared(i)) && !Enabled(s, Send(i))
        && !Enabled(s, Join(i)) && !Enabled(s, Wake(i)) && !Enabled(s, Clear(i)) && !Enabled(s, Leave(i)) by {
      assert ThreadStep(Deliver(i)) && ThreadStep(DeliverShared(i)) && ThreadStep(Send(i))
          && ThreadStep(Join(i)) && ThreadStep(Wake(i)) && ThreadStep(Clear(i)) && ThreadStep(Leave(i));
    }
    assert Link(s, i);
  }

  /** A started shutdown in which no thread can move has finished, left every thread
      blocked on the next, or met a thread gone astray. */
  lemma StuckMeansFinishedOrCycle(s: State)
    requires Inv(s) && Initiated(s) && !CanStep(s)
    ensures AllGone(s) || AllJoining(s) || !NoneAstray(s)
  {
    var n := |s.stage|;
    if n > 0 && NoneAstray(s) {
      Stuck(s, 0);
      var start: nat := if s.process then 0 else var i: nat :| i < n && (s.pending[i] || !(s.stage[i].Running? || s.stage[i].Astray?)); i;
      var awake := (i: nat) => i < n && !Idling(s, i);
      forall i | 0 <= i < n && awake(i) ensures awake(Next(i, n)) { Stuck(s, i); }
      AroundTheRing(n, awake, start);
      if !AllGone(s) {
        var j: nat :| j < n && !Gone(s.stage[j]);
        var waiting := (i: nat) => i < n && s.stage[i].Joining?;
        assert awake(j);
        Stuck(s, j);
        forall i | 0 <= i < n && waiting(i)
          ensures waiting(Next(i, n))
        {
          Stuck(s, i);
          assert awake(Next(i, n));
          Stuck(s, Next(i, n));
        }
        AroundTheRing(n, waiting, j);
        forall i | 0 <= i < n ensures s.stage[i].Joining? { assert waiting(i); }
      }
    }
  }

  /** No deadlock: on a platform that reports wait cycles, on a ring of at most
      two, or once the controller waits for the newest thread, a started shutdown
      with no thread gone astray can always move until every thread has exited. */
  lemma NoDeadlock(s: State)
    requires Inv(s) && Initiated(s) && NoneAstray(s)
    requires s.platform.detectsCycles || |s.stage| <= 2 || s.control.Blocked?
    ensures CanStep(s) || AllGone(s)
  {
    if !CanStep(s) {
      StuckMeansFinishedOrCycle(s);
    }
  }

  lemma {:induction false} StaysInitiated(s: State, e: Step)
    requires Shaped(s) && Initiated(s) && ThreadStep(e) && Enabled(s, e)
    ensures Initiated(Apply(s, e)) && Apply(s, e).control == s.control
  {
    assert !Apply(s, e).stage[e.i].Running? && !Apply(s, e).stage[e.i].Astray?;
  }

  predicate ThreadsOnly(run: seq<Step>) {
    forall k :: 0 <= k < |run| ==> ThreadStep(run[k])
  }

  /** From any reachable state of a started shutdown the threads alone, in some
      order, complete it. */
  lemma {:induction false} ShutdownCompletes(s: State) returns (run: seq<Step>)
    requires Inv(s) && Initiated(s) && NoneAstray(s)
    requires s.platform.detectsCycles || |s.stage| <= 2 || s.control.Blocked?
    ensures ValidRun(s, run) && ThreadsOnly(run) && AllGone(After(s, run)) && After(s, run).control == s.control
    decreases Rank(s)
  {
    NoDeadlock(s);
    if AllGone(s) {
      run := [];
    } else {
      var e :| ThreadStep(e) && Enabled(s, e);
      StepKeepsInv(s, e);
      RankDecreases(s, e);
      StaysInitiated(s, e);
      NoneAstrayPreserved(s, e);
      var rest := ShutdownCompletes(Apply(s, e));
      run := Prepend(s, e, rest);
    }
  }

  lemma Prepend(s: State, e: Step, rest: seq<Step>) returns (run: seq<Step>)
    requires Shaped(s) && Enabled(s, e) && ValidRun(Apply(s, e), rest)
    ensures ValidRun(s, run) && After(s, run) == After(Apply(s, e), rest) && run == [e] + rest
  {
    run := [e] + rest;
    assert run[1..] == rest;
  }

  /** Who is astray stays astray. */
  lemma {:induction false} AstrayForEver(s: State, run: seq<Step>, i: nat)
    requires Shaped(s) && ValidRun(s, run) && i < |s.stage| && s.stage[i].Astray?
    ensures After(s, run).stage[i].Astray?
    decreases |run|
  {
    if run != [] {
      StageFrame(s, run[0], i);
      AstrayForEver(Apply(s, run[0]), run[1..], i);
    }
  }

  lemma {:induction false} ThreadsLeaveController(s: State, run: seq<Step>)
    requires Shaped(s) && ValidRun(s, run) && ThreadsOnly(run)
    ensures After(s, run).control == s.control
    decreases |run|
  {
    if run != [] {
      assert Apply(s, run[0]).control == s.control;
      ThreadsLeaveController(Apply(s, run[0]), run[1..]);
    }
  }

  ghost predicate CompletesAlone(s: State)
    requires Shaped(s)
  {
    exists run :: ValidRun(s, run) && ThreadsOnly(run) && AllGone(After(s, run))
  }

  predicate CanEndAlone(s: State) {
    NoneAstray(s) && (s.platform.detectsCycles || |s.stage| <= 2 || s.control.Blocked? || AllGone(s))
  }

  lemma CannotEndAlone(s: State, run: seq<Step>)
    requires Inv(s) && !CanEndAlone(s) && ValidRun(s, run) && ThreadsOnly(run)
    ensures !AllGone(After(s, run))
  {
    RunKeepsInv(s, run);
    if !NoneAstray(s) {
      var i :| 0 <= i < |s.stage| && s.stage[i].Astray?;
      AstrayForEver(s, run, i);
    } else {
      ThreadsLeaveController(s, run);
      assert !Past(After(s, run).stage[0]);
    }
  }

  /** The threads alone can complete a started shutdown if and only if none of them is astray
      and the platform reports cycles, the ring has two threads at most, the controller
      already waits, or all are gone anyway. */
  lemma CompletesAloneIff(s: State)
    requires Inv(s) && Initiated(s)
    ensures CompletesAlone(s) <==> CanEndAlone(s)
  {
    if CanEndAlone(s) {
      if AllGone(s) {
        assert ValidRun(s, []) && ThreadsOnly([]) && AllGone(After(s, []));
      } else {
        var run := ShutdownCompletes(s);
      }
    } else {
      forall run | ValidRun(s, run) && ThreadsOnly(run)
        ensures !AllGone(After(s, run))
      {
        CannotEndAlone(s, run);
      }
    }
  }

  // ---- What EDEADLK is needed for ---------------------------------------------

  lemma AllJoiningIsPermanent(s: State, e: Step)
    requires Shaped(s) && AllJoining(s) && Enabled(s, e)
    ensures AllJoining(Apply(s, e)) && !ThreadStep(e)
  {
  }

  lemma {:induction false} AllJoiningForEver(s: State, run: seq<Step>)
    requires Shaped(s) && AllJoining(s) && ValidRun(s, run)
    ensures AllJoining(After(s, run))
    decreases |run|
  {
    if run != [] {
      AllJoiningIsPermanent(s, run[0]);
      AllJoiningForEver(Apply(s, run[0]), run[1..]);
    }
  }

  /** The first `k` threads in ring order, 0, n-1, n-2, ..., are blocked; the one
      after them has been signalled; the others run on. */
  predicate Blocking(s: State, k: nat) {
    var n := |s.stage|;
    && Shaped(s) && !s.platform.detectsCycles && s.control.Idle? && k <= n
    && (forall j :: 0 <= j < n ==> s.stage[j] == if (j == 0 && k > 0) || j > n - k then Joining else Running)
    && (k < n ==> s.pending[if k == 0 then 0 else n - k])
  }

  lemma {:induction false} BlockTheRest(s: State, k: nat) returns (run: seq<Step>)
    requires |s.stage| >= 3 && Blocking(s, k)
    ensures ValidRun(s, run) && AllJoining(After(s, run))
    decreases |s.stage| - k
  {
    var n := |s.stage|;
    if k == n {
      run := [];
    } else {
      var i := if k == 0 then 0 else n - k;
      var s1 := Apply(s, Deliver(i));
      var s2 := Apply(s1, Send(i));
      assert JoinOutcome(s2, i) == Blocks;
      var s3 := Apply(s2, Join(i));
      var rest := BlockTheRest(s3, k + 1);
      var run2 := Prepend(s2, Join(i), rest);
      var run1 := Prepend(s1, Send(i), run2);
      run := Prepend(s, Deliver(i), run1);
    }
  }

  /** After the run, and whatever comes after it, every thread is blocked. */
  ghost predicate BlocksForEver(s: State, run: seq<Step>)
    requires Shaped(s)
  {
    ValidRun(s, run) && forall more :: ValidRun(After(s, run), more) ==> AllJoining(After(After(s, run), more))
  }

  /** After the run a shutdown has started, and whatever comes after it, it is not completed. */
  ghost predicate StrandsForEver(s: State, run: seq<Step>)
    requires Shaped(s)
  {
    && ValidRun(s, run) && Initiated(After(s, run))
    && forall more :: ValidRun(After(s, run), more) ==> !AllGone(After(After(s, run), more))
  }

  /** The ring relies on EDEADLK exactly here: some run leaves every thread
      blocked for ever if and only if the ring has three threads or more and the
      platform reports no more than self-joins and mutual joins. */
  lemma DeadlockIff(n: nat, platform: Platform)
    ensures (exists run :: BlocksForEver(Init(n, platform), run)) <==> n >= 3 && !platform.detectsCycles
  {
    var s := Init(n, platform);
    if n >= 3 && !platform.detectsCycles {
      var run := DeadlockRun(n, platform);
    } else {
      InitInv(n, platform);
      forall run | ValidRun(s, run)
        ensures !BlocksForEver(s, run)
      {
        RunKeepsInv(s, run);
        assert ValidRun(After(s, run), []);
      }
    }
  }

  lemma DeadlockRun(n: nat, platform: Platform) returns (run: seq<Step>)
    requires n >= 3 && !platform.detectsCycles
    ensures BlocksForEver(Init(n, platform), run) && StrandsForEver(Init(n, platform), run)
  {
    var s := Init(n, platform);
    var s1 := Apply(s, KillThread(0));
    var rest := BlockTheRest(s1, 0);
    run := Prepend(s, KillThread(0), rest);
    FullyBlocked(After(s, run));
  }

  /** A fully blocked ring stays so, and never completes. */
  lemma FullyBlocked(s: State)
    requires Shaped(s) && AllJoining(s)
    ensures Initiated(s)
    ensures forall more :: ValidRun(s, more) ==> AllJoining(After(s, more)) && !AllGone(After(s, more))
  {
    assert s.stage[0].Joining?;
    forall more | ValidRun(s, more)
      ensures AllJoining(After(s, more)) && !AllGone(After(s, more))
    {
      AllJoiningForEver(s, more);
      assert After(s, more).stage[0].Joining?;
    }
  }

  lemma StrayRun(n: nat, platform: Platform) returns (run: seq<Step>)
    requires n > 0 && platform.strays
    ensures StrandsForEver(Init(n, platform), run)
  {
    var s := Init(n, platform);
    var s1 := Apply(s, Stray(0));
    run := Prepend(s1, KillThread(0), []);
    run := Prepend(s, Stray(0), run);
    var r := After(s, run);
    assert r == Apply(s1, KillThread(0));
    assert r.pending[0];
    forall more | ValidRun(r, more)
      ensures !AllGone(After(r, more))
    {
      AstrayForEver(r, more, 0);
    }
  }

  /** Some run leaves a started shutdown that nothing can complete any more if and only if
      threads can go astray, or there are three or more and the platform reports no more than
      self-joins and mutual joins. */
  lemma StrandsIff(n: nat, platform: Platform)
    ensures (exists run :: StrandsForEver(Init(n, platform), run)) <==>
            (n > 0 && platform.strays) || (n >= 3 && !platform.detectsCycles)
  {
    var s := Init(n, platform);
    if n > 0 && platform.strays {
      var run := StrayRun(n, platform);
    } else if n >= 3 && !platform.detectsCycles {
      var run := DeadlockRun(n, platform);
    } else {
      InitInv(n, platform);
      forall run | ValidRun(s, run) && Initiated(After(s, run))
        ensures !StrandsForEver(s, run)
      {
        RunKeepsInv(s, run);
        var more := ShutdownCompletes(After(s, run));
      }
    }
  }

  // ---- The controller ----------------------------------------------------------

  /** torque_block() and torque_stop() are documented to return once all threads
      have terminated. Their join fails, and they return at once, exactly when
      thread 0 already waits for, or has already reaped, the newest thread. */
  lemma AwaitFailsIff(s: State)
    requires Inv(s) && Enabled(s, Await) && |s.stage| > 0
    ensures Apply(s, Await).control == Done(false) <==> s.stage[0].Joining? || JoinedOk(s.stage[0])
  {
    assert Link(s, 0);
    if |s.stage| == 1 {
      DeadlockMeansAllOthersWait(s, 0);
      assert NotAllJoining(s);
      assert !s.stage[0].Joining?;
    }
  }

  /** So torque_block() returns with threads left, against the documentation, if and only if
      at the call thread 0 waits for or has reaped the newest thread and some thread has
      not exited. */
  lemma EarlyReturnIff(s: State)
    requires Inv(s) && Enabled(s, Await) && |s.stage| > 0
    ensures var r := Apply(s, Await);
            r.control.Done? && !AllGone(r) <==> (s.stage[0].Joining? || JoinedOk(s.stage[0])) && !AllGone(s)
  {
    AwaitFailsIff(s);
    StepKeepsInv(s, Await);
  }

  /** A join that blocked never returns early. */
  lemma ReleaseIsNeverEarly(s: State)
    requires Inv(s) && Enabled(s, Release)
    ensures Apply(s, Release).control == Done(true) && AllGone(Apply(s, Release))
  {
    StepKeepsInv(s, Release);
  }

  /** Once its join has not failed, the controller stays in it until every thread
      has exited, whatever happens next. */
  lemma {:induction false} ControllerWaitsForAll(s: State, run: seq<Step>)
    requires Inv(s) && s.control.Blocked? && ValidRun(s, run)
    ensures var c := After(s, run).control; c.Blocked? || (c == Done(true) && AllGone(After(s, run)))
    decreases |run|
  {
    RunKeepsInv(s, run);
    if run != [] {
      StepKeepsInv(s, run[0]);
      var s1 := Apply(s, run[0]);
      if s1.control.Blocked? {
        ControllerWaitsForAll(s1, run[1..]);
      } else {
        DoneIsFinal(s1, run[1..]);
      }
    }
  }

  lemma {:induction false} DoneIsFinal(s: State, run: seq<Step>)
    requires Shaped(s) && s.control.Done? && ValidRun(s, run)
    ensures After(s, run).control == s.control
    decreases |run|
  {
    if run != [] {
      DoneIsFinal(Apply(s, run[0]), run[1..]);
    }
  }

  /** The run, with this step after it, makes torque_block() or torque_stop() return while
      some thread is still there. */
  predicate ReturnsEarly(s: State, run: seq<Step>, e: Step)
    requires Shaped(s)
  {
    && ValidRun(s, run) && Enabled(After(s, run), e) && !After(s, run).control.Done?
    && var r := Apply(After(s, run), e); r.control.Done? && !AllGone(r)
  }

  /** A signal handled before torque_block() is called: thread 0 blocks on the newest thread,
      which still runs, and the controller's join fails. */
  lemma BlockCanReturnEarly(n: nat, platform: Platform) returns (run: seq<Step>)
    requires n >= 2
    ensures ReturnsEarly(Init(n, platform), run, Await)
    ensures After(Init(n, platform), run).stage[n - 1].Running?
  {
    var s := Init(n, platform);
    var s1 := Apply(s, KillThread(0));
    var s2 := Apply(s1, Deliver(0));
    var s3 := Apply(s2, Send(0));
    DeadlockMeansAllOthersWait(s3, 0);
    assert s3.stage[n - 1].Running?;
    assert JoinOutcome(s3, 0) == Blocks;
    run := Prepend(s3, Join(0), []);
    run := Prepend(s2, Send(0), run);
    run := Prepend(s1, Deliver(0), run);
    run := Prepend(s, KillThread(0), run);
    var s4 := After(s, run);
    assert s4 == Apply(s3, Join(0));
    assert !Gone(s4.stage[n - 1]);
  }

  lemma SingleNeverEarly(n: nat, platform: Platform, run: seq<Step>, e: Step)
    requires n <= 1
    ensures !ReturnsEarly(Init(n, platform), run, e)
  {
    var s := Init(n, platform);
    if ValidRun(s, run) && Enabled(After(s, run), e) {
      InitInv(n, platform);
      RunKeepsInv(s, run);
      var r := After(s, run);
      StepKeepsInv(r, e);
      if n == 1 {
        assert Link(r, 0) && NotAllJoining(r);
        if e.Await? {
          EarlyReturnIff(r);
        }
      }
    }
  }

  /** The documented promise of torque_block() is broken by some run if and only if there are
      two threads or more. */
  lemma EarlyReturnPossibleIff(n: nat, platform: Platform)
    ensures (exists run, e :: ReturnsEarly(Init(n, platform), run, e)) <==> n >= 2
  {
    if n >= 2 {
      var run := BlockCanReturnEarly(n, platform);
    } else {
      forall run, e
        ensures !ReturnsEarly(Init(n, platform), run, e)
      {
        SingleNeverEarly(n, platform, run, e);
      }
    }
  }

  // ---- From the call to the end --------------------------------------------------------

  /** A signal from anywhere, torque_stop() included, starts the shutdown. */
  lemma SignalInitiates(s: State, e: Step)
    requires Shaped(s) && Enabled(s, e) && (e.Stop? || e.KillProcess? || e.KillThread?)
    ensures Initiated(Apply(s, e))
  {
    if e.KillThread? {
      assert Apply(s, e).pending[e.i];
    }
  }

  lemma NewestStillThere(s: State)
    requires Inv(s) && s.control.Blocked? && |s.stage| > 0 && AllGone(s)
    ensures Enabled(s, Release)
  {
    assert Link(s, 0);
  }

  /** Once the controller waits and a shutdown has started, the threads end it and the
      controller's join returns. */
  lemma WaitEnds(s: State) returns (run: seq<Step>)
    requires Inv(s) && Initiated(s) && NoneAstray(s) && s.control.Blocked? && |s.stage| > 0
    ensures ThreadsOnly(run) && ValidRun(s, run + [Release])
    ensures var r := After(s, run + [Release]); r.control == Done(true) && AllGone(r)
  {
    run := ShutdownCompletes(s);
    RunKeepsInv(s, run);
    NewestStillThere(After(s, run));
    Append(s, run, Release);
    ReleaseIsNeverEarly(After(s, run));
  }

  /** A join made before anybody has taken a signal blocks. */
  lemma EarlyJoinBlocks(s: State)
    requires Inv(s) && |s.stage| > 0 && NobodySignalled(s) && NoneAstray(s) && Enabled(s, Await)
    ensures Apply(s, Await).control.Blocked? && NoneAstray(Apply(s, Await))
  {
    assert s.stage[|s.stage| - 1].Running? && s.stage[0].Running?;
  }

  /** torque_stop() on its own: for every number of threads some run of its two calls, thread
      steps and the return of its join ends with all threads gone and a successful join. No
      other signal is needed. */
  lemma StopEnds(n: nat, platform: Platform) returns (run: seq<Step>, rest: seq<Step>)
    requires n > 0
    ensures run == [Stop, Await] + rest + [Release] && ThreadsOnly(rest)
    ensures ValidRun(Init(n, platform), run)
    ensures var r := After(Init(n, platform), run); r.control == Done(true) && AllGone(r)
  {
    var s := Init(n, platform);
    InitInv(n, platform);
    StepKeepsInv(s, Stop);
    var s1 := Apply(s, Stop);
    SignalInitiates(s, Stop);
    StepKeepsInv(s1, Await);
    EarlyJoinBlocks(s1);
    var s2 := Apply(s1, Await);
    assert Initiated(s2);
    rest := WaitEnds(s2);
    run := Prepend(s1, Await, rest + [Release]);
    run := Prepend(s, Stop, run);
    assert run == [Stop, Await] + rest + [Release];
  }

  /** torque_block(), and then one signal to any thread. */
  lemma BlockEnds(n: nat, platform: Platform, i: nat) returns (run: seq<Step>, rest: seq<Step>)
    requires i < n
    ensures run == [Await, KillThread(i)] + rest + [Release] && ThreadsOnly(rest)
    ensures ValidRun(Init(n, platform), run)
    ensures var r := After(Init(n, platform), run); r.control == Done(true) && AllGone(r)
  {
    var s := Init(n, platform);
    InitInv(n, platform);
    StepKeepsInv(s, Await);
    EarlyJoinBlocks(s);
    var s1 := Apply(s, Await);
    StepKeepsInv(s1, KillThread(i));
    SignalInitiates(s1, KillThread(i));
    var s2 := Apply(s1, KillThread(i));
    rest := WaitEnds(s2);
    run := Prepend(s1, KillThread(i), rest + [Release]);
    run := Prepend(s, Await, run);
    assert run == [Await, KillThread(i)] + rest + [Release];
  }

  // ---- Signals are not made up -----------------------------------------------------------

  predicate SendsTo(n: nat, e: Step, i: nat) {
    (e.KillThread? && e.i == i) || (e.Send? && e.i < n && Next(e.i, n) == i)
  }

  /** Signals sent to thread `i`, and those it has taken of them. */
  function SentTo(n: nat, run: seq<Step>, i: nat): nat {
    if run == [] then 0 else (if SendsTo(n, run[0], i) then 1 else 0) + SentTo(n, run[1..], i)
  }

  function TakenBy(run: seq<Step>, i: nat): nat {
    if run == [] then 0 else (if run[0] == Deliver(i) then 1 else 0) + TakenBy(run[1..], i)
  }

  function SentToAll(run: seq<Step>): nat {
    if run == [] then 0 else (if run[0].Stop? || run[0].KillProcess? then 1 else 0) + SentToAll(run[1..])
  }

  function TakenByAny(run: seq<Step>): nat {
    if run == [] then 0 else (if run[0].DeliverShared? then 1 else 0) + TakenByAny(run[1..])
  }

  function One(b: bool): nat { if b then 1 else 0 }

  lemma SignalStep(s: State, e: Step, i: nat)
    requires Shaped(s) && Enabled(s, e) && i < |s.stage|
    ensures var r := Apply(s, e);
            && (e == Deliver(i) ==> s.pending[i])
            && r.pending[i] == (SendsTo(|s.stage|, e, i) || (s.pending[i] && e != Deliver(i)))
            && (e.DeliverShared? ==> s.process)
            && r.process == (e.Stop? || e.KillProcess? || (s.process && !e.DeliverShared?))
  {
  }

  /** A signal is taken once: a thread takes no more than were sent to it; one that was sent
      has been taken or waits. */
  lemma {:induction false} SignalsConserved(s: State, run: seq<Step>, i: nat)
    requires Shaped(s) && ValidRun(s, run) && i < |s.stage|
    ensures TakenBy(run, i) + One(After(s, run).pending[i]) <= SentTo(|s.stage|, run, i) + One(s.pending[i])
    ensures SentTo(|s.stage|, run, i) > 0 || s.pending[i] ==> After(s, run).pending[i] || TakenBy(run, i) > 0
    decreases |run|
  {
    if run != [] {
      SignalStep(s, run[0], i);
      SignalsConserved(Apply(s, run[0]), run[1..], i);
    }
  }

  /** The same of signals sent to the process, which any one thread takes. */
  lemma {:induction false} SharedSignalsConserved(s: State, run: seq<Step>)
    requires Shaped(s) && ValidRun(s, run) && |s.stage| > 0
    ensures TakenByAny(run) + One(After(s, run).process) <= SentToAll(run) + One(s.process)
    ensures SentToAll(run) > 0 || s.process ==> After(s, run).process || TakenByAny(run) > 0
    decreases |run|
  {
    if run != [] {
      SignalStep(s, run[0], 0);
      SharedSignalsConserved(Apply(s, run[0]), run[1..]);
    }
  }

  /** A ring join returns at once with success exactly when its target has exited, and blocks
      exactly when it has not and nothing forbids it. */
  lemma JoinOutcomes(s: State, i: nat)
    requires Inv(s) && Enabled(s, Join(i))
    ensures var next := Next(i, |s.stage|);
            var beaten := i == 0 && s.control.Blocked?;
            var r := Apply(s, Join(i)).stage[i];
            && (r == Leaving(true) <==> s.stage[next].Exited? && !beaten)
            && (r == Joining <==> !Gone(s.stage[next]) && !Deadlock(s, i) && !beaten)
  {
    assert Link(s, i);
    DeadlockMeansAllOthersWait(s, i);
    if Deadlock(s, i) && Next(i, |s.stage|) != i {
      assert s.stage[Next(i, |s.stage|)].Joining?;
    }
  }

  /** Without threads there is nothing to join, and the calls succeed. */
  lemma NoThreadsNoJoin(s: State)
    requires Shaped(s) && |s.stage| == 0 && Enabled(s, Await)
    ensures Apply(s, Await) == s.(control := Done(true))
  {
  }

  /** The controller's join returns at once with success exactly when the newest thread has
      exited and thread 0 is not the one waiting for it. */
  lemma AwaitSucceedsIff(s: State)
    requires Inv(s) && Enabled(s, Await) && |s.stage| > 0
    ensures Apply(s, Await).control == Done(true) <==>
            s.stage[|s.stage| - 1].Exited? && !s.stage[0].Joining?
    ensures Apply(s, Await).control == Blocked <==>
            !Gone(s.stage[|s.stage| - 1]) && !s.stage[0].Joining?
  {
    AwaitFailsIff(s);
  }

  // ---- The leader's handler --------------------------------------------------------

  /** Where only self-joins and mutual joins are noticed, a larger ring never makes the
      controller read a freed handler. */
  lemma {:induction false} NeverDangling(s: State, run: seq<Step>)
    requires Inv(s) && !s.dangling && !s.platform.detectsCycles && |s.stage| >= 3 && ValidRun(s, run)
    ensures !After(s, run).dangling
    decreases |run|
  {
    if run != [] {
      StepKeepsInv(s, run[0]);
      assert ReadsLeader(s, run[0]) ==> s.control.Idle? && NobodyPast(s);
      NeverDangling(Apply(s, run[0]), run[1..]);
    }
  }

  /** This call, made after the run, reads the handler after it was freed. */
  predicate ReadsDangling(s: State, run: seq<Step>, call: Step)
    requires Shaped(s)
  {
    && ValidRun(s, run) && Enabled(After(s, run), call) && !After(s, run).dangling
    && Apply(After(s, run), call).dangling
  }

  lemma {:induction false} Append(s: State, run: seq<Step>, e: Step)
    requires Shaped(s) && ValidRun(s, run) && Enabled(After(s, run), e)
    ensures ValidRun(s, run + [e]) && After(s, run + [e]) == Apply(After(s, run), e)
    decreases |run|
  {
    if run == [] {
      assert run + [e] == [e];
    } else {
      assert (run + [e])[0] == run[0] && (run + [e])[1..] == run[1..] + [e];
      Append(Apply(s, run[0]), run[1..], e);
    }
  }

  lemma {:induction false} NothingReadMeanwhile(s: State, run: seq<Step>)
    requires Shaped(s) && ValidRun(s, run) && ThreadsOnly(run)
    ensures After(s, run).dangling == s.dangling
    decreases |run|
  {
    if run != [] {
      NothingReadMeanwhile(Apply(s, run[0]), run[1..]);
    }
  }

  lemma DanglingRun(n: nat, platform: Platform, call: Step) returns (run: seq<Step>)
    requires n > 0 && (platform.detectsCycles || n <= 2) && (call.Stop? || call.Await?)
    ensures ReadsDangling(Init(n, platform), run, call)
  {
    var s := Init(n, platform);
    var s1 := Apply(s, KillThread(0));
    InitInv(n, platform);
    StepKeepsInv(s, KillThread(0));
    assert s1.pending[0];
    var rest := ShutdownCompletes(s1);
    NothingReadMeanwhile(s1, rest);
    run := Prepend(s, KillThread(0), rest);
    assert Freed(After(s, run).stage[0]);
  }

  /** The controller finds the newest thread through the leader's event handler, which the
      leader frees before it exits. Some run makes torque_block(), or torque_stop(), read the
      handler after that, if and only if there is a thread and a shutdown from outside can
      finish by itself. */
  lemma DanglingReadIff(n: nat, platform: Platform, call: Step)
    requires call.Stop? || call.Await?
    ensures (exists run :: ReadsDangling(Init(n, platform), run, call)) <==>
            n > 0 && (platform.detectsCycles || n <= 2)
  {
    var s := Init(n, platform);
    if n > 0 && (platform.detectsCycles || n <= 2) {
      var run := DanglingRun(n, platform, call);
    } else {
      forall run | ValidRun(s, run) && Enabled(After(s, run), call)
        ensures !ReadsDangling(s, run, call)
      {
        Append(s, run, call);
        if n == 0 {
          NoThreadsNothingRead(s, run + [call]);
        } else {
          InitInv(n, platform);
          NeverDangling(s, run + [call]);
        }
      }
    }
  }

  lemma {:induction false} NoThreadsNothingRead(s: State, run: seq<Step>)
    requires Shaped(s) && s.stage == [] && ValidRun(s, run)
    ensures After(s, run).dangling == s.dangling
    decreases |run|
  {
    if run != [] {
      NoThreadsNothingRead(Apply(s, run[0]), run[1..]);
    }
  }

  /** From the moment the leader frees its handler a call reads freed memory, even before the
      leader exits. */
  lemma ClearedIsFreed(s: State, call: Step)
    requires Shaped(s) && Enabled(s, Clear(0)) && s.control.Idle? && (call.Stop? || call.Await?)
    ensures Enabled(Apply(s, Clear(0)), call) && Apply(Apply(s, Clear(0)), call).dangling
  {
  }

  /** And not before. */
  lemma {:induction false} OnlyAfterClear(s: State, run: seq<Step>)
    requires Shaped(s) && ValidRun(s, run) && Clear(0) !in run
    requires |s.stage| > 0 ==> !s.stage[0].Cleared? && !Gone(s.stage[0])
    ensures After(s, run).dangling == s.dangling
    decreases |run|
  {
    if run != [] {
      var r := Apply(s, run[0]);
      if |s.stage| > 0 {
        StageFrame(s, run[0], 0);
      }
      assert !ReadsFreed(s, run[0]);
      OnlyAfterClear(r, run[1..]);
    }
  }

  predicate NoneDelivered(run: seq<Step>) {
    forall k :: 0 <= k < |run| ==> !run[k].Deliver? && !run[k].DeliverShared?
  }

  predicate NobodySignalled(s: State) {
    forall i :: 0 <= i < |s.stage| ==> s.stage[i].Running? || s.stage[i].Astray?
  }

  /** Until a signal is taken nobody leaves the event loop. */
  lemma {:induction false} NobodyLeaves(s: State, run: seq<Step>)
    requires Shaped(s) && NobodySignalled(s) && ValidRun(s, run) && NoneDelivered(run)
    ensures NobodySignalled(After(s, run)) && After(s, run).dangling == s.dangling
    decreases |run|
  {
    if run != [] {
      var r := Apply(s, run[0]);
      forall i | 0 <= i < |s.stage| ensures r.stage[i].Running? || r.stage[i].Astray? { StageFrame(s, run[0], i); }
      assert !ReadsFreed(s, run[0]);
      NobodyLeaves(r, run[1..]);
    }
  }

  /** The handler is looked up once. */
  lemma {:induction false} ReadOnce(s: State, run: seq<Step>)
    requires Shaped(s) && !s.control.Idle? && ValidRun(s, run)
    ensures After(s, run).dangling == s.dangling
    decreases |run|
  {
    if run != [] {
      ReadOnce(Apply(s, run[0]), run[1..]);
    }
  }

  /** Called before any thread has taken a signal, torque_block() and torque_stop() read a live
      handler, whatever came before and comes after. */
  lemma CallBeforeSignalIsSafe(n: nat, platform: Platform, before: seq<Step>, e: Step, after: seq<Step>)
    requires ValidRun(Init(n, platform), before) && NoneDelivered(before)
    requires var s := After(Init(n, platform), before); ReadsLeader(s, e) && Enabled(s, e) && ValidRun(Apply(s, e), after)
    ensures !After(Apply(After(Init(n, platform), before), e), after).dangling
  {
    var s := After(Init(n, platform), before);
    NobodyLeaves(Init(n, platform), before);
    assert !ReadsFreed(s, e);
    ReadOnce(Apply(s, e), after);
  }
}
