/** What calls of spawn_thread() report, and that they come to an end (schedule.c). */
module SpawnCalls {
  import opened Common
  import opened SpawnRing

  // ---- What a call reports -----------------------------------------------------------------

  /** How a child's set-up went, as far as its stage tells. */
  function Fate(c: Child): Option<bool> {
    match c
    case Starting => None
    case WantLock => Some(true)
    case Holding => Some(true)
    case HalfLinked => Some(true)
    case Linked => Some(true)
    case Serving => Some(true)
    case _ => Some(false)
  }

  predicate Began(run: seq<Step>, c: Tid, ok: bool) { Begin(c, ok) in run }

  lemma FateStep(s: State, e: Step, c: Tid)
    requires Shaped(s) && Enabled(s, e) && c < |s.children|
    ensures c < |Apply(s, e).children|
    ensures Fate(Apply(s, e).children[c]) ==
            if e.Begin? && e.c == c then Some(e.ok) else Fate(s.children[c])
  {
  }

  lemma NewChild(s: State, e: Step)
    requires Shaped(s) && Enabled(s, e)
    ensures |Apply(s, e).children| == |s.children| + if e.Create? then 1 else 0
    ensures e.Create? ==> Apply(s, e).children[|s.children|].Starting?
  {
  }

  /** A child's fate is sealed by its own set-up and by nothing else. */
  lemma {:induction false} FateDecided(s: State, run: seq<Step>, c: Tid, ok: bool)
    requires Shaped(s) && ValidRun(s, run) && c < |After(s, run).children|
    ensures Fate(After(s, run).children[c]) == Some(ok) <==>
            (c < |s.children| && Fate(s.children[c]) == Some(ok)) || Began(run, c, ok)
    decreases |run|
  {
    if run != [] {
      var e, rest := run[0], run[1..];
      var r := Apply(s, e);
      assert run == [e] + rest;
      FateDecided(r, rest, c, ok);
      NewChild(s, e);
      if c < |s.children| {
        FateStep(s, e, c);
        if Fate(s.children[c]).Some? {
          BeginsOnce(r, rest, c);
        } else if e == Begin(c, !ok) {
          BeginsOnce(r, rest, c);
        }
      }
    }
  }

  /** Nobody sets itself up twice. */
  lemma {:induction false} BeginsOnce(s: State, run: seq<Step>, c: Tid)
    requires Shaped(s) && ValidRun(s, run) && c < |s.children| && Fate(s.children[c]).Some?
    ensures !Began(run, c, true) && !Began(run, c, false)
    decreases |run|
  {
    if run != [] {
      assert run == [run[0]] + run[1..];
      FateStep(s, run[0], c);
      BeginsOnce(Apply(s, run[0]), run[1..], c);
    }
  }

  /** Over all runs: a completed call has reported success exactly when its child set itself
      up, and failure exactly when it did not. */
  lemma ReturnedIff(run: seq<Step>, c: Tid)
    requires ValidRun(INIT, run) && c < |After(INIT, run).returned|
    ensures After(INIT, run).returned[c] <==> Began(run, c, true)
    ensures !After(INIT, run).returned[c] <==> Began(run, c, false)
  {
    RunKeepsInv(INIT, run);
    var s := After(INIT, run);
    assert Settled(s, c);
    FateDecided(INIT, run, c, true);
    FateDecided(INIT, run, c, false);
  }

  // ---- Calls come to an end ------------------------------------------------------------------

  lemma {:induction false} RunsCompose(s: State, first: seq<Step>, second: seq<Step>)
    requires Shaped(s) && ValidRun(s, first) && ValidRun(After(s, first), second)
    ensures ValidRun(s, first + second) && After(s, first + second) == After(After(s, first), second)
    decreases |first|
  {
    if first == [] {
      assert first + second == second;
    } else {
      assert (first + second)[0] == first[0] && (first + second)[1..] == first[1..] + second;
      RunsCompose(Apply(s, first[0]), first[1..], second);
    }
  }

  function ChildRank(c: Child): nat {
    match c
    case Starting => 6
    case WantLock => 5
    case Holding => 4
    case HalfLinked => 3
    case Linked => 2
    case FailWant => 5
    case FailHolding => 4
    case FailMarked => 3
    case FailOut => 2
    case _ => 0
  }

  function ParentRank(p: Parent): nat {
    match p
    case Locking => 5
    case Waiting => 5
    case Checking => 4
    case Finishing(_) => 3
    case Reaping => 2
    case Calling => 0
  }

  /** The next thing to happen in the call in progress: the child goes first, unless the
      parent has the lock. */
  function NextStep(s: State, ok: bool): Step
    requires Shaped(s) && !s.parent.Calling?
  {
    var c := Current(s);
    match s.children[c]
    case Starting => Begin(c, ok)
    case WantLock => if s.parent.Checking? then Test else ChildLock(c)
    case FailWant => if s.parent.Checking? then Test else ChildLock(c)
    case Holding => LinkFirst(c)
    case HalfLinked => LinkSecond(c)
    case Linked => Unlock(c)
    case FailHolding => Mark(c)
    case FailMarked => Unlock(c)
    case FailOut => Return(c)
    case _ =>
      match s.parent
      case Locking => Lock
      case Waiting => Lock
      case Checking => Test
      case Finishing(_) => Destroy
      case _ => Gather
  }

  /** What is left of the call in progress. */
  function Left(s: State): nat
    requires Shaped(s)
  {
    if s.parent.Calling? then 0
    else
      var rank := ChildRank(s.children[Current(s)]);
      if rank > 0 then 10 * rank + (if s.parent.Checking? then 1 else 0) else ParentRank(s.parent)
  }

  lemma NextStepEnabled(s: State, ok: bool)
    requires Inv(s) && !s.parent.Calling?
    ensures Enabled(s, NextStep(s, ok)) && !NextStep(s, ok).Create?
  {
    assert InProgress(s.parent, s.guards[Current(s)], s.children[Current(s)]);
  }

  lemma NextStepAdvances(s: State, ok: bool)
    requires Inv(s) && !s.parent.Calling? && Enabled(s, NextStep(s, ok))
    ensures var r := Apply(s, NextStep(s, ok)); |r.children| == |s.children| && Left(r) < Left(s)
    ensures var r := Apply(s, NextStep(s, ok));
            && Fate(r.children[Current(s)]) == Some(FateOf(s, ok))
            && r.returned == if r.parent.Calling? then s.returned + [FateOf(s, ok)] else s.returned
  {
    var c := Current(s);
    assert InProgress(s.parent, s.guards[c], s.children[c]);
    FateStep(s, NextStep(s, ok), c);
    if ChildRank(s.children[c]) > 0 {
      ChildAdvances(s, ok);
    } else {
      ParentAdvances(s, ok);
    }
  }

  /** How the set-up of the child of the call in progress went, or will. */
  function FateOf(s: State, ok: bool): bool
    requires Shaped(s) && !s.parent.Calling?
  {
    var fate := Fate(s.children[Current(s)]);
    if fate.None? then ok else fate.value
  }

  lemma ChildAdvances(s: State, ok: bool)
    requires Shaped(s) && !s.parent.Calling? && Enabled(s, NextStep(s, ok)) && ChildRank(s.children[Current(s)]) > 0
    requires InProgress(s.parent, s.guards[Current(s)], s.children[Current(s)])
    ensures var r := Apply(s, NextStep(s, ok));
            |r.children| == |s.children| && Left(r) < Left(s) && !r.parent.Calling? && r.returned == s.returned
  {
    var c := Current(s);
    if NextStep(s, ok).Test? {
      assert s.guards[c].status.Unlaunched?;
    } else {
      ChildStepLowers(s, NextStep(s, ok));
    }
  }

  lemma ChildStepLowers(s: State, e: Step)
    requires Shaped(s) && !s.parent.Calling? && Enabled(s, e)
    requires !e.Create? && !e.Lock? && !e.Test? && !e.Destroy? && !e.Gather? && e.c == Current(s)
    ensures var r := Apply(s, e);
            && r.parent == s.parent && r.returned == s.returned && |r.children| == |s.children|
            && ChildRank(r.children[e.c]) < ChildRank(s.children[e.c])
  {
  }

  lemma ParentAdvances(s: State, ok: bool)
    requires Shaped(s) && !s.parent.Calling? && Enabled(s, NextStep(s, ok)) && ChildRank(s.children[Current(s)]) == 0
    requires InProgress(s.parent, s.guards[Current(s)], s.children[Current(s)])
    ensures var r := Apply(s, NextStep(s, ok));
            && |r.children| == |s.children| && Left(r) < Left(s)
            && r.returned == if r.parent.Calling? then s.returned + [FateOf(s, ok)] else s.returned
  {
  }

  /** The handshake never gets stuck: from every reachable state the call in progress can
      complete, and then reports how the child's set-up went. `ok` is how it goes if it is
      still to come. */
  lemma {:induction false} CallCompletes(s: State, ok: bool) returns (run: seq<Step>)
    requires Inv(s) && !s.parent.Calling?
    ensures ValidRun(s, run) && Inv(After(s, run)) && After(s, run).parent.Calling?
    ensures After(s, run).returned == s.returned + [FateOf(s, ok)]
    decreases Left(s)
  {
    var e := NextStep(s, ok);
    NextStepEnabled(s, ok);
    NextStepAdvances(s, ok);
    StepKeepsInv(s, e);
    var r := Apply(s, e);
    var rest := [];
    if !r.parent.Calling? {
      rest := CallCompletes(r, ok);
    }
    run := [e] + rest;
    assert run[1..] == rest;
  }

  lemma OneMoreCall(s: State, ok: bool) returns (run: seq<Step>)
    requires Inv(s) && s.parent.Calling?
    ensures ValidRun(s, run) && Inv(After(s, run)) && After(s, run).parent.Calling?
    ensures After(s, run).returned == s.returned + [ok]
  {
    StepKeepsInv(s, Create);
    var r := Apply(s, Create);
    assert r.children[Current(r)] == Starting;
    var rest := CallCompletes(r, ok);
    run := [Create] + rest;
    assert run[1..] == rest;
  }

  /** A state in which these outcomes have been reported and no call is in progress. */
  ghost predicate Reached(s: State, outcomes: seq<bool>) {
    Inv(s) && s.parent.Calling? && s.returned == outcomes
  }

  lemma ReachOneMore(s: State, run: seq<Step>, outcomes: seq<bool>, ok: bool) returns (longer: seq<Step>)
    requires Shaped(s) && ValidRun(s, run) && Reached(After(s, run), outcomes)
    ensures ValidRun(s, longer) && Reached(After(s, longer), outcomes + [ok])
  {
    var more := OneMoreCall(After(s, run), ok);
    RunsCompose(s, run, more);
    longer := run + more;
  }

  lemma {:induction false} ReachAll(s: State, outcomes: seq<bool>) returns (run: seq<Step>)
    requires Shaped(s) && Reached(s, [])
    ensures ValidRun(s, run) && Reached(After(s, run), outcomes)
    decreases |outcomes|
  {
    if outcomes == [] {
      run := [];
    } else {
      var front, last := outcomes[..|outcomes| - 1], outcomes[|outcomes| - 1];
      var shorter := ReachAll(s, front);
      run := ReachOneMore(s, shorter, front, last);
      assert front + [last] == outcomes;
    }
  }

  /** Any sequence of outcomes can come about; in particular, for every k, k successes. */
  lemma AnyOutcomes(outcomes: seq<bool>) returns (run: seq<Step>)
    ensures ValidRun(INIT, run) && After(INIT, run).parent.Calling? && After(INIT, run).returned == outcomes
  {
    RunKeepsInv(INIT, []);
    run := ReachAll(INIT, outcomes);
  }
}
