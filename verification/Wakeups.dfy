/** Which readers can miss their bytes, and which are never called again (events/thread.c,
    events/fd.c, events/sysdep.h, buffers.c). */
module Wakeups {
  import opened Common
  import opened OneShot

  // ---- Lost wakeups --------------------------------------------------------------------------

  /** A thread that will see, or is seeing, the descriptor's read event. */
  ghost predicate AttendedBy(s: State, fd: Fd, t: nat) {
    && t < |s.workers|
    && (|| (exists j :: 0 <= j < |s.workers[t].batch| && s.workers[t].batch[j].fd == fd && s.workers[t].batch[j].read)
        || (s.workers[t].active.Some? && s.workers[t].active.value.fd == fd))
  }

  ghost predicate LookedAfter(s: State, fd: Fd) {
    (fd in s.items && s.items[fd].mode.Queued?) || fd in s.held || exists t :: AttendedBy(s, fd, t)
  }

  /** An open, registered reader. */
  predicate Reader(s: State, fd: Fd) {
    fd in s.files && fd in s.items && fd in s.table && s.table[fd].rx
  }

  /** No lost wakeup: where nothing goes wrong, a reader with unread bytes that waits for
      reading is queued, attended by some thread, or in the hands of the callback that kept
      it, whatever handlers and keepers did before. */
  lemma NoLostWakeup(s: State, fd: Fd)
    requires Inv(s) && Calm(s.env) && Reader(s, fd) && s.items[fd].interest.ForRead? && s.files[fd].unread > 0
    ensures LookedAfter(s, fd)
  {
    assert NotLost(s, fd);
    var p :| At(s, fd, p);
    match p {
      case InBatch(t, j) =>
        assert EventOk(s, s.workers[t].batch[j]);
        assert AttendedBy(s, fd, t);
      case InHandler(t) => assert AttendedBy(s, fd, t);
      case _ =>
    }
  }

  /** A reader left waiting in the queue, in any program, has nothing to be woken for: no bytes
      and no end of file. */
  lemma WaitingMeansNothingToReport(s: State, fd: Fd)
    requires Inv(s) && Reader(s, fd) && s.items[fd].interest.ForRead? && s.items[fd].mode.Armed?
    ensures s.files[fd].unread == 0 && !s.files[fd].hup
  {
  }

  /** The conduct of buffered_rxfxn(): a reader is re-armed for writing only once its end
      of file has been read. */
  predicate Buffered(s: State, e: Step)
    requires Enabled(s, e)
  {
    match e
    case Rearm(t, interest) => interest.ForWrite? ==> AtEnd(s, s.workers[t].active.value.fd)
    case AppRearm(fd, interest) => interest.ForWrite? ==> AtEnd(s, fd)
    case _ => true
  }

  predicate AtEnd(s: State, fd: Fd) {
    fd in s.table && s.table[fd].rx ==> fd in s.files && s.files[fd].hup && s.files[fd].unread == 0
  }

  predicate BufferedRun(s: State, run: seq<Step>)
    requires ValidRun(s, run)
    decreases |run|
  {
    run == [] || (Buffered(s, run[0]) && BufferedRun(Apply(s, run[0]), run[1..]))
  }

  ghost predicate WritersAtEnd(s: State) {
    forall fd :: fd in s.items && s.items[fd].interest.ForWrite? ==> AtEnd(s, fd)
  }

  lemma WritersAtEndPreserved(s: State, e: Step, fd: Fd)
    requires Consistent(s) && WritersAtEnd(s) && Enabled(s, e) && Buffered(s, e)
    requires fd in Apply(s, e).items && Apply(s, e).items[fd].interest.ForWrite?
    ensures AtEnd(Apply(s, e), fd)
  {
    assert fd in Apply(s, e).table && (fd in s.items ==> Apply(s, e).table[fd] == s.table[fd]);
    if fd in s.files && s.files[fd].hup && fd in Apply(s, e).files {
      HangupLasts(s, e, fd);
    }
    if fd in s.items {
      assert s.items[fd].interest.ForWrite? ==> AtEnd(s, fd);
    }
  }

  lemma {:induction false} BufferedRunKeeps(s: State, run: seq<Step>)
    requires Inv(s) && WritersAtEnd(s) && ValidRun(s, run) && BufferedRun(s, run)
    ensures Inv(After(s, run)) && WritersAtEnd(After(s, run)) && After(s, run).env == s.env
    decreases |run|
  {
    if run != [] {
      var r := Apply(s, run[0]);
      StepKeepsInv(s, run[0]);
      forall fd | fd in r.items && r.items[fd].interest.ForWrite?
        ensures AtEnd(r, fd)
      {
        WritersAtEndPreserved(s, run[0], fd);
      }
      BufferedRunKeeps(r, run[1..]);
    }
  }

  /** A buffered run after which unread bytes of a reader will wake nobody. */
  ghost predicate Loses(s: State, run: seq<Step>, fd: Fd) {
    && ValidRun(s, run) && BufferedRun(s, run)
    && var r := After(s, run); Reader(r, fd) && r.files[fd].unread > 0 && !LookedAfter(r, fd)
  }

  lemma NothingLost(threads: nat, env: Environment, run: seq<Step>, fd: Fd)
    requires Calm(env) || threads == 0
    ensures !Loses(Init(threads, env), run, fd)
  {
    var s := Init(threads, env);
    if Loses(s, run, fd) {
      InitInv(threads, env);
      BufferedRunKeeps(s, run);
      var r := After(s, run);
      assert r.items[fd].interest.ForWrite? ==> AtEnd(r, fd);
      if threads == 0 {
        IdleQueueKeeps(s, run, fd);
      } else {
        NoLostWakeup(r, fd);
      }
    }
  }

  /** Without threads nothing is ever retrieved. */
  lemma {:induction false} IdleQueueKeeps(s: State, run: seq<Step>, fd: Fd)
    requires Inv(s) && ValidRun(s, run) && s.workers == []
    requires forall f :: f in s.items ==> f in s.held || !s.items[f].mode.Disabled?
    ensures var r := After(s, run); fd in r.items ==> fd in r.held || !r.items[fd].mode.Disabled?
    ensures Inv(After(s, run))
    decreases |run|
  {
    if run != [] {
      StepKeepsInv(s, run[0]);
      assert !ByThread(run[0]);
      IdleQueueKeeps(Apply(s, run[0]), run[1..], fd);
    }
  }

  lemma Prepend(s: State, e: Step, rest: seq<Step>) returns (run: seq<Step>)
    requires Enabled(s, e) && ValidRun(Apply(s, e), rest)
    ensures run == [e] + rest && ValidRun(s, run) && After(s, run) == After(Apply(s, e), rest)
    ensures Buffered(s, e) && BufferedRun(Apply(s, e), rest) ==> BufferedRun(s, run)
  {
    run := [e] + rest;
    assert run[1..] == rest;
  }

  /** A fresh descriptor, registered for reading and armed. */
  function Registered(s: State, fd: Fd): State
    requires fd !in s.files
  {
    s.(files := s.files[fd := File(0, false)], held := s.held - {fd}, prepared := s.prepared - {fd},
       table := s.table[fd := Source(true, false, s.registrations)], registrations := s.registrations + 1,
       items := s.items[fd := Item(ForRead, Armed, s.registrations)])
  }

  lemma Registering(s: State, fd: Fd, rest: seq<Step>) returns (run: seq<Step>)
    requires fd !in s.files && fd !in s.items && fd !in s.held && fd !in s.prepared
    requires ValidRun(Registered(s, fd), rest)
    ensures ValidRun(s, run) && After(s, run) == After(Registered(s, fd), rest)
    ensures BufferedRun(Registered(s, fd), rest) ==> BufferedRun(s, run)
  {
    var s1 := Apply(s, OpenFd(fd, 0));
    var s2 := Apply(s1, Setup(fd, true));
    var s3 := Apply(s2, Add(fd));
    assert s3 == Registered(s, fd);
    run := Prepend(s2, Add(fd), rest);
    run := Prepend(s1, Setup(fd, true), run);
    run := Prepend(s, OpenFd(fd, 0), run);
  }

  predicate Ready(s: State, t: nat) {
    Polling(s, t) && s.workers[t].health.Sound?
  }

  lemma OneDelivered(s: State, ev: Event)
    requires ev.fd in s.items
    ensures Delivered(s.items, [ev]) == SetMode(s, ev.fd, Disabled).items
  {
    assert [ev][0].fd == ev.fd;
  }

  /** An event that is neither a read nor a write event spends the one shot and calls
      nothing. */
  lemma SpendShot(s: State, fd: Fd, rest: seq<Step>) returns (run: seq<Step>)
    requires fd in s.items && Ready(s, 0) && Reportable(s, Event(fd, false, false, s.items[fd].reg))
    requires ValidRun(SetMode(s, fd, Disabled), rest)
    ensures ValidRun(s, run) && After(s, run) == After(SetMode(s, fd, Disabled), rest)
    ensures BufferedRun(SetMode(s, fd, Disabled), rest) ==> BufferedRun(s, run)
  {
    var events := [Event(fd, false, false, s.items[fd].reg)];
    assert Enabled(s, Retrieve(0, events));
    var s1 := Apply(s, Retrieve(0, events));
    OneDelivered(s, events[0]);
    assert Called(s1.table, events[0]) == None;
    var s2 := Apply(s1, Dispatch(0));
    assert s2.workers == s.workers;
    assert s2 == SetMode(s, fd, Disabled);
    run := Prepend(s1, Dispatch(0), rest);
    run := Prepend(s, Retrieve(0, events), run);
  }

  /** A thread whose errno is EINTR retrieves an event and waits again over it. */
  lemma Swallow(s: State, fd: Fd, rest: seq<Step>) returns (run: seq<Step>)
    requires fd in s.items && Polling(s, 0) && s.workers[0].health.Interrupted?
    requires Reportable(s, Event(fd, true, false, s.items[fd].reg))
    requires ValidRun(SetMode(s, fd, Disabled), rest)
    ensures ValidRun(s, run) && After(s, run) == After(SetMode(s, fd, Disabled), rest)
    ensures BufferedRun(SetMode(s, fd, Disabled), rest) ==> BufferedRun(s, run)
  {
    var events := [Event(fd, true, false, s.items[fd].reg)];
    assert Enabled(s, Retrieve(0, events));
    OneDelivered(s, events[0]);
    assert Apply(s, Retrieve(0, events)) == SetMode(s, fd, Disabled);
    run := Prepend(s, Retrieve(0, events), rest);
  }

  lemma IdleThreadsAttendNone(s: State, fd: Fd)
    requires forall t :: 0 <= t < |s.workers| ==> s.workers[t].batch == [] && s.workers[t].active.None?
    ensures forall t: nat :: !AttendedBy(s, fd, t)
  {
  }

  /** So after an error reported by itself nobody re-arms the descriptor, and what arrives
      later wakes nobody. */
  lemma ErrorLosesWakeup(threads: nat, env: Environment) returns (run: seq<Step>)
    requires threads > 0 && env.errors
    ensures Loses(Init(threads, env), run, 0)
  {
    var s := Init(threads, env);
    var s0 := Registered(s, 0);
    var s1 := Apply(s0, Stir(0));
    var s2 := SetMode(s1, 0, Disabled);
    run := Prepend(s2, Arrive(0, 1), []);
    run := SpendShot(s1, 0, run);
    run := Prepend(s0, Stir(0), run);
    run := Registering(s, 0, run);
    assert After(s, run) == Apply(s2, Arrive(0, 1));
    IdleThreadsAttendNone(After(s, run), 0);
  }

  /** One interrupted epoll_wait() is enough: the next event the thread retrieves is lost. */
  lemma InterruptLosesWakeup(threads: nat, env: Environment) returns (run: seq<Step>)
    requires threads > 0 && env.interrupts
    ensures Loses(Init(threads, env), run, 0)
  {
    var s := Init(threads, env);
    var s0 := Registered(s, 0);
    var s1 := Apply(s0, Interrupt(0));
    var s2 := Apply(s1, Arrive(0, 1));
    run := Swallow(s2, 0, []);
    run := Prepend(s1, Arrive(0, 1), run);
    run := Prepend(s0, Interrupt(0), run);
    run := Registering(s, 0, run);
    assert After(s, run) == SetMode(s2, 0, Disabled);
    IdleThreadsAttendNone(After(s, run), 0);
  }

  /** A thread that is told to terminate leaves the rest of its batch behind. */
  lemma StopLosesWakeup(threads: nat, env: Environment) returns (run: seq<Step>)
    requires threads > 0 && env.stops
    ensures Loses(Init(threads, env), run, 0)
  {
    var s := Init(threads, env);
    var s0 := Registered(s, 0);
    var s1 := Apply(s0, Arrive(0, 1));
    var events := [Event(0, true, false, 0)];
    OneDelivered(s1, events[0]);
    var s2 := Apply(s1, Retrieve(0, events));
    run := Prepend(s2, Quit(0), []);
    run := Prepend(s1, Retrieve(0, events), run);
    run := Prepend(s0, Arrive(0, 1), run);
    run := Registering(s, 0, run);
    assert After(s, run) == Apply(s2, Quit(0));
    IdleThreadsAttendNone(After(s, run), 0);
  }

  /** Over all runs in which a reader is re-armed for writing only at its end of file: some
      reader loses a wakeup if and only if there is a thread, and errors can be reported by
      themselves, calls can be interrupted, or threads can be told to terminate. */
  lemma LostWakeupIff(threads: nat, env: Environment)
    ensures (exists run, fd :: Loses(Init(threads, env), run, fd)) <==>
            threads > 0 && (env.errors || env.interrupts || env.stops)
  {
    if threads > 0 && env.errors {
      var run := ErrorLosesWakeup(threads, env);
    } else if threads > 0 && env.interrupts {
      var run := InterruptLosesWakeup(threads, env);
    } else if threads > 0 && env.stops {
      var run := StopLosesWakeup(threads, env);
    } else {
      forall run, fd
        ensures !Loses(Init(threads, env), run, fd)
      {
        NothingLost(threads, env, run, fd);
      }
    }
  }

  // ---- Abandoned descriptors ----------------------------------------------------------------------

  /** Open and registered. */
  predicate Live(s: State, fd: Fd) {
    fd in s.files && fd in s.items && fd in s.table
  }

  /** Being watched for this can bring about an event that calls the registered callback. */
  predicate Suits(interest: Interest, source: Source) {
    (source.rx && interest != ForWrite(false)) || (source.tx && interest.ForWrite?)
  }

  predicate NoHandler(s: State, fd: Fd) {
    forall t :: 0 <= t < |s.workers| ==> s.workers[t].active.None? || s.workers[t].active.value.fd != fd
  }

  predicate HasCallingEvent(s: State, batch: seq<Event>, fd: Fd) {
    exists j :: 0 <= j < |batch| && batch[j].fd == fd && Called(s.table, batch[j]).Some?
  }

  /** No event under way will call its callback. */
  predicate NoCallingEvent(s: State, fd: Fd) {
    forall t :: 0 <= t < |s.workers| ==> !HasCallingEvent(s, s.workers[t].batch, fd)
  }

  /** A descriptor that no event can bring back: its shot is spent, or it is watched for what
      its callback is not for, and no event that would call it is under way. */
  predicate Hopeless(s: State, fd: Fd) {
    && Live(s, fd) && fd !in s.held
    && (s.items[fd].mode.Disabled? || !Suits(s.items[fd].interest, s.table[fd]))
    && NoHandler(s, fd) && NoCallingEvent(s, fd)
  }

  /** Open, but in nobody's hands. */
  predicate Untouched(s: State, fd: Fd) {
    fd in s.files && fd !in s.held && NoHandler(s, fd)
  }

  /** No callback will ever run for it and nothing will ever close it. */
  ghost predicate Abandoned(s: State, fd: Fd) {
    forall run :: ValidRun(s, run) ==> Untouched(After(s, run), fd)
  }

  /** An event that is reported calls the callback only if the descriptor is watched for it. */
  lemma ReportedSuits(s: State, ev: Event)
    requires Consistent(s) && Reportable(s, ev) && Called(s.table, ev).Some?
    ensures Suits(s.items[ev.fd].interest, s.table[ev.fd])
  {
    assert s.table[ev.fd].rx != s.table[ev.fd].tx;
  }

  lemma CallingEventKept(s: State, e: Step, t: nat, fd: Fd)
    requires Inv(s) && Enabled(s, e) && t < |s.workers|
    ensures HasCallingEvent(Apply(s, e), s.workers[t].batch, fd) <==> HasCallingEvent(s, s.workers[t].batch, fd)
  {
    var batch := s.workers[t].batch;
    forall j | 0 <= j < |batch|
      ensures Called(Apply(s, e).table, batch[j]) == Called(s.table, batch[j])
    {
      BatchCallsKept(s, e, t, j);
    }
  }

  lemma BatchCallsKept(s: State, e: Step, t: nat, j: nat)
    requires Inv(s) && Enabled(s, e) && t < |s.workers| && j < |s.workers[t].batch|
    ensures Called(Apply(s, e).table, s.workers[t].batch[j]) == Called(s.table, s.workers[t].batch[j])
  {
    assert EventOk(s, s.workers[t].batch[j]);
  }

  lemma HopelessStays(s: State, e: Step, fd: Fd)
    requires Inv(s) && Enabled(s, e) && Hopeless(s, fd)
    ensures Hopeless(Apply(s, e), fd)
  {
    var r := Apply(s, e);
    forall t | 0 <= t < |s.workers|
      ensures !HasCallingEvent(r, r.workers[t].batch, fd)
    {
      CallingEventKept(s, e, t, fd);
      if ByThread(e) && e.t == t {
        OwnBatchHopeless(s, e, fd);
      } else {
        OthersKept(s, e, t);
      }
    }
    if ByThread(e) {
      ThreadLeavesHopeless(s, e, fd);
    } else {
      OutsideLeavesHopeless(s, e, fd);
    }
  }

  lemma OwnBatchHopeless(s: State, e: Step, fd: Fd)
    requires Inv(s) && Enabled(s, e) && Hopeless(s, fd) && ByThread(e)
    ensures !HasCallingEvent(Apply(s, e), Apply(s, e).workers[e.t].batch, fd)
  {
    var r := Apply(s, e);
    assert !HasCallingEvent(s, s.workers[e.t].batch, fd);
    assert r.table == s.table;
    forall j | 0 <= j < |r.workers[e.t].batch| && r.workers[e.t].batch[j].fd == fd
      ensures Called(r.table, r.workers[e.t].batch[j]).None?
    {
      var ev := r.workers[e.t].batch[j];
      if e.Retrieve? {
        assert s.workers[e.t].batch == [];
        assert Reportable(s, e.events[j]);
        if Called(s.table, ev).Some? {
          ReportedSuits(s, ev);
        }
      } else {
        BatchFrame(s, e, e.t, j);
      }
    }
  }

  lemma ThreadLeavesHopeless(s: State, e: Step, fd: Fd)
    requires Inv(s) && Enabled(s, e) && Hopeless(s, fd) && ByThread(e)
    ensures var r := Apply(s, e);
            && Live(r, fd) && fd !in r.held && r.table == s.table && NoHandler(r, fd)
            && r.items[fd].interest == s.items[fd].interest && (s.items[fd].mode.Disabled? ==> r.items[fd].mode.Disabled?)
  {
    assert !HasCallingEvent(s, s.workers[e.t].batch, fd);
  }

  lemma OutsideLeavesHopeless(s: State, e: Step, fd: Fd)
    requires Inv(s) && Enabled(s, e) && Hopeless(s, fd) && !ByThread(e)
    ensures var r := Apply(s, e);
            && Live(r, fd) && fd !in r.held && r.table[fd] == s.table[fd] && r.workers == s.workers
            && r.items[fd].interest == s.items[fd].interest && (s.items[fd].mode.Disabled? ==> r.items[fd].mode.Disabled?)
  {
  }

  lemma {:induction false} HopelessForEver(s: State, run: seq<Step>, fd: Fd)
    requires Inv(s) && ValidRun(s, run) && Hopeless(s, fd)
    ensures Hopeless(After(s, run), fd)
    decreases |run|
  {
    if run != [] {
      StepKeepsInv(s, run[0]);
      HopelessStays(s, run[0], fd);
      HopelessForEver(Apply(s, run[0]), run[1..], fd);
    }
  }

  lemma {:induction false} RunsCompose(s: State, first: seq<Step>, second: seq<Step>)
    requires ValidRun(s, first) && ValidRun(After(s, first), second)
    ensures ValidRun(s, first + second) && After(s, first + second) == After(After(s, first), second)
    decreases |first|
  {
    if first == [] {
      assert first + second == second;
    } else {
      assert (first + second)[0] == first[0] && (first + second)[1..] == first[1..] + second;
      RunsCompose(Apply(s, first[0]), first[1..], second);
    }
  }

  /** A thread can get rid of what it has: it hands what it handles to the application and
      goes on with its batch. */
  lemma {:induction false} EmptyHands(s: State, t: nat) returns (run: seq<Step>)
    requires Inv(s) && t < |s.workers| && !s.workers[t].health.Exited?
    ensures ValidRun(s, run) && Inv(After(s, run)) && Polling(After(s, run), t)
    ensures var r := After(s, run);
            && r.items == s.items && r.table == s.table && r.files == s.files && |r.workers| == |s.workers|
            && r.workers[t].health == s.workers[t].health
    decreases |s.workers[t].batch|, if s.workers[t].active.Some? then 1 else 0
  {
    assert HealthOk(s, s.workers[t]);
    if Polling(s, t) {
      run := [];
    } else {
      var e := if s.workers[t].active.Some? then Disown(t) else Dispatch(t);
      assert Enabled(s, e);
      StepKeepsInv(s, e);
      var rest := EmptyHands(Apply(s, e), t);
      run := Prepend(s, e, rest);
    }
  }

  /** An event in a batch that calls its callback comes to be handled. */
  lemma {:induction false} EventHandled(s: State, t: nat, j: nat) returns (run: seq<Step>)
    requires Inv(s) && t < |s.workers| && j < |s.workers[t].batch| && Called(s.table, s.workers[t].batch[j]).Some?
    ensures ValidRun(s, run) && !NoHandler(After(s, run), s.workers[t].batch[j].fd)
    decreases |s.workers[t].batch|, if s.workers[t].active.Some? then 1 else 0
  {
    var w, fd := s.workers[t], s.workers[t].batch[j].fd;
    if w.active.Some? && w.active.value.fd == fd {
      run := [];
      assert !NoHandler(s, fd);
    } else {
      var e := if w.active.Some? then Disown(t) else Dispatch(t);
      assert Enabled(s, e);
      StepKeepsInv(s, e);
      var r := Apply(s, e);
      var rest := [];
      if w.active.None? && j == |w.batch| - 1 {
        assert r.workers[t].active.value.fd == fd;
      } else {
        rest := EventHandled(r, t, j);
      }
      run := Prepend(s, e, rest);
    }
  }

  /** The event that calls the callback registered for this descriptor. */
  function CallingEvent(s: State, fd: Fd): Event
    requires Live(s, fd)
  {
    Event(fd, s.table[fd].rx, !s.table[fd].rx, s.items[fd].reg)
  }

  /** The thread about to run the callback of a queued descriptor. */
  function Calling(s: State, t: nat, fd: Fd): State
    requires Live(s, fd) && t < |s.workers|
  {
    SetWorker(SetMode(s, fd, Disabled), t, Worker([], Some(Handler(fd, s.table[fd].reg)), Sound))
  }

  lemma CallingEventReportable(s: State, fd: Fd)
    requires Live(s, fd) && s.items[fd].mode.Queued? && Suits(s.items[fd].interest, s.table[fd])
    requires s.table[fd].rx != s.table[fd].tx
    ensures Reportable(s, CallingEvent(s, fd))
    ensures Called(s.table, CallingEvent(s, fd)) == Some(Handler(fd, s.table[fd].reg))
  {
  }

  lemma QueuedHandled(s: State, t: nat, fd: Fd, rest: seq<Step>) returns (run: seq<Step>)
    requires Ready(s, t) && Live(s, fd) && s.items[fd].mode.Queued? && Suits(s.items[fd].interest, s.table[fd])
    requires s.table[fd].rx != s.table[fd].tx
    requires ValidRun(Calling(s, t, fd), rest)
    ensures ValidRun(s, run) && After(s, run) == After(Calling(s, t, fd), rest)
    ensures BufferedRun(Calling(s, t, fd), rest) ==> BufferedRun(s, run)
  {
    var events := [CallingEvent(s, fd)];
    CallingEventReportable(s, fd);
    assert Enabled(s, Retrieve(t, events));
    var s1 := Apply(s, Retrieve(t, events));
    OneDelivered(s, events[0]);
    assert Apply(s1, Dispatch(t)) == Calling(s, t, fd);
    run := Prepend(s1, Dispatch(t), rest);
    run := Prepend(s, Retrieve(t, events), run);
  }

  // ---- Threads that are lost ------------------------------------------------------------------

  predicate CallsNothing(s: State, batch: seq<Event>) {
    forall j :: 0 <= j < |batch| ==> Called(s.table, batch[j]).None?
  }

  /** A thread that never handles anything again: it has exited, or its errno is EINTR and no
      callback is left to change that, so that it will wait over whatever it retrieves. */
  predicate Doomed(s: State, t: nat)
    requires t < |s.workers|
  {
    var w := s.workers[t];
    !w.health.Sound? && w.active.None? && CallsNothing(s, w.batch)
  }

  lemma CallsNothingKept(s: State, e: Step, t: nat)
    requires Inv(s) && Enabled(s, e) && t < |s.workers|
    ensures CallsNothing(Apply(s, e), s.workers[t].batch) <==> CallsNothing(s, s.workers[t].batch)
  {
    forall j | 0 <= j < |s.workers[t].batch|
      ensures Called(Apply(s, e).table, s.workers[t].batch[j]) == Called(s.table, s.workers[t].batch[j])
    {
      BatchCallsKept(s, e, t, j);
    }
  }

  lemma DoomedStays(s: State, e: Step, t: nat)
    requires Inv(s) && Enabled(s, e) && t < |s.workers| && Doomed(s, t)
    ensures Doomed(Apply(s, e), t)
  {
    CallsNothingKept(s, e, t);
    if ByThread(e) && e.t == t {
      DoomedThreadIdles(s, e);
    } else {
      OthersKept(s, e, t);
    }
  }

  /** What a doomed thread still does: pass over its events, retrieve and wait again, exit. */
  lemma DoomedThreadIdles(s: State, e: Step)
    requires Enabled(s, e) && ByThread(e) && Doomed(s, e.t)
    ensures Doomed(Apply(s, e), e.t) && Apply(s, e).workers[e.t].batch <= s.workers[e.t].batch
    ensures Apply(s, e).files == s.files && Apply(s, e).held == s.held
  {
  }

  /** The steps that doom a thread, all of them: its epoll_wait() is interrupted, it exits, or
      a callback ends with errno EINTR and the rest of the batch calls nothing. */
  predicate Dooms(s: State, e: Step, t: nat)
    requires Enabled(s, e) && t < |s.workers|
  {
    || (e == Interrupt(t) && s.workers[t].active.None?)
    || e == Quit(t)
    || ((e.Rearm? || e.Close? || e.Disown?) && e.t == t
        && s.workers[t].health.Interrupted? && CallsNothing(s, s.workers[t].batch))
  }

  lemma DoomsIff(s: State, e: Step, t: nat)
    requires Inv(s) && Enabled(s, e) && t < |s.workers| && !Doomed(s, t)
    ensures Doomed(Apply(s, e), t) <==> Dooms(s, e, t)
  {
    assert HealthOk(s, s.workers[t]);
    if ByThread(e) && e.t == t {
      OwnDoomsIff(s, e);
    } else {
      CallsNothingKept(s, e, t);
      OthersKept(s, e, t);
      OthersDoomNot(s, e, t);
    }
  }

  lemma OthersDoomNot(s: State, e: Step, t: nat)
    requires Enabled(s, e) && t < |s.workers| && (ByThread(e) ==> e.t != t)
    ensures !Dooms(s, e, t)
  {
  }

  lemma OwnDoomsIff(s: State, e: Step)
    requires Inv(s) && Enabled(s, e) && ByThread(e) && !Doomed(s, e.t) && HealthOk(s, s.workers[e.t])
    ensures Doomed(Apply(s, e), e.t) <==> Dooms(s, e, e.t)
  {
    var r, w := Apply(s, e), s.workers[e.t];
    assert r.table == s.table;
    if e.Dispatch? && CallsNothing(s, w.batch[..|w.batch| - 1]) && Called(s.table, w.batch[|w.batch| - 1]).None? {
      assert CallsNothing(s, w.batch);
    }
  }

  /** A thread that is not doomed can get rid of EINTR: it reaches a callback that meets
      another error. */
  lemma {:induction false} ClearErrno(s: State, t: nat) returns (run: seq<Step>)
    requires Inv(s) && t < |s.workers| && !Doomed(s, t)
    ensures ValidRun(s, run) && Inv(After(s, run))
    ensures var r := After(s, run);
            && r.items == s.items && r.table == s.table && r.files == s.files && |r.workers| == |s.workers|
            && r.workers[t].health.Sound?
    decreases |s.workers[t].batch|
  {
    var w := s.workers[t];
    assert HealthOk(s, w);
    if w.health.Sound? {
      run := [];
    } else {
      var e := if w.active.Some? then ResetErrno(t) else Dispatch(t);
      assert Enabled(s, e);
      StepKeepsInv(s, e);
      var rest := [];
      if w.active.None? {
        DoomsIff(s, e, t);
        rest := ClearErrno(Apply(s, e), t);
      }
      run := Prepend(s, e, rest);
    }
  }

  /** A descriptor, for reading or for writing, that is armed for what its callback is for can
      be called back by any thread that is not doomed. */
  lemma ArmedHandled(s: State, t: nat, fd: Fd) returns (run: seq<Step>)
    requires Inv(s) && t < |s.workers| && !Doomed(s, t) && Live(s, fd)
    requires !s.items[fd].mode.Disabled? && Suits(s.items[fd].interest, s.table[fd])
    ensures ValidRun(s, run) && !NoHandler(After(s, run), fd)
  {
    var clear := ClearErrno(s, t);
    var empty := EmptyHands(After(s, clear), t);
    RunsCompose(s, clear, empty);
    var first := clear + empty;
    var s1 := After(s, first);
    var second: seq<Step> := [];
    if s1.items[fd].mode.Armed? {
      second := Prepend(s1, Stir(fd), []);
    }
    var third := QueuedHandled(After(s1, second), t, fd, []);
    RunsCompose(s1, second, third);
    RunsCompose(s, first, second + third);
    var called := Calling(After(s1, second), t, fd);
    assert called.workers[t].active.value.fd == fd;
    run := first + (second + third);
  }

  // ---- Exactly the abandoned ------------------------------------------------------------------

  /** In nobody's hands, no event under way that would call it, and nobody left to handle
      one. */
  predicate Stranded(s: State, fd: Fd) {
    Untouched(s, fd) && NoCallingEvent(s, fd) && forall t :: 0 <= t < |s.workers| ==> Doomed(s, t)
  }

  lemma StrandedStays(s: State, e: Step, fd: Fd)
    requires Inv(s) && Enabled(s, e) && Stranded(s, fd)
    ensures Stranded(Apply(s, e), fd)
  {
    var r := Apply(s, e);
    forall t | 0 <= t < |s.workers|
      ensures Doomed(r, t)
    {
      DoomedStays(s, e, t);
    }
    UntouchedStays(s, e, fd);
    forall t | 0 <= t < |r.workers|
      ensures !HasCallingEvent(r, r.workers[t].batch, fd)
    {
      assert Doomed(r, t);
    }
  }

  /** With every thread doomed nothing changes hands. */
  lemma UntouchedStays(s: State, e: Step, fd: Fd)
    requires Enabled(s, e) && Untouched(s, fd) && forall t :: 0 <= t < |s.workers| ==> Doomed(s, t)
    ensures fd in Apply(s, e).files && fd !in Apply(s, e).held && |Apply(s, e).workers| == |s.workers|
  {
    if ByThread(e) {
      DoomedThreadIdles(s, e);
    }
  }

  lemma {:induction false} StrandedForEver(s: State, run: seq<Step>, fd: Fd)
    requires Inv(s) && ValidRun(s, run) && Stranded(s, fd)
    ensures Stranded(After(s, run), fd)
    decreases |run|
  {
    if run != [] {
      StepKeepsInv(s, run[0]);
      StrandedStays(s, run[0], fd);
      StrandedForEver(Apply(s, run[0]), run[1..], fd);
    }
  }

  lemma OthersTouched(s: State, fd: Fd) returns (run: seq<Step>)
    requires Inv(s) && Live(s, fd) && !Hopeless(s, fd) && !Stranded(s, fd)
    ensures ValidRun(s, run) && !Untouched(After(s, run), fd)
  {
    run := [];
    if fd !in s.held && NoHandler(s, fd) {
      if !NoCallingEvent(s, fd) {
        var t: nat :| t < |s.workers| && HasCallingEvent(s, s.workers[t].batch, fd);
        var batch := s.workers[t].batch;
        var j :| 0 <= j < |batch| && batch[j].fd == fd && Called(s.table, batch[j]).Some?;
        run := EventHandled(s, t, j);
      } else {
        var t: nat :| t < |s.workers| && !Doomed(s, t);
        run := ArmedHandled(s, t, fd);
      }
    }
  }

  /** In every reachable state: a registered descriptor is abandoned, whatever happens from then
      on, if and only if it is hopeless or stranded. */
  lemma AbandonedIff(s: State, fd: Fd)
    requires Inv(s) && Live(s, fd)
    ensures Abandoned(s, fd) <==> Hopeless(s, fd) || Stranded(s, fd)
  {
    if Hopeless(s, fd) || Stranded(s, fd) {
      forall run | ValidRun(s, run)
        ensures Untouched(After(s, run), fd)
      {
        if Hopeless(s, fd) {
          HopelessForEver(s, run, fd);
        } else {
          StrandedForEver(s, run, fd);
        }
      }
    } else {
      var run := OthersTouched(s, fd);
    }
  }

  /** The step re-arms this descriptor for what its callback is not for, retrieves an event of
      it that calls nothing or that is waited over, or exits with an event left that would
      call it. */
  predicate GivesUpOn(s: State, e: Step, fd: Fd)
    requires Enabled(s, e)
  {
    || (e.Rearm? && s.workers[e.t].active.value.fd == fd && fd in s.table && !Suits(e.interest, s.table[fd]))
    || (e.AppRearm? && e.fd == fd && fd in s.table && !Suits(e.interest, s.table[fd]))
    || (e.Retrieve? && exists i :: 0 <= i < |e.events| && e.events[i].fd == fd
                         && (Called(s.table, e.events[i]).None? || s.workers[e.t].health.Interrupted?))
    || (e.Quit? && HasCallingEvent(s, s.workers[e.t].batch, fd))
  }

  /** The steps that make a descriptor hopeless, all of them: registering one does not. */
  lemma AbandonsIff(s: State, e: Step, fd: Fd)
    requires Inv(s) && Enabled(s, e) && !Hopeless(s, fd)
    ensures Hopeless(Apply(s, e), fd) <==> GivesUpOn(s, e, fd)
  {
    if ByThread(e) {
      ThreadAbandonsIff(s, e, fd);
    } else {
      OutsideAbandonsIff(s, e, fd);
    }
  }

  lemma OutsideAbandonsIff(s: State, e: Step, fd: Fd)
    requires Inv(s) && Enabled(s, e) && !Hopeless(s, fd) && !ByThread(e)
    ensures Hopeless(Apply(s, e), fd) <==> GivesUpOn(s, e, fd)
  {
    var r := Apply(s, e);
    assert r.workers == s.workers;
    forall t | 0 <= t < |s.workers|
      ensures HasCallingEvent(r, r.workers[t].batch, fd) <==> HasCallingEvent(s, s.workers[t].batch, fd)
    {
      CallingEventKept(s, e, t, fd);
    }
    assert NoCallingEvent(r, fd) <==> NoCallingEvent(s, fd);
    if e.AppRearm? && e.fd == fd {
      AloneWithApp(s, fd);
    } else {
      OutsideFrame(s, e, fd);
    }
  }

  /** A step of the outside other than re-arming it leaves a descriptor as it is watched, and
      registering one watches it for what its callback is for. */
  lemma OutsideFrame(s: State, e: Step, fd: Fd)
    requires Consistent(s) && Enabled(s, e) && !ByThread(e) && !(e.AppRearm? && e.fd == fd)
    ensures var r := Apply(s, e);
            && (fd in s.held && fd !in r.held && fd in r.files ==> e == Add(fd))
            && (fd in r.items && fd !in s.items ==> e == Add(fd))
            && (e == Add(fd) ==> fd in r.items && fd in r.table
                                   && !r.items[fd].mode.Disabled? && Suits(r.items[fd].interest, r.table[fd]))
            && (fd in r.items && fd in s.items ==>
                  && r.items[fd].interest == s.items[fd].interest && r.table[fd] == s.table[fd]
                  && r.items[fd].mode.Disabled? == s.items[fd].mode.Disabled?)
  {
  }

  lemma AloneWithApp(s: State, fd: Fd)
    requires Inv(s) && fd in s.held
    ensures NoHandler(s, fd) && NoCallingEvent(s, fd)
    ensures forall t, j :: 0 <= t < |s.workers| && 0 <= j < |s.workers[t].batch| ==> s.workers[t].batch[j].fd != fd
  {
    assert OnePlace(s, fd) && At(s, fd, WithApp);
    forall t | 0 <= t < |s.workers|
      ensures s.workers[t].active.None? || s.workers[t].active.value.fd != fd
    {
      assert !At(s, fd, InHandler(t));
    }
    forall t, j | 0 <= t < |s.workers| && 0 <= j < |s.workers[t].batch|
      ensures s.workers[t].batch[j].fd != fd
    {
      assert !At(s, fd, InBatch(t, j));
    }
  }

  lemma AloneInHandler(s: State, t: nat)
    requires Inv(s) && Handles(s, t)
    ensures var fd := s.workers[t].active.value.fd;
            && fd !in s.held && NoCallingEvent(s, fd)
            && (forall u :: 0 <= u < |s.workers| && u != t ==> s.workers[u].active.None? || s.workers[u].active.value.fd != fd)
  {
    var fd := s.workers[t].active.value.fd;
    assert OnePlace(s, fd) && At(s, fd, InHandler(t));
    assert !At(s, fd, WithApp);
    forall u | 0 <= u < |s.workers| && u != t
      ensures s.workers[u].active.None? || s.workers[u].active.value.fd != fd
    {
      assert !At(s, fd, InHandler(u));
    }
    forall u, j | 0 <= u < |s.workers| && 0 <= j < |s.workers[u].batch|
      ensures s.workers[u].batch[j].fd != fd
    {
      assert !At(s, fd, InBatch(u, j));
    }
  }

  lemma AloneInQueue(s: State, fd: Fd)
    requires Inv(s) && fd in s.items && !s.items[fd].mode.Disabled?
    ensures fd !in s.held && NoHandler(s, fd) && NoCallingEvent(s, fd)
  {
    assert OnePlace(s, fd) && At(s, fd, InKernel);
    assert !At(s, fd, WithApp);
    forall t | 0 <= t < |s.workers|
      ensures s.workers[t].active.None? || s.workers[t].active.value.fd != fd
    {
      assert !At(s, fd, InHandler(t));
    }
    forall t, j | 0 <= t < |s.workers| && 0 <= j < |s.workers[t].batch|
      ensures s.workers[t].batch[j].fd != fd
    {
      assert !At(s, fd, InBatch(t, j));
    }
  }

  /** For a step of one thread the other threads' events stay what they are. */
  lemma OtherBatches(s: State, e: Step, fd: Fd)
    requires Enabled(s, e) && ByThread(e)
    ensures var r := Apply(s, e);
            && r.table == s.table && |r.workers| == |s.workers|
            && forall u :: 0 <= u < |s.workers| && u != e.t ==> r.workers[u] == s.workers[u]
  {
    forall u | 0 <= u < |s.workers| && u != e.t ensures Apply(s, e).workers[u] == s.workers[u] { OthersKept(s, e, u); }
  }

  lemma RetrieveAbandonsIff(s: State, t: nat, events: seq<Event>, fd: Fd)
    requires Inv(s) && Enabled(s, Retrieve(t, events)) && !Hopeless(s, fd)
    ensures Hopeless(Apply(s, Retrieve(t, events)), fd) <==> GivesUpOn(s, Retrieve(t, events), fd)
  {
    var r := Apply(s, Retrieve(t, events));
    OtherBatches(s, Retrieve(t, events), fd);
    if i: nat :| i < |events| && events[i].fd == fd {
      RetrievedAbandonsIff(s, t, events, i);
      assert forall k :: 0 <= k < |events| && events[k].fd == fd ==> k == i;
    } else {
      assert fd in s.items ==> r.items[fd] == s.items[fd];
      assert !HasCallingEvent(s, s.workers[t].batch, fd);
      assert NoCallingEvent(r, fd) ==> NoCallingEvent(s, fd);
      assert NoHandler(r, fd) ==> NoHandler(s, fd);
    }
  }

  lemma RetrievedAbandonsIff(s: State, t: nat, events: seq<Event>, i: nat)
    requires Inv(s) && Enabled(s, Retrieve(t, events)) && i < |events|
    ensures Hopeless(Apply(s, Retrieve(t, events)), events[i].fd) <==>
            Called(s.table, events[i]).None? || s.workers[t].health.Interrupted?
  {
    var r, fd := Apply(s, Retrieve(t, events)), events[i].fd;
    assert Reportable(s, events[i]);
    AloneInQueue(s, fd);
    OtherBatches(s, Retrieve(t, events), fd);
    assert r.items[fd].mode.Disabled?;
    assert !HasCallingEvent(s, [], fd);
    if s.workers[t].health.Sound? {
      assert r.workers[t].batch == events;
      assert HasCallingEvent(r, events, fd) <==> Called(s.table, events[i]).Some? by {
        assert forall k :: 0 <= k < |events| && events[k].fd == fd ==> k == i;
      }
    } else {
      assert r.workers[t] == s.workers[t];
    }
    assert NoHandler(r, fd);
    assert NoCallingEvent(r, fd) <==> !HasCallingEvent(r, r.workers[t].batch, fd) by {
      assert forall u :: 0 <= u < |s.workers| && u != t ==> !HasCallingEvent(r, r.workers[u].batch, fd);
    }
  }

  lemma QuitAbandonsIff(s: State, t: nat, fd: Fd)
    requires Inv(s) && Enabled(s, Quit(t)) && !Hopeless(s, fd)
    ensures Hopeless(Apply(s, Quit(t)), fd) <==> HasCallingEvent(s, s.workers[t].batch, fd)
  {
    var r := Apply(s, Quit(t));
    OtherBatches(s, Quit(t), fd);
    assert !HasCallingEvent(r, r.workers[t].batch, fd);
    if HasCallingEvent(s, s.workers[t].batch, fd) {
      var j :| 0 <= j < |s.workers[t].batch| && s.workers[t].batch[j].fd == fd && Called(s.table, s.workers[t].batch[j]).Some?;
      AloneInBatch(s, t, j);
      assert forall u :: 0 <= u < |s.workers| && u != t ==> !HasCallingEvent(r, r.workers[u].batch, fd);
    } else {
      assert NoCallingEvent(r, fd) ==> NoCallingEvent(s, fd);
      assert NoHandler(r, fd) ==> NoHandler(s, fd);
    }
  }

  lemma AloneInBatch(s: State, t: nat, j: nat)
    requires Inv(s) && t < |s.workers| && j < |s.workers[t].batch|
    ensures var fd := s.workers[t].batch[j].fd;
            && Live(s, fd) && s.items[fd].mode.Disabled? && fd !in s.held && NoHandler(s, fd)
            && (forall u, k :: 0 <= u < |s.workers| && u != t && 0 <= k < |s.workers[u].batch| ==> s.workers[u].batch[k].fd != fd)
  {
    var fd := s.workers[t].batch[j].fd;
    assert EventOk(s, s.workers[t].batch[j]);
    assert OnePlace(s, fd) && At(s, fd, InBatch(t, j));
    assert !At(s, fd, WithApp);
    forall u | 0 <= u < |s.workers|
      ensures s.workers[u].active.None? || s.workers[u].active.value.fd != fd
    {
      assert !At(s, fd, InHandler(u));
    }
    forall u, k | 0 <= u < |s.workers| && u != t && 0 <= k < |s.workers[u].batch|
      ensures s.workers[u].batch[k].fd != fd
    {
      assert !At(s, fd, InBatch(u, k));
    }
  }

  lemma ThreadAbandonsIff(s: State, e: Step, fd: Fd)
    requires Inv(s) && Enabled(s, e) && !Hopeless(s, fd) && ByThread(e)
    ensures Hopeless(Apply(s, e), fd) <==> GivesUpOn(s, e, fd)
  {
    if e.Retrieve? {
      RetrieveAbandonsIff(s, e.t, e.events, fd);
    } else if e.Dispatch? {
      DispatchAbandonsNone(s, e.t, fd);
    } else if e.Quit? {
      QuitAbandonsIff(s, e.t, fd);
    } else if e.Rearm? && s.workers[e.t].active.value.fd == fd {
      RearmAbandonsIff(s, e.t, e.interest);
    } else {
      HandlerAbandonsNone(s, e, fd);
    }
  }

  lemma RearmAbandonsIff(s: State, t: nat, interest: Interest)
    requires Inv(s) && Enabled(s, Rearm(t, interest))
    ensures var fd := s.workers[t].active.value.fd;
            && fd in s.table
            && (Hopeless(Apply(s, Rearm(t, interest)), fd) <==> !Suits(interest, s.table[fd]))
  {
    var fd := s.workers[t].active.value.fd;
    var r := Apply(s, Rearm(t, interest));
    AloneInHandler(s, t);
    OtherBatches(s, Rearm(t, interest), fd);
    assert forall u :: 0 <= u < |s.workers| ==> r.workers[u].batch == s.workers[u].batch;
    assert NoCallingEvent(r, fd);
  }

  lemma HandlerAbandonsNone(s: State, e: Step, fd: Fd)
    requires Inv(s) && Enabled(s, e) && !Hopeless(s, fd)
    requires e.Interrupt? || e.ResetErrno? || e.Read? || e.Close? || e.Disown? || (e.Rearm? && s.workers[e.t].active.value.fd != fd)
    ensures !Hopeless(Apply(s, e), fd)
  {
    var r := Apply(s, e);
    HandlerFrame(s, e, fd);
    OtherBatches(s, e, fd);
    assert forall u :: 0 <= u < |s.workers| ==> r.workers[u].batch == s.workers[u].batch;
    assert NoCallingEvent(r, fd) == NoCallingEvent(s, fd);
  }

  /** Such a step leaves the batches, and the entry of a descriptor it does not handle. */
  lemma HandlerFrame(s: State, e: Step, fd: Fd)
    requires Enabled(s, e)
    requires e.Interrupt? || e.ResetErrno? || e.Read? || e.Close? || e.Disown? || (e.Rearm? && s.workers[e.t].active.value.fd != fd)
    ensures var r := Apply(s, e);
            && |r.workers| == |s.workers| && r.table == s.table && r.workers[e.t].batch == s.workers[e.t].batch
            && (fd in r.items ==> fd in s.items && r.items[fd] == s.items[fd])
  {
  }

  lemma DispatchAbandonsNone(s: State, t: nat, fd: Fd)
    requires Inv(s) && Enabled(s, Dispatch(t)) && !Hopeless(s, fd)
    ensures !Hopeless(Apply(s, Dispatch(t)), fd)
  {
    var r := Apply(s, Dispatch(t));
    var batch := s.workers[t].batch;
    var last := |batch| - 1;
    OtherBatches(s, Dispatch(t), fd);
    assert r.workers[t].batch == batch[..last] && r.workers[t].active == Called(s.table, batch[last]);
    if HasCallingEvent(s, batch, fd) {
      var j :| 0 <= j < |batch| && batch[j].fd == fd && Called(s.table, batch[j]).Some?;
      if j < last {
        assert batch[..last][j] == batch[j];
        assert HasCallingEvent(r, r.workers[t].batch, fd);
      }
    }
    assert NoCallingEvent(r, fd) && NoHandler(r, fd) ==> NoCallingEvent(s, fd) by {
      assert forall u :: 0 <= u < |s.workers| && u != t ==> r.workers[u].batch == s.workers[u].batch;
    }
    assert NoHandler(r, fd) ==> NoHandler(s, fd);
  }

  // ---- What a descriptor is watched for ----------------------------------------------------------

  predicate RearmsIt(s: State, e: Step, fd: Fd)
    requires Enabled(s, e)
  {
    (e.Rearm? && s.workers[e.t].active.value.fd == fd) || (e.AppRearm? && e.fd == fd)
  }

  predicate NeverRearmed(s: State, run: seq<Step>, fd: Fd)
    requires ValidRun(s, run)
    decreases |run|
  {
    run == [] || (!RearmsIt(s, run[0], fd) && NeverRearmed(Apply(s, run[0]), run[1..], fd))
  }

  predicate WatchedAsRegistered(s: State, fd: Fd) {
    fd in s.items && fd in s.table ==> if s.table[fd].rx then s.items[fd].interest.ForRead? else s.items[fd].interest.ForWrite?
  }

  lemma WatchKept(s: State, e: Step, fd: Fd)
    requires Consistent(s) && Enabled(s, e) && WatchedAsRegistered(s, fd) && !RearmsIt(s, e, fd)
    ensures WatchedAsRegistered(Apply(s, e), fd)
  {
  }

  /** Over all runs: until somebody re-arms it, a reader is watched for reading and a writer for
      writing. */
  lemma {:induction false} WatchedUntilRearmed(s: State, run: seq<Step>, fd: Fd)
    requires Inv(s) && WatchedAsRegistered(s, fd) && ValidRun(s, run) && NeverRearmed(s, run, fd)
    ensures WatchedAsRegistered(After(s, run), fd)
    decreases |run|
  {
    if run != [] {
      StepKeepsInv(s, run[0]);
      WatchKept(s, run[0], fd);
      WatchedUntilRearmed(Apply(s, run[0]), run[1..], fd);
    }
  }

  /** A descriptor registered for writing alone, which becomes writable, has its callback run. */
  lemma WriterCalled(env: Environment) returns (run: seq<Step>)
    ensures ValidRun(Init(1, env), run)
    ensures var r := After(Init(1, env), run);
            && |r.workers| == 1 && r.workers[0].active == Some(Handler(0, 0))
            && 0 in r.table && r.table[0] == Source(false, true, 0)
  {
    var s := Init(1, env);
    var s1 := Apply(s, OpenFd(0, 0));
    var s2 := Apply(s1, Setup(0, false));
    var s3 := Apply(s2, Add(0));
    var s4 := Apply(s3, Stir(0));
    run := QueuedHandled(s4, 0, 0, []);
    run := Prepend(s3, Stir(0), run);
    run := Prepend(s2, Add(0), run);
    run := Prepend(s1, Setup(0, false), run);
    run := Prepend(s, OpenFd(0, 0), run);
  }

  // ---- Ways to get there -------------------------------------------------------------------------

  const CALM: Environment := Environment(false, false, false)

  /** After the end of file: the handler re-arms a reader for writing. */
  lemma EndOfFileAbandons() returns (run: seq<Step>)
    ensures ValidRun(Init(1, CALM), run) && BufferedRun(Init(1, CALM), run)
    ensures var r := After(Init(1, CALM), run); Hopeless(r, 5) && r.items[5].interest == ForWrite(false)
  {
    var s := Init(1, CALM);
    var s0 := Registered(s, 5);
    var s1 := Apply(s0, Hangup(5));
    var s2 := Calling(s1, 0, 5);
    run := Prepend(s2, Rearm(0, ForWrite(false)), []);
    run := QueuedHandled(s1, 0, 5, run);
    run := Prepend(s0, Hangup(5), run);
    run := Registering(s, 5, run);
    assert After(s, run) == Apply(s2, Rearm(0, ForWrite(false)));
  }

  /** A hangup reported without a read event: nothing is called and nothing re-armed. */
  lemma HangupAbandons() returns (run: seq<Step>)
    ensures ValidRun(Init(1, CALM), run) && BufferedRun(Init(1, CALM), run)
    ensures var r := After(Init(1, CALM), run); Hopeless(r, 5) && r.items[5].interest.ForRead?
  {
    var s := Init(1, CALM);
    var s0 := Registered(s, 5);
    var s1 := Apply(s0, Hangup(5));
    run := SpendShot(s1, 5, []);
    run := Prepend(s0, Hangup(5), run);
    run := Registering(s, 5, run);
    assert After(s, run) == SetMode(s1, 5, Disabled);
  }

  /** One interrupted epoll_wait() of the only thread strands every reader, though nothing has
      happened to it. */
  lemma InterruptStrands() returns (run: seq<Step>)
    ensures ValidRun(Init(1, Environment(false, true, false)), run)
    ensures var r := After(Init(1, Environment(false, true, false)), run);
            Reader(r, 5) && Stranded(r, 5) && !Hopeless(r, 5)
  {
    var s := Init(1, Environment(false, true, false));
    var s0 := Registered(s, 5);
    run := Prepend(s0, Interrupt(0), []);
    run := Registering(s, 5, run);
    assert After(s, run) == Apply(s0, Interrupt(0));
  }
}
