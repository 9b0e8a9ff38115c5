/** One-shot dispatch over a shared event queue (events/thread.c, events/fd.c,
    events/sources.h, events/sysdep.c, buffers.c).

    Any number of threads retrieve batches of events from one queue, look the
    callback up in an unlocked table, and re-arm the descriptor when the callback
    is done with it. The kernel, the peers and the application are environment
    steps. */
module OneShot {
  import opened Common

  type Fd = nat

  /** A table entry. `reg` stands for the callback and state of one registration:
      every registration gets a number of its own. */
  datatype Source = Source(rx: bool, tx: bool, reg: nat)

  /** The queue's record of a descriptor: waiting for readiness, on the ready list,
      or disabled because its one shot has been delivered. */
  datatype Mode = Armed | Queued | Disabled
  datatype Item = Item(interest: Interest, mode: Mode, reg: nat)

  /** A retrieved event; `reg` is the registration that armed it. */
  datatype Event = Event(fd: Fd, read: bool, write: bool, reg: nat)

  /** A callback in progress, with the registration it was looked up from. */
  datatype Handler = Handler(fd: Fd, reg: nat)

  /** Interrupted: the thread's errno is EINTR. kevent_retrieve() looks at errno even after a
      successful epoll_wait(), which does not reset it, and then waits again over the same
      vector. Exited: the thread has taken a termination signal. */
  datatype Health = Sound | Interrupted | Exited

  datatype Worker = Worker(batch: seq<Event>, active: Option<Handler>, health: Health)

  /** An open file: bytes not yet read, and whether the peer is finished. */
  datatype File = File(unread: nat, hup: bool)

  /** What can happen to a program. `errors`: the kernel may report an error on a descriptor,
      and nothing else, while its peer is still there; epoll always reports errors, and an
      error is not a read event. `interrupts`: system calls may fail with EINTR. `stops`:
      threads may be told to terminate. */
  datatype Environment = Environment(errors: bool, interrupts: bool, stops: bool)

  datatype State = State(
    env: Environment,
    files: map<Fd, File>,
    held: set<Fd>,               // in the hands of application code
    prepared: set<Fd>,           // table entry written, not yet added to the queue
    table: map<Fd, Source>,
    items: map<Fd, Item>,
    workers: seq<Worker>,
    registrations: nat)

  /** Capacity of a thread's event vector. */
  const VSIZES: nat := 512

  datatype Step =
    | OpenFd(fd: Fd, unread: nat)              // the OS hands out a descriptor number
    | Setup(fd: Fd, rx: bool)                  // setup_evsource()
    | Add(fd: Fd)                              // add_fd_event(), EPOLL_CTL_ADD
    | Arrive(fd: Fd, count: nat)               // bytes arrive
    | Hangup(fd: Fd)
    | Stir(fd: Fd)                             // writable, or urgent data
    | Settle(fd: Fd)                           // the readiness was spurious
    | Retrieve(t: nat, events: seq<Event>)     // a successful epoll_wait()
    | Dispatch(t: nat)                         // handle_event() of the last event left
    | Read(t: nat, count: nat)
    | Rearm(t: nat, interest: Interest)        // restorefd() succeeds, the handler returns
    | Close(t: nat)                            // the handler closes the descriptor
    | Disown(t: nat)                           // the callback keeps the descriptor
    | Interrupt(t: nat)                        // epoll_wait(), or a call of a callback, fails with EINTR
    | ResetErrno(t: nat)                       // a call of a callback fails with another error
    | Quit(t: nat)                             // the next event is a termination signal
    | AppRead(fd: Fd, count: nat)              // its keeper reads from it
    | AppRearm(fd: Fd, interest: Interest)     // its keeper re-arms it
    | AppClose(fd: Fd)                         // its keeper closes it

  // ---- Where the right to use a descriptor can be ---------------------------------

  datatype Place = InKernel | WithApp | InBatch(t: nat, j: nat) | InHandler(t: nat)

  predicate At(s: State, fd: Fd, p: Place) {
    match p
    case InKernel => fd in s.items && !s.items[fd].mode.Disabled?
    case WithApp => fd in s.held
    case InBatch(t, j) => t < |s.workers| && j < |s.workers[t].batch| && s.workers[t].batch[j].fd == fd
    case InHandler(t) => t < |s.workers| && s.workers[t].active.Some? && s.workers[t].active.value.fd == fd
  }

  // ---- Steps -----------------------------------------------------------------------

  /** What the kernel may report: readable data is always reported to a reader, and a
      reader is woken without a read event only by a hangup or an error. */
  predicate Reportable(s: State, ev: Event) {
    && ev.fd in s.items && ev.fd in s.files
    && s.items[ev.fd].mode.Queued? && ev.reg == s.items[ev.fd].reg
    && (s.items[ev.fd].interest.ForRead? ==>
        && !ev.write
        && (s.files[ev.fd].unread > 0 ==> ev.read)
        && (!ev.read ==> s.files[ev.fd].hup || s.env.errors))
    && (s.items[ev.fd].interest == ForWrite(false) ==> !ev.read)
  }

  predicate Polling(s: State, t: nat) {
    t < |s.workers| && s.workers[t].batch == [] && s.workers[t].active.None? && !s.workers[t].health.Exited?
  }

  predicate Handles(s: State, t: nat) {
    t < |s.workers| && s.workers[t].active.Some? && s.workers[t].active.value.fd in s.files
  }

  predicate Enabled(s: State, e: Step) {
    match e
    case OpenFd(fd, _) => fd !in s.files
    case Setup(fd, _) => fd in s.held && fd !in s.items
    case Add(fd) => fd in s.prepared && fd !in s.items && fd in s.files && fd in s.table
    case Arrive(fd, _) => fd in s.files && !s.files[fd].hup
    case Hangup(fd) => fd in s.files
    case Stir(fd) => fd in s.items && s.items[fd].mode.Armed?
    case Settle(fd) => fd in s.items && fd in s.files && s.items[fd].mode.Queued? && s.files[fd].unread == 0
    case Retrieve(t, events) =>
      && Polling(s, t) && 0 < |events| <= VSIZES
      && (forall i :: 0 <= i < |events| ==> Reportable(s, events[i]))
      && (forall i, j :: 0 <= i < j < |events| ==> events[i].fd != events[j].fd)
    case Dispatch(t) => t < |s.workers| && s.workers[t].batch != [] && s.workers[t].active.None?
    case Read(t, count) => Handles(s, t) && count <= s.files[s.workers[t].active.value.fd].unread
    case Rearm(t, _) => Handles(s, t) && s.workers[t].active.value.fd in s.items
    case Close(t) => Handles(s, t)
    case Disown(t) => Handles(s, t)
    case Interrupt(t) =>
      s.env.interrupts && t < |s.workers| && !s.workers[t].health.Exited?
      && (s.workers[t].active.Some? || s.workers[t].batch == [])
    case ResetErrno(t) => t < |s.workers| && s.workers[t].active.Some? && !s.workers[t].health.Exited?
    case Quit(t) => s.env.stops && t < |s.workers| && s.workers[t].active.None? && !s.workers[t].health.Exited?
    case AppRead(fd, count) => fd in s.held && fd in s.files && count <= s.files[fd].unread
    case AppRearm(fd, _) => fd in s.held && fd in s.items && fd in s.files
    case AppClose(fd) => fd in s.held && fd in s.files
  }

  /** ADD and MOD look at readiness again, so nothing that happened while the
      descriptor was disabled is missed. */
  function ArmedItem(f: File, interest: Interest, reg: nat): Item {
    Item(interest, if interest.ForRead? && (f.unread > 0 || f.hup) then Queued else Armed, reg)
  }

  /** The callback handle_event() runs: reading before writing. */
  function Called(table: map<Fd, Source>, ev: Event): Option<Handler> {
    if ev.fd !in table then None
    else if ev.read && table[ev.fd].rx then Some(Handler(ev.fd, table[ev.fd].reg))
    else if ev.write && table[ev.fd].tx then Some(Handler(ev.fd, table[ev.fd].reg))
    else None
  }

  function SetMode(s: State, fd: Fd, mode: Mode): State
    requires fd in s.items
  {
    s.(items := s.items[fd := s.items[fd].(mode := mode)])
  }

  function Forget(s: State, fd: Fd): State {
    s.(files := s.files - {fd}, items := s.items - {fd}, held := s.held - {fd}, prepared := s.prepared - {fd})
  }

  function SetWorker(s: State, t: nat, w: Worker): State
    requires t < |s.workers|
  {
    s.(workers := s.workers[t := w])
  }

  /** kevent_retrieve() hands on what it retrieved, unless it waits again. */
  function Retrieving(w: Worker, events: seq<Event>): Worker {
    if w.health.Sound? then w.(batch := events) else w
  }

  function Wakes(s: State, fd: Fd): State {
    if fd in s.items && s.items[fd].mode.Armed? then SetMode(s, fd, Queued) else s
  }

  /** One-shot delivery disables what it reports. */
  function Delivered(items: map<Fd, Item>, events: seq<Event>): map<Fd, Item> {
    map fd | fd in items ::
      if exists i :: 0 <= i < |events| && events[i].fd == fd then items[fd].(mode := Disabled) else items[fd]
  }

  function Apply(s: State, e: Step): State
    requires Enabled(s, e)
  {
    match e
    case OpenFd(fd, unread) => s.(files := s.files[fd := File(unread, false)], held := s.held + {fd})
    case Setup(fd, rx) =>
      s.(table := s.table[fd := Source(rx, !rx, s.registrations)],
         prepared := s.prepared + {fd}, registrations := s.registrations + 1)
    case Add(fd) =>
      s.(items := s.items[fd := ArmedItem(s.files[fd], if s.table[fd].rx then ForRead else ForWrite(true), s.table[fd].reg)],
         held := s.held - {fd}, prepared := s.prepared - {fd})
    case Arrive(fd, count) =>
      var r := s.(files := s.files[fd := s.files[fd].(unread := s.files[fd].unread + count)]);
      if count > 0 then Wakes(r, fd) else r
    case Hangup(fd) => Wakes(s.(files := s.files[fd := s.files[fd].(hup := true)]), fd)
    case Stir(fd) => SetMode(s, fd, Queued)
    case Settle(fd) => if s.files[fd].hup then s else SetMode(s, fd, Armed)
    case Retrieve(t, events) =>
      SetWorker(s.(items := Delivered(s.items, events)), t, Retrieving(s.workers[t], events))
    case Dispatch(t) =>
      var batch := s.workers[t].batch;
      var last := |batch| - 1;
      SetWorker(s, t, s.workers[t].(batch := batch[..last], active := Called(s.table, batch[last])))
    case Read(t, count) =>
      var fd := s.workers[t].active.value.fd;
      s.(files := s.files[fd := s.files[fd].(unread := s.files[fd].unread - count)])
    case Rearm(t, interest) =>
      var fd := s.workers[t].active.value.fd;
      SetWorker(s.(items := s.items[fd := ArmedItem(s.files[fd], interest, s.items[fd].reg)]),
                t, s.workers[t].(active := None))
    case Close(t) =>
      SetWorker(Forget(s, s.workers[t].active.value.fd), t, s.workers[t].(active := None))
    case Disown(t) =>
      SetWorker(s.(held := s.held + {s.workers[t].active.value.fd}), t, s.workers[t].(active := None))
    case Interrupt(t) => SetWorker(s, t, s.workers[t].(health := Interrupted))
    case ResetErrno(t) => SetWorker(s, t, s.workers[t].(health := Sound))
    case Quit(t) => SetWorker(s, t, Worker([], None, Exited))
    case AppRead(fd, count) => s.(files := s.files[fd := s.files[fd].(unread := s.files[fd].unread - count)])
    case AppRearm(fd, interest) =>
      s.(items := s.items[fd := ArmedItem(s.files[fd], interest, s.items[fd].reg)], held := s.held - {fd})
    case AppClose(fd) => Forget(s, fd)
  }

  function Init(threads: nat, env: Environment): State {
    State(env, map[], {}, {}, map[], map[], seq(threads, _ => Worker([], None, Sound)), 0)
  }

  // ---- The invariant -----------------------------------------------------------------

  ghost predicate Consistent(s: State) {
    && s.items.Keys <= s.files.Keys && s.held <= s.files.Keys && s.prepared <= s.held
    && (forall fd :: fd in s.prepared ==> fd !in s.items)
    && (forall fd :: fd in s.prepared || fd in s.items ==> fd in s.table && s.table[fd].rx != s.table[fd].tx)
    && (forall fd :: fd in s.items ==> s.items[fd].reg == s.table[fd].reg)
  }

  /** An event or handler out in a thread belongs to a live, disabled item and
      carries that item's registration. */
  predicate Outstanding(s: State, fd: Fd, reg: nat) {
    fd in s.items && s.items[fd].mode.Disabled? && s.items[fd].reg == reg
  }

  predicate EventOk(s: State, ev: Event) {
    && Outstanding(s, ev.fd, ev.reg) && ev.fd in s.files
    && (!s.env.errors && s.items[ev.fd].interest.ForRead? && !ev.read ==>
          s.files[ev.fd].hup && s.files[ev.fd].unread == 0)
    && (s.items[ev.fd].interest == ForWrite(false) ==> !ev.read)
  }

  predicate WorkersOk(s: State) {
    && (forall t, j :: 0 <= t < |s.workers| && 0 <= j < |s.workers[t].batch| ==> EventOk(s, s.workers[t].batch[j]))
    && (forall t :: 0 <= t < |s.workers| && s.workers[t].active.Some? ==>
          Outstanding(s, s.workers[t].active.value.fd, s.workers[t].active.value.reg))
    && (forall t :: 0 <= t < |s.workers| ==> HealthOk(s, s.workers[t]))
  }

  predicate HealthOk(s: State, w: Worker) {
    && (w.health.Interrupted? ==> s.env.interrupts)
    && (w.health.Exited? ==> s.env.stops && w.batch == [] && w.active.None?)
  }

  /** The token argument: no descriptor is in two places at once. */
  ghost predicate OnePlace(s: State, fd: Fd) {
    forall p, q :: At(s, fd, p) && At(s, fd, q) ==> p == q
  }

  /** A reader that is armed but not queued has nothing to read, and its peer is there. */
  predicate ArmedIsDrained(s: State) {
    forall fd :: fd in s.items && s.items[fd].mode.Armed? && s.items[fd].interest.ForRead? ==>
      fd in s.files && s.files[fd].unread == 0 && !s.files[fd].hup
  }

  ghost predicate Somewhere(s: State, fd: Fd) {
    exists p :: At(s, fd, p)
  }

  ghost predicate NotLost(s: State, fd: Fd) {
    fd in s.items && s.items[fd].interest.ForRead? && fd in s.table && s.table[fd].rx ==>
      Somewhere(s, fd) || (fd in s.files && s.files[fd].hup && s.files[fd].unread == 0)
  }

  predicate Calm(env: Environment) { !env.errors && !env.interrupts && !env.stops }

  /** Where nothing goes wrong a registered reader drops out of sight only when nothing more
      will come. */
  ghost predicate NoneLost(s: State) {
    Calm(s.env) ==> forall fd :: NotLost(s, fd)
  }

  ghost predicate Inv(s: State) {
    && Consistent(s)
    && WorkersOk(s)
    && (forall fd :: OnePlace(s, fd))
    && ArmedIsDrained(s)
    && NoneLost(s)
  }

  lemma InitInv(threads: nat, env: Environment)
    ensures Inv(Init(threads, env))
  {
  }

  /** Where a token found at `p` after the step was before it. */
  function From(s: State, e: Step, fd: Fd, p: Place): Place
    requires Enabled(s, e)
  {
    match e
    case Add(f) => if fd == f && p.InKernel? then WithApp else p
    case AppRearm(f, _) => if fd == f && p.InKernel? then WithApp else p
    case Retrieve(t, _) => if p.InBatch? && p.t == t then InKernel else p
    case Dispatch(t) => if p == InHandler(t) then InBatch(t, |s.workers[t].batch| - 1) else p
    case Rearm(t, _) => if fd == s.workers[t].active.value.fd && p.InKernel? then InHandler(t) else p
    case Disown(t) => if fd == s.workers[t].active.value.fd && p.WithApp? then InHandler(t) else p
    case _ => p
  }

  /** Steps of the event threads; the others are the outside's. */
  predicate ByThread(e: Step) {
    e.Retrieve? || e.Dispatch? || OfCallback(e) || OwnHealth(e)
  }

  /** Steps of a callback. */
  predicate OfCallback(e: Step) { e.Read? || e.Rearm? || e.Close? || e.Disown? }

  /** Steps that change how a thread is, and nothing else unless it exits. */
  predicate OwnHealth(e: Step) { e.Interrupt? || e.ResetErrno? || e.Quit? }

  /** A step is of one thread at most. */
  lemma OthersKept(s: State, e: Step, t: nat)
    requires Enabled(s, e) && t < |s.workers| && (ByThread(e) ==> e.t != t)
    ensures |Apply(s, e).workers| == |s.workers| && Apply(s, e).workers[t] == s.workers[t]
  {
  }

  lemma TokenOrigin(s: State, e: Step, fd: Fd, p: Place)
    requires Consistent(s) && Enabled(s, e) && At(Apply(s, e), fd, p)
    ensures At(s, fd, From(s, e, fd, p)) || (e.OpenFd? && fd == e.fd && p.WithApp?)
  {
    if ByThread(e) {
      ThreadTokenOrigin(s, e, fd, p);
    } else {
      OutsideTokenOrigin(s, e, fd, p);
    }
  }

  lemma ThreadTokenOrigin(s: State, e: Step, fd: Fd, p: Place)
    requires Consistent(s) && Enabled(s, e) && ByThread(e) && At(Apply(s, e), fd, p)
    ensures At(s, fd, From(s, e, fd, p))
  {
    if e.Retrieve? {
      RetrieveTokenOrigin(s, e.t, e.events, fd, p);
    } else if e.Dispatch? {
      assert forall u :: 0 <= u < |s.workers| && u != e.t ==> Apply(s, e).workers[u] == s.workers[u];
    } else if OwnHealth(e) {
      HealthTokenOrigin(s, e, fd, p);
    } else {
      HandlerTokenOrigin(s, e, fd, p);
    }
  }

  lemma RetrieveTokenOrigin(s: State, t: nat, events: seq<Event>, fd: Fd, p: Place)
    requires Enabled(s, Retrieve(t, events)) && At(Apply(s, Retrieve(t, events)), fd, p)
    ensures At(s, fd, From(s, Retrieve(t, events), fd, p))
  {
    if p.InBatch? && p.t == t {
      assert Reportable(s, events[p.j]);
    }
  }

  lemma HandlerTokenOrigin(s: State, e: Step, fd: Fd, p: Place)
    requires Enabled(s, e) && OfCallback(e) && At(Apply(s, e), fd, p)
    ensures At(s, fd, From(s, e, fd, p))
  {
  }

  lemma HealthTokenOrigin(s: State, e: Step, fd: Fd, p: Place)
    requires Enabled(s, e) && OwnHealth(e) && At(Apply(s, e), fd, p)
    ensures At(s, fd, p)
  {
  }

  lemma OutsideTokenOrigin(s: State, e: Step, fd: Fd, p: Place)
    requires Consistent(s) && Enabled(s, e) && !ByThread(e) && At(Apply(s, e), fd, p)
    ensures At(s, fd, From(s, e, fd, p)) || (e.OpenFd? && fd == e.fd && p.WithApp?)
  {
    assert Apply(s, e).workers == s.workers;
  }

  lemma TokenOriginsDiffer(s: State, e: Step, fd: Fd, p: Place, q: Place)
    requires Consistent(s) && Enabled(s, e)
    requires At(Apply(s, e), fd, p) && At(Apply(s, e), fd, q) && From(s, e, fd, p) == From(s, e, fd, q)
    ensures p == q
  {
  }

  /** Every place lies on an open descriptor. */
  lemma PlacesAreOpen(s: State, fd: Fd, p: Place)
    requires Consistent(s) && WorkersOk(s) && At(s, fd, p)
    ensures fd in s.files
  {
    match p {
      case InBatch(t, j) => assert EventOk(s, s.workers[t].batch[j]);
      case _ =>
    }
  }

  lemma OnePlacePreserved(s: State, e: Step, fd: Fd)
    requires Inv(s) && Enabled(s, e)
    ensures OnePlace(Apply(s, e), fd)
  {
    var r := Apply(s, e);
    forall p, q | At(r, fd, p) && At(r, fd, q)
      ensures p == q
    {
      TokenOrigin(s, e, fd, p);
      TokenOrigin(s, e, fd, q);
      if e.OpenFd? && fd == e.fd {
        if At(s, fd, p) { PlacesAreOpen(s, fd, p); }
        if At(s, fd, q) { PlacesAreOpen(s, fd, q); }
      } else {
        assert OnePlace(s, fd);
        TokenOriginsDiffer(s, e, fd, p, q);
      }
    }
  }

  lemma ConsistentPreserved(s: State, e: Step)
    requires Inv(s) && Enabled(s, e)
    ensures Consistent(Apply(s, e))
  {
    if ByThread(e) {
      ThreadKeepsConsistent(s, e);
    } else {
      OutsideKeepsConsistent(s, e);
    }
  }

  lemma ThreadKeepsConsistent(s: State, e: Step)
    requires Consistent(s) && Enabled(s, e) && ByThread(e)
    ensures Consistent(Apply(s, e))
  {
    if OfCallback(e) {
      CallbackKeepsConsistent(s, e);
    } else if e.Retrieve? {
      assert Delivered(s.items, e.events).Keys == s.items.Keys;
    }
  }

  lemma CallbackKeepsConsistent(s: State, e: Step)
    requires Consistent(s) && Enabled(s, e) && OfCallback(e)
    ensures Consistent(Apply(s, e))
  {
  }

  lemma OutsideKeepsConsistent(s: State, e: Step)
    requires Consistent(s) && Enabled(s, e) && !ByThread(e)
    ensures Consistent(Apply(s, e))
  {
  }

  /** A step that takes a descriptor from a thread or its keeper leaves the items of
      other descriptors that are out in a thread as they were. */
  lemma ItemKept(s: State, e: Step, fd: Fd, p: Place)
    requires Inv(s) && Enabled(s, e)
    requires p.InBatch? || p.InHandler?
    requires At(s, fd, p) && At(Apply(s, e), fd, p) && fd in s.items && s.items[fd].mode.Disabled?
    ensures fd in Apply(s, e).items && Apply(s, e).items[fd] == s.items[fd]
  {
    assert OnePlace(s, fd);
    if ByThread(e) {
      ThreadItemKept(s, e, fd, p);
    } else {
      assert !At(s, fd, WithApp);
      OutsideItemKept(s, e, fd);
    }
  }

  lemma ThreadItemKept(s: State, e: Step, fd: Fd, p: Place)
    requires Enabled(s, e) && ByThread(e) && OnePlace(s, fd) && (p.InBatch? || p.InHandler?)
    requires At(s, fd, p) && At(Apply(s, e), fd, p) && fd in s.items && s.items[fd].mode.Disabled?
    ensures fd in Apply(s, e).items && Apply(s, e).items[fd] == s.items[fd]
  {
    if e.Rearm? || e.Close? || e.Disown? {
      assert At(s, s.workers[e.t].active.value.fd, InHandler(e.t));
    }
  }

  lemma OutsideItemKept(s: State, e: Step, fd: Fd)
    requires Consistent(s) && Enabled(s, e) && !ByThread(e) && fd !in s.held
    requires fd in s.items && s.items[fd].mode.Disabled?
    ensures fd in Apply(s, e).items && Apply(s, e).items[fd] == s.items[fd]
  {
  }

  /** Nothing arrives after a hangup. */
  lemma HangupLasts(s: State, e: Step, fd: Fd)
    requires Enabled(s, e) && fd in s.files && fd in Apply(s, e).files && s.files[fd].hup
    ensures Apply(s, e).files[fd].hup && Apply(s, e).files[fd].unread <= s.files[fd].unread
  {
  }

  lemma EventPreserved(s: State, e: Step, t: nat, j: nat)
    requires Inv(s) && Enabled(s, e) && t < |s.workers| && j < |Apply(s, e).workers[t].batch|
    ensures EventOk(Apply(s, e), Apply(s, e).workers[t].batch[j])
  {
    if e.Retrieve? && t == e.t {
      assert Reportable(s, e.events[j]);
    } else {
      WaitingEventPreserved(s, e, t, j);
    }
  }

  lemma BatchFrame(s: State, e: Step, t: nat, j: nat)
    requires Enabled(s, e) && t < |s.workers| && j < |Apply(s, e).workers[t].batch| && !(e.Retrieve? && t == e.t)
    ensures j < |s.workers[t].batch| && Apply(s, e).workers[t].batch[j] == s.workers[t].batch[j]
  {
  }

  lemma WaitingEventPreserved(s: State, e: Step, t: nat, j: nat)
    requires Inv(s) && Enabled(s, e) && t < |s.workers| && j < |Apply(s, e).workers[t].batch|
    requires !(e.Retrieve? && t == e.t)
    ensures EventOk(Apply(s, e), Apply(s, e).workers[t].batch[j])
  {
    BatchFrame(s, e, t, j);
    var ev := s.workers[t].batch[j];
    assert EventOk(s, ev);
    assert At(s, ev.fd, InBatch(t, j));
    ItemKept(s, e, ev.fd, InBatch(t, j));
    ConsistentPreserved(s, e);
    if s.files[ev.fd].hup {
      HangupLasts(s, e, ev.fd);
    }
  }

  /** No stale dispatch: the callback that an event runs, if any, is that of the
      registration that armed the event. */
  lemma DispatchIsCurrent(s: State, t: nat)
    requires Inv(s) && Enabled(s, Dispatch(t))
    ensures var ev := s.workers[t].batch[|s.workers[t].batch| - 1];
            && ev.fd in s.files && ev.fd in s.table && s.table[ev.fd].reg == ev.reg
            && (Called(s.table, ev).Some? ==> Called(s.table, ev).value == Handler(ev.fd, ev.reg))
  {
    assert EventOk(s, s.workers[t].batch[|s.workers[t].batch| - 1]);
  }

  lemma HandlerPreserved(s: State, e: Step, t: nat)
    requires Inv(s) && Enabled(s, e) && t < |s.workers| && Apply(s, e).workers[t].active.Some?
    ensures var h := Apply(s, e).workers[t].active.value; Outstanding(Apply(s, e), h.fd, h.reg)
  {
    var r := Apply(s, e);
    var h := r.workers[t].active.value;
    if e == Dispatch(t) {
      DispatchIsCurrent(s, t);
      assert EventOk(s, s.workers[t].batch[|s.workers[t].batch| - 1]);
    } else {
      assert At(s, h.fd, InHandler(t)) && At(r, h.fd, InHandler(t));
      ItemKept(s, e, h.fd, InHandler(t));
    }
  }

  lemma HealthPreserved(s: State, e: Step, t: nat)
    requires WorkersOk(s) && Enabled(s, e) && t < |s.workers|
    ensures HealthOk(Apply(s, e), Apply(s, e).workers[t])
  {
    assert HealthOk(s, s.workers[t]);
  }

  lemma ArmedIsDrainedPreserved(s: State, e: Step)
    requires Inv(s) && Enabled(s, e)
    ensures ArmedIsDrained(Apply(s, e))
  {
    if ByThread(e) {
      ThreadKeepsDrained(s, e);
    } else {
      OutsideKeepsDrained(s, e);
    }
  }

  lemma ThreadKeepsDrained(s: State, e: Step)
    requires Consistent(s) && ArmedIsDrained(s) && Enabled(s, e) && ByThread(e)
    ensures ArmedIsDrained(Apply(s, e))
  {
  }

  lemma OutsideKeepsDrained(s: State, e: Step)
    requires Consistent(s) && ArmedIsDrained(s) && Enabled(s, e) && !ByThread(e)
    ensures ArmedIsDrained(Apply(s, e))
  {
  }

  lemma RetrieveKeeps(s: State, t: nat, events: seq<Event>, fd: Fd, p: Place)
    requires Enabled(s, Retrieve(t, events)) && At(s, fd, p)
    requires s.workers[t].health.Sound? || forall i :: 0 <= i < |events| ==> events[i].fd != fd
    ensures Somewhere(Apply(s, Retrieve(t, events)), fd)
  {
    var r := Apply(s, Retrieve(t, events));
    if i: nat :| i < |events| && events[i].fd == fd {
      assert At(r, fd, InBatch(t, i));
    } else {
      assert At(r, fd, p);
    }
  }

  /** Where a step other than a retrieval puts what it finds at `p`. */
  function To(s: State, e: Step, fd: Fd, p: Place): Place
    requires Enabled(s, e)
  {
    match e
    case Add(f) => if fd == f then InKernel else p
    case AppRearm(f, _) => if fd == f then InKernel else p
    case Dispatch(t) => if p == InBatch(t, |s.workers[t].batch| - 1) then InHandler(t) else p
    case Rearm(t, _) => if p == InHandler(t) then InKernel else p
    case Disown(t) => if p == InHandler(t) then WithApp else p
    case _ => p
  }

  /** The step lets go of what is at `p`: it dispatches an event that calls nothing, waits
      again over an event it retrieved, or exits with events left. */
  predicate Drops(s: State, e: Step, fd: Fd, p: Place)
    requires Enabled(s, e)
  {
    || (e.Dispatch? && p == InBatch(e.t, |s.workers[e.t].batch| - 1)
        && Called(s.table, s.workers[e.t].batch[|s.workers[e.t].batch| - 1]).None?)
    || (e.Retrieve? && s.workers[e.t].health.Interrupted? && exists i :: 0 <= i < |e.events| && e.events[i].fd == fd)
    || (e.Quit? && p.InBatch? && p.t == e.t)
  }

  lemma TokenMoved(s: State, e: Step, fd: Fd, p: Place)
    requires Enabled(s, e) && !e.Retrieve? && At(s, fd, p) && fd in Apply(s, e).files && !Drops(s, e, fd, p)
    ensures At(Apply(s, e), fd, To(s, e, fd, p))
  {
    if ByThread(e) {
      ThreadTokenMoved(s, e, fd, p);
    } else {
      assert Apply(s, e).workers == s.workers;
    }
  }

  lemma ThreadTokenMoved(s: State, e: Step, fd: Fd, p: Place)
    requires Enabled(s, e) && ByThread(e) && !e.Retrieve? && At(s, fd, p) && fd in Apply(s, e).files
    requires !Drops(s, e, fd, p)
    ensures At(Apply(s, e), fd, To(s, e, fd, p))
  {
    if e.Dispatch? {
      DispatchTokenMoved(s, e.t, fd, p);
    } else if OwnHealth(e) {
      HealthTokenMoved(s, e, fd, p);
    } else {
      CallbackTokenMoved(s, e, fd, p);
    }
  }

  lemma DispatchTokenMoved(s: State, t: nat, fd: Fd, p: Place)
    requires Enabled(s, Dispatch(t)) && At(s, fd, p) && !Drops(s, Dispatch(t), fd, p)
    ensures At(Apply(s, Dispatch(t)), fd, To(s, Dispatch(t), fd, p))
  {
  }

  lemma HealthTokenMoved(s: State, e: Step, fd: Fd, p: Place)
    requires Enabled(s, e) && OwnHealth(e) && At(s, fd, p) && !Drops(s, e, fd, p)
    ensures At(Apply(s, e), fd, p)
  {
  }

  lemma CallbackTokenMoved(s: State, e: Step, fd: Fd, p: Place)
    requires Enabled(s, e) && OfCallback(e) && At(s, fd, p) && fd in Apply(s, e).files
    ensures At(Apply(s, e), fd, To(s, e, fd, p))
  {
  }

  /** Tokens are not lost: whatever a step takes from one place it puts in another, unless it
      closes the descriptor or drops it. */
  lemma TokenKept(s: State, e: Step, fd: Fd, p: Place)
    requires Enabled(s, e) && At(s, fd, p)
    ensures Somewhere(Apply(s, e), fd) || fd !in Apply(s, e).files || Drops(s, e, fd, p)
  {
    if !Drops(s, e, fd, p) {
      if e.Retrieve? {
        RetrieveKeeps(s, e.t, e.events, fd, p);
      } else if fd in Apply(s, e).files {
        TokenMoved(s, e, fd, p);
      }
    }
  }

  /** A reader that is in nobody's hands stays as it is. */
  lemma UnheldItemKept(s: State, e: Step, fd: Fd)
    requires Inv(s) && Enabled(s, e) && fd in Apply(s, e).items && !Somewhere(s, fd)
    ensures fd in s.items && Apply(s, e).items[fd] == s.items[fd]
  {
    assert !At(s, fd, WithApp) && !At(s, fd, InKernel);
    if e.Add? {
      assert At(s, e.fd, WithApp);
    } else if e.Rearm? {
      assert At(s, s.workers[e.t].active.value.fd, InHandler(e.t));
    } else if e.Retrieve? {
      assert Delivered(s.items, e.events)[fd].interest == s.items[fd].interest;
    }
  }

  /** Where nothing goes wrong only an event that calls nothing is dropped, and a reader has
      such an event only after a hangup. */
  lemma DroppedIsDone(s: State, e: Step, fd: Fd, p: Place)
    requires Inv(s) && Enabled(s, e) && Calm(s.env) && At(s, fd, p) && Drops(s, e, fd, p)
    requires fd in Apply(s, e).items && Apply(s, e).items[fd].interest.ForRead?
    requires fd in Apply(s, e).table && Apply(s, e).table[fd].rx
    ensures fd in Apply(s, e).files && Apply(s, e).files[fd].hup && Apply(s, e).files[fd].unread == 0
  {
    assert HealthOk(s, s.workers[e.t]);
    assert e.Dispatch?;
    assert EventOk(s, s.workers[e.t].batch[p.j]);
  }

  lemma NoneLostPreserved(s: State, e: Step, fd: Fd)
    requires Inv(s) && Enabled(s, e) && Calm(s.env)
    ensures NotLost(Apply(s, e), fd)
  {
    var r := Apply(s, e);
    if fd in r.items && r.items[fd].interest.ForRead? && fd in r.table && r.table[fd].rx {
      ConsistentPreserved(s, e);
      if p :| At(s, fd, p) {
        TokenKept(s, e, fd, p);
        if !Somewhere(r, fd) {
          DroppedIsDone(s, e, fd, p);
        }
      } else {
        UnheldItemKept(s, e, fd);
        assert !(e.Setup? && e.fd == fd);
        assert NotLost(s, fd);
        HangupLasts(s, e, fd);
      }
    }
  }

  lemma StepKeepsInv(s: State, e: Step)
    requires Inv(s) && Enabled(s, e)
    ensures Inv(Apply(s, e))
  {
    var r := Apply(s, e);
    ConsistentPreserved(s, e);
    ArmedIsDrainedPreserved(s, e);
    forall fd ensures OnePlace(r, fd) { OnePlacePreserved(s, e, fd); }
    forall t, j | 0 <= t < |r.workers| && 0 <= j < |r.workers[t].batch|
      ensures EventOk(r, r.workers[t].batch[j])
    {
      EventPreserved(s, e, t, j);
    }
    forall t | 0 <= t < |r.workers| && r.workers[t].active.Some?
      ensures Outstanding(r, r.workers[t].active.value.fd, r.workers[t].active.value.reg)
    {
      HandlerPreserved(s, e, t);
    }
    forall t | 0 <= t < |r.workers| ensures HealthOk(r, r.workers[t]) { HealthPreserved(s, e, t); }
    if Calm(s.env) {
      forall fd ensures NotLost(r, fd) { NoneLostPreserved(s, e, fd); }
    }
  }

  // ---- Runs ------------------------------------------------------------------------------

  predicate ValidRun(s: State, run: seq<Step>)
    decreases |run|
  {
    run == [] || (Enabled(s, run[0]) && ValidRun(Apply(s, run[0]), run[1..]))
  }

  function After(s: State, run: seq<Step>): State
    requires ValidRun(s, run)
    decreases |run|
  {
    if run == [] then s else After(Apply(s, run[0]), run[1..])
  }

  lemma {:induction false} RunKeepsInv(s: State, run: seq<Step>)
    requires Inv(s) && ValidRun(s, run)
    ensures Inv(After(s, run))
    decreases |run|
  {
    if run != [] {
      StepKeepsInv(s, run[0]);
      RunKeepsInv(Apply(s, run[0]), run[1..]);
    }
  }

  // ---- Counting tokens ---------------------------------------------------------------------

  function Copies(batch: seq<Event>, fd: Fd): nat {
    if batch == [] then 0
    else Copies(batch[..|batch| - 1], fd) + if batch[|batch| - 1].fd == fd then 1 else 0
  }

  function Handlers(w: Worker, fd: Fd): nat {
    if w.active.Some? && w.active.value.fd == fd then 1 else 0
  }

  /** Copies in all threads' batches and active handlers. */
  function InThreads(workers: seq<Worker>, fd: Fd): nat {
    if workers == [] then 0
    else
      var last := workers[|workers| - 1];
      InThreads(workers[..|workers| - 1], fd) + Copies(last.batch, fd) + Handlers(last, fd)
  }

  function InQueue(s: State, fd: Fd): nat {
    if fd in s.items && !s.items[fd].mode.Disabled? then 1 else 0
  }

  lemma {:induction false} CopiesFound(batch: seq<Event>, fd: Fd) returns (j: nat)
    ensures Copies(batch, fd) > 0 ==> j < |batch| && batch[j].fd == fd
    ensures (forall i, k :: 0 <= i < k < |batch| && batch[i].fd == fd ==> batch[k].fd != fd) ==> Copies(batch, fd) <= 1
  {
    j := 0;
    if batch != [] {
      j := CopiesFound(batch[..|batch| - 1], fd);
      if batch[|batch| - 1].fd == fd {
        j := |batch| - 1;
      }
    }
  }

  lemma {:induction false} InThreadsFound(s: State, fd: Fd) returns (p: Place)
    ensures InThreads(s.workers, fd) > 0 ==> (p.InBatch? || p.InHandler?) && At(s, fd, p)
    decreases |s.workers|
  {
    p := InKernel;
    if s.workers != [] {
      var t := |s.workers| - 1;
      var front := s.(workers := s.workers[..t]);
      p := InThreadsFound(front, fd);
      var j := CopiesFound(s.workers[t].batch, fd);
      if Handlers(s.workers[t], fd) > 0 {
        p := InHandler(t);
      } else if Copies(s.workers[t].batch, fd) > 0 {
        p := InBatch(t, j);
      }
    }
  }

  lemma {:induction false} InThreadsOnce(s: State, fd: Fd)
    requires OnePlace(s, fd)
    ensures InThreads(s.workers, fd) <= 1
    decreases |s.workers|
  {
    if s.workers != [] {
      var t := |s.workers| - 1;
      var w := s.workers[t];
      var front := s.(workers := s.workers[..t]);
      forall p, q | At(front, fd, p) && At(front, fd, q)
        ensures p == q
      {
        assert At(s, fd, p) && At(s, fd, q);
      }
      InThreadsOnce(front, fd);
      var p := InThreadsFound(front, fd);
      var j := CopiesFound(w.batch, fd);
      forall i, k | 0 <= i < k < |w.batch| && w.batch[i].fd == fd
        ensures w.batch[k].fd != fd
      {
        if w.batch[k].fd == fd {
          assert At(s, fd, InBatch(t, i)) && At(s, fd, InBatch(t, k));
        }
      }
      assert Copies(w.batch, fd) > 0 ==> At(s, fd, InBatch(t, j));
      assert Handlers(w, fd) > 0 ==> At(s, fd, InHandler(t));
      assert InThreads(front.workers, fd) > 0 ==> At(s, fd, p) && p.t < t;
    }
  }

  /** Mutual exclusion over all runs: for every descriptor, being armed in the
      queue, the copies in all threads' batches and the active handlers add up to
      at most one, so the table needs no lock. */
  lemma MutualExclusion(threads: nat, env: Environment, run: seq<Step>, fd: Fd)
    requires ValidRun(Init(threads, env), run)
    ensures var s := After(Init(threads, env), run); InQueue(s, fd) + InThreads(s.workers, fd) <= 1
    ensures var s := After(Init(threads, env), run); fd in s.held ==> InQueue(s, fd) + InThreads(s.workers, fd) == 0
  {
    InitInv(threads, env);
    RunKeepsInv(Init(threads, env), run);
    var s := After(Init(threads, env), run);
    assert OnePlace(s, fd);
    InThreadsOnce(s, fd);
    var p := InThreadsFound(s, fd);
    assert InQueue(s, fd) > 0 ==> At(s, fd, InKernel);
    assert fd in s.held ==> At(s, fd, WithApp);
  }

  /** No stale dispatch over all runs, however often descriptor numbers are closed
      and handed out again. */
  lemma NoStaleDispatch(threads: nat, env: Environment, run: seq<Step>, t: nat)
    requires ValidRun(Init(threads, env), run) && Enabled(After(Init(threads, env), run), Dispatch(t))
    ensures var s := After(Init(threads, env), run);
            var ev := s.workers[t].batch[|s.workers[t].batch| - 1];
            && ev.fd in s.files && ev.fd in s.table && s.table[ev.fd].reg == ev.reg
            && (Called(s.table, ev).Some? ==> Called(s.table, ev).value == Handler(ev.fd, ev.reg))
  {
    InitInv(threads, env);
    RunKeepsInv(Init(threads, env), run);
    DispatchIsCurrent(After(Init(threads, env), run), t);
  }

  // ---- Registrations -----------------------------------------------------------------------

  function Setups(run: seq<Step>): nat {
    if run == [] then 0 else (if run[0].Setup? then 1 else 0) + Setups(run[1..])
  }

  /** Registrations are numbered in turn. */
  lemma {:induction false} RegistrationsCounted(s: State, run: seq<Step>)
    requires ValidRun(s, run)
    ensures After(s, run).registrations == s.registrations + Setups(run)
    decreases |run|
  {
    if run != [] {
      RegistrationsCounted(Apply(s, run[0]), run[1..]);
    }
  }

  /** No number is used twice. */
  ghost predicate Numbered(s: State) {
    && (forall fd :: fd in s.table ==> s.table[fd].reg < s.registrations)
    && (forall fd, fd' :: fd in s.table && fd' in s.table && fd != fd' ==> s.table[fd].reg != s.table[fd'].reg)
  }

  lemma {:induction false} NumberedInRun(s: State, run: seq<Step>)
    requires Inv(s) && Numbered(s) && ValidRun(s, run)
    ensures Inv(After(s, run)) && Numbered(After(s, run))
    decreases |run|
  {
    if run != [] {
      StepKeepsInv(s, run[0]);
      NumberedStep(s, run[0]);
      NumberedInRun(Apply(s, run[0]), run[1..]);
    }
  }

  lemma NumberedStep(s: State, e: Step)
    requires Numbered(s) && Enabled(s, e)
    ensures Numbered(Apply(s, e))
  {
    var r := Apply(s, e);
    assert r.registrations >= s.registrations;
    assert e.Setup? || r.table == s.table;
  }

  /** Over all runs: a registration gets a number that no entry, no item of the queue, no event
      in a batch and no handler has. */
  lemma RegistrationIsFresh(threads: nat, env: Environment, run: seq<Step>, fd: Fd, rx: bool)
    requires ValidRun(Init(threads, env), run) && Enabled(After(Init(threads, env), run), Setup(fd, rx))
    ensures var s := After(Init(threads, env), run);
            var r := Apply(s, Setup(fd, rx));
            && fd in r.table && r.table[fd].rx == rx && r.table[fd].tx == !rx
            && (forall f :: f in s.table ==> s.table[f].reg != r.table[fd].reg)
            && (forall f :: f in s.items ==> s.items[f].reg != r.table[fd].reg)
            && (forall t, j :: 0 <= t < |s.workers| && 0 <= j < |s.workers[t].batch| ==> s.workers[t].batch[j].reg != r.table[fd].reg)
            && (forall t :: 0 <= t < |s.workers| && s.workers[t].active.Some? ==> s.workers[t].active.value.reg != r.table[fd].reg)
  {
    var s := After(Init(threads, env), run);
    InitInv(threads, env);
    NumberedInRun(Init(threads, env), run);
    forall t, j | 0 <= t < |s.workers| && 0 <= j < |s.workers[t].batch|
      ensures s.workers[t].batch[j].reg < s.registrations
    {
      assert EventOk(s, s.workers[t].batch[j]);
    }
  }

  // ---- Bytes -------------------------------------------------------------------------------

  function Incoming(e: Step, fd: Fd): nat {
    if e.Arrive? && e.fd == fd then e.count else 0
  }

  function Outgoing(s: State, e: Step, fd: Fd): nat
    requires Enabled(s, e)
  {
    if e.Read? && s.workers[e.t].active.value.fd == fd then e.count
    else if e.AppRead? && e.fd == fd then e.count
    else 0
  }

  predicate StaysOpen(s: State, run: seq<Step>, fd: Fd)
    requires ValidRun(s, run)
    decreases |run|
  {
    fd in s.files && (run == [] || StaysOpen(Apply(s, run[0]), run[1..], fd))
  }

  function Arrived(run: seq<Step>, fd: Fd): nat {
    if run == [] then 0 else Incoming(run[0], fd) + Arrived(run[1..], fd)
  }

  function ReadFrom(s: State, run: seq<Step>, fd: Fd): nat
    requires ValidRun(s, run)
    decreases |run|
  {
    if run == [] then 0 else Outgoing(s, run[0], fd) + ReadFrom(Apply(s, run[0]), run[1..], fd)
  }

  lemma ByteStep(s: State, e: Step, fd: Fd)
    requires Enabled(s, e) && fd in s.files && fd in Apply(s, e).files
    ensures Apply(s, e).files[fd].unread + Outgoing(s, e, fd) == s.files[fd].unread + Incoming(e, fd)
  {
  }

  /** While a descriptor is open, what has arrived is what has been read and what is unread. */
  lemma {:induction false} BytesConserved(s: State, run: seq<Step>, fd: Fd)
    requires ValidRun(s, run) && StaysOpen(s, run, fd)
    ensures fd in After(s, run).files
    ensures After(s, run).files[fd].unread + ReadFrom(s, run, fd) == s.files[fd].unread + Arrived(run, fd)
    decreases |run|
  {
    if run != [] {
      ByteStep(s, run[0], fd);
      BytesConserved(Apply(s, run[0]), run[1..], fd);
    }
  }

  /** From the opening of a descriptor on: what was there and has arrived is what has been read
      and what is unread. */
  lemma BytesSinceOpening(s: State, fd: Fd, unread: nat, run: seq<Step>)
    requires Enabled(s, OpenFd(fd, unread)) && ValidRun(Apply(s, OpenFd(fd, unread)), run)
    requires StaysOpen(Apply(s, OpenFd(fd, unread)), run, fd)
    ensures var start := Apply(s, OpenFd(fd, unread));
            && fd in After(start, run).files && !start.files[fd].hup
            && After(start, run).files[fd].unread + ReadFrom(start, run, fd) == unread + Arrived(run, fd)
  {
    BytesConserved(Apply(s, OpenFd(fd, unread)), run, fd);
  }

  // ---- Batches -----------------------------------------------------------------------------

  predicate BatchesFit(s: State) {
    forall t :: 0 <= t < |s.workers| ==> |s.workers[t].batch| <= 512
  }

  lemma {:induction false} BatchesFitInRun(s: State, run: seq<Step>)
    requires BatchesFit(s) && ValidRun(s, run)
    ensures BatchesFit(After(s, run))
    decreases |run|
  {
    if run != [] {
      BatchStepFits(s, run[0]);
      BatchesFitInRun(Apply(s, run[0]), run[1..]);
    }
  }

  lemma BatchStepFits(s: State, e: Step)
    requires BatchesFit(s) && Enabled(s, e)
    ensures BatchesFit(Apply(s, e))
  {
    forall t | 0 <= t < |Apply(s, e).workers|
      ensures |Apply(s, e).workers[t].batch| <= 512
    {
      if !(ByThread(e) && e.t == t) {
        OthersKept(s, e, t);
      }
    }
  }

  /** A thread never holds more events than its vector has room for. */
  lemma VectorSuffices(threads: nat, env: Environment, run: seq<Step>)
    requires ValidRun(Init(threads, env), run)
    ensures BatchesFit(After(Init(threads, env), run))
  {
    BatchesFitInRun(Init(threads, env), run);
  }
}
