/** The callback table and the batch loop that dispatches through it
    (events/sources.h, events/fd.c, events/thread.c). */
module EventTable {
  import opened Common
  import opened OneShot

  /** Callback functions and callback state are opaque. */
  type Callback = nat
  type CbState = nat

  datatype Slot = Slot(rxfxn: Option<Callback>, txfxn: Option<Callback>, cbstate: CbState)

  datatype Call = Call(fxn: Callback, fd: Fd, cbstate: CbState)

  /** The calls one event gives rise to, in order. */
  function EventCalls(table: seq<Slot>, ev: Event): seq<Call>
    requires ev.fd < |table|
  {
    var slot := table[ev.fd];
    (if ev.read && slot.rxfxn.Some? then [Call(slot.rxfxn.value, ev.fd, slot.cbstate)] else []) +
    (if ev.write && slot.txfxn.Some? then [Call(slot.txfxn.value, ev.fd, slot.cbstate)] else [])
  }

  predicate InTable(table: seq<Slot>, events: seq<Event>) {
    forall i :: 0 <= i < |events| ==> events[i].fd < |table|
  }

  /** The calls a batch gives rise to: the last event retrieved is handled first. */
  function BatchCalls(table: seq<Slot>, events: seq<Event>): seq<Call>
    requires InTable(table, events)
  {
    if events == [] then []
    else EventCalls(table, events[|events| - 1]) + BatchCalls(table, events[..|events| - 1])
  }

  // ---- Callbacks that write to the table --------------------------------------------------

  /** A callback may register descriptors. */
  datatype Write = Write(fd: nat, slot: Slot)

  function Wrote(table: seq<Slot>, writes: seq<Write>): (r: seq<Slot>)
    ensures |r| == |table|
  {
    if writes == [] then table
    else
      var w := writes[|writes| - 1];
      var before := Wrote(table, writes[..|writes| - 1]);
      if w.fd < |table| then before[w.fd := w.slot] else before
  }

  datatype Progress = Progress(table: seq<Slot>, calls: seq<Call>)

  /** `effects` says what the k-th callback writes. */
  type Effects = nat -> seq<Write>

  function Ran(p: Progress, effects: Effects, call: Call): (r: Progress)
    ensures |r.table| == |p.table|
  {
    Progress(Wrote(p.table, effects(|p.calls|)), p.calls + [call])
  }

  function ReadStep(p: Progress, effects: Effects, fd: nat): (r: Progress)
    requires fd < |p.table|
    ensures |r.table| == |p.table|
  {
    var slot := p.table[fd];
    if slot.rxfxn.Some? then Ran(p, effects, Call(slot.rxfxn.value, fd, slot.cbstate)) else p
  }

  function WriteStep(p: Progress, effects: Effects, fd: nat): (r: Progress)
    requires fd < |p.table|
    ensures |r.table| == |p.table|
  {
    var slot := p.table[fd];
    if slot.txfxn.Some? then Ran(p, effects, Call(slot.txfxn.value, fd, slot.cbstate)) else p
  }

  /** The write callback is looked up after the read callback has run. */
  function EventStep(p: Progress, effects: Effects, ev: Event): (r: Progress)
    requires ev.fd < |p.table|
    ensures |r.table| == |p.table|
  {
    var q := if ev.read then ReadStep(p, effects, ev.fd) else p;
    if ev.write then WriteStep(q, effects, ev.fd) else q
  }

  function BatchRun(p: Progress, effects: Effects, events: seq<Event>): (r: Progress)
    requires InTable(p.table, events)
    ensures |r.table| == |p.table|
    decreases |events|
  {
    if events == [] then p
    else BatchRun(EventStep(p, effects, events[|events| - 1]), effects, events[..|events| - 1])
  }

  /** Both tables have the same entries for these events. */
  predicate Agree(a: seq<Slot>, b: seq<Slot>, events: seq<Event>)
    requires |a| == |b| && InTable(a, events)
  {
    forall i :: 0 <= i < |events| ==> a[events[i].fd] == b[events[i].fd]
  }

  /** No callback of the batch writes the entry of an event still to be handled. */
  predicate Undisturbed(p: Progress, effects: Effects, events: seq<Event>)
    requires InTable(p.table, events)
    decreases |events|
  {
    events == [] ||
    (var front := events[..|events| - 1];
     var q := EventStep(p, effects, events[|events| - 1]);
     Agree(p.table, q.table, front) && Undisturbed(q, effects, front))
  }

  /** A reader is not reported writable. */
  predicate OneCallEach(table: seq<Slot>, events: seq<Event>)
    requires InTable(table, events)
  {
    SingleCallbacks(table, events) &&
    forall i :: 0 <= i < |events| && table[events[i].fd].rxfxn.Some? ==> !(events[i].read && events[i].write)
  }

  predicate SingleCallbacks(table: seq<Slot>, events: seq<Event>)
    requires InTable(table, events)
  {
    forall i :: 0 <= i < |events| ==> table[events[i].fd].rxfxn.Some? != table[events[i].fd].txfxn.Some?
  }

  lemma {:induction false} SameEntriesSameCalls(a: seq<Slot>, b: seq<Slot>, events: seq<Event>)
    requires |a| == |b| && InTable(a, events) && Agree(a, b, events)
    ensures BatchCalls(a, events) == BatchCalls(b, events)
    ensures OneCallEach(a, events) ==> OneCallEach(b, events)
  {
    if events != [] {
      SameEntriesSameCalls(a, b, events[..|events| - 1]);
    }
  }

  /** Registered for one direction, a descriptor's own callback is the last thing its event
      looks up. */
  lemma SingleEventStep(p: Progress, effects: Effects, ev: Event)
    requires ev.fd < |p.table| && p.table[ev.fd].rxfxn.Some? != p.table[ev.fd].txfxn.Some?
    requires p.table[ev.fd].rxfxn.Some? ==> !(ev.read && ev.write)
    ensures EventStep(p, effects, ev).calls == p.calls + EventCalls(p.table, ev)
  {
  }

  /** Whatever else callbacks register meanwhile, the calls of a batch are those of the
      table it started with. */
  lemma {:induction false} BatchRunsOldTable(p: Progress, effects: Effects, events: seq<Event>)
    requires InTable(p.table, events) && OneCallEach(p.table, events) && Undisturbed(p, effects, events)
    ensures BatchRun(p, effects, events).calls == p.calls + BatchCalls(p.table, events)
    decreases |events|
  {
    if events != [] {
      var front, ev := events[..|events| - 1], events[|events| - 1];
      var q := EventStep(p, effects, ev);
      SingleEventStep(p, effects, ev);
      FrontCalls(p.table, events);
      SameEntriesSameCalls(p.table, q.table, front);
      BatchRunsOldTable(q, effects, front);
      Regroup(p.calls, EventCalls(p.table, ev), BatchCalls(p.table, front));
    }
  }

  lemma FrontCalls(table: seq<Slot>, events: seq<Event>)
    requires InTable(table, events) && events != []
    ensures var front := events[..|events| - 1];
            && BatchCalls(table, events) == EventCalls(table, events[|events| - 1]) + BatchCalls(table, front)
            && (OneCallEach(table, events) ==> OneCallEach(table, front))
  {
  }

  lemma Regroup(a: seq<Call>, b: seq<Call>, c: seq<Call>)
    ensures a + b + c == a + (b + c)
  {
  }

  /** With both callbacks registered and both bits set, the read callback is called and then the
      write callback of whatever entry the read callback has left. */
  lemma ReadBeforeWrite(p: Progress, effects: Effects, ev: Event)
    requires ev.fd < |p.table| && ev.read && ev.write
    requires var slot := p.table[ev.fd]; slot.rxfxn.Some? && slot.txfxn.Some?
    ensures var slot := p.table[ev.fd];
            var read := Call(slot.rxfxn.value, ev.fd, slot.cbstate);
            var left := Wrote(p.table, effects(|p.calls|))[ev.fd];
            EventStep(p, effects, ev).calls ==
              p.calls + [read] + if left.txfxn.Some? then [Call(left.txfxn.value, ev.fd, left.cbstate)] else []
    ensures var slot := p.table[ev.fd];
            EventCalls(p.table, ev) ==
              [Call(slot.rxfxn.value, ev.fd, slot.cbstate), Call(slot.txfxn.value, ev.fd, slot.cbstate)]
  {
  }

  /** A batch is worked off from its end: what comes later in the vector is called first. */
  lemma {:induction false} BatchFromItsEnd(table: seq<Slot>, first: seq<Event>, second: seq<Event>)
    requires InTable(table, first + second) && InTable(table, first) && InTable(table, second)
    ensures BatchCalls(table, first + second) == BatchCalls(table, second) + BatchCalls(table, first)
    decreases |second|
  {
    if second == [] {
      assert first + second == first;
    } else {
      var n := |second| - 1;
      assert (first + second)[..|first| + n] == first + second[..n] && (first + second)[|first| + n] == second[n];
      FrontCalls(table, first + second);
      FrontCalls(table, second);
      BatchFromItsEnd(table, first, second[..n]);
      Regroup(EventCalls(table, second[n]), BatchCalls(table, second[..n]), BatchCalls(table, first));
    }
  }

  /** Of several writes to one entry the last stands. */
  lemma LastWriteStands(table: seq<Slot>, writes: seq<Write>, k: nat)
    requires k < |writes| && writes[k].fd < |table| && forall i :: k < i < |writes| ==> writes[i].fd != writes[k].fd
    ensures Wrote(table, writes)[writes[k].fd] == writes[k].slot
    decreases |writes|
  {
    if k < |writes| - 1 {
      LastWriteStands(table, writes[..|writes| - 1], k);
    }
  }

  // ---- The code, in place ---------------------------------------------------------------------

  /** What the queue was asked to watch a descriptor for, and the table entry that was in
      place at that moment: the one its events will find. */
  datatype Watch = Watch(interest: Interest, slot: Slot)

  class Dispatcher {
    const fdarray: array<Slot>
    /** The callbacks run so far. */
    var calls: seq<Call>
    var watched: map<Fd, Watch>

    ghost function Now(): Progress
      reads this, fdarray
    {
      Progress(fdarray[..], calls)
    }

    constructor (size: nat)
      ensures fdarray.Length == size && fresh(fdarray) && calls == [] && watched == map[]
      ensures forall i :: 0 <= i < size ==> fdarray[i] == Slot(None, None, 0)
    {
      fdarray := new Slot[size](_ => Slot(None, None, 0));
      calls, watched := [], map[];
    }

    method SetRx(n: nat, rx: Option<Callback>)
      requires n < fdarray.Length
      modifies fdarray
      ensures fdarray[..] == old(fdarray[..])[n := old(fdarray[n]).(rxfxn := rx)]
    {
      fdarray[n] := fdarray[n].(rxfxn := rx);
    }

    method SetTx(n: nat, tx: Option<Callback>)
      requires n < fdarray.Length
      modifies fdarray
      ensures fdarray[..] == old(fdarray[..])[n := old(fdarray[n]).(txfxn := tx)]
    {
      fdarray[n] := fdarray[n].(txfxn := tx);
    }

    /** setup_evsource() replaces all three fields of one entry, and only those. */
    method SetupSource(n: nat, rx: Option<Callback>, tx: Option<Callback>, v: CbState)
      requires n < fdarray.Length
      modifies fdarray
      ensures fdarray[..] == old(fdarray[..])[n := Slot(rx, tx, v)]
    {
      SetRx(n, rx);
      SetTx(n, tx);
      fdarray[n] := fdarray[n].(cbstate := v);
    }

    /** add_fd_event(): the queue is asked with the table as it is. `flags` says whether the
        caller passed only permitted flags and `ctl` whether EPOLL_CTL_ADD succeeds. */
    method AddFdEvent(fd: nat, rx: Option<Callback>, flags: bool, ctl: bool) returns (ok: bool)
      requires fd < fdarray.Length
      modifies this`watched
      ensures ok <==> flags && ctl
      ensures watched == if ok then old(watched)[fd := Watch(if rx.Some? then ForRead else ForWrite(true), fdarray[fd])]
                         else old(watched)
    {
      if !flags || !ctl {
        return false;
      }
      watched := watched[fd := Watch(if rx.Some? then ForRead else ForWrite(true), fdarray[fd])];
      return true;
    }

    /** add_fd_to_evhandler(): a descriptor beyond the table is refused untouched; otherwise
        the entry is written whether or not the queue then accepts the descriptor, and when
        the queue is asked the new entry is in place. */
    method AddFd(fd: nat, rx: Option<Callback>, tx: Option<Callback>, v: CbState, flags: bool, ctl: bool)
      returns (ok: bool)
      modifies this`watched, fdarray
      ensures ok <==> fd < fdarray.Length && flags && ctl
      ensures fd >= fdarray.Length ==> fdarray[..] == old(fdarray[..])
      ensures fd < fdarray.Length ==> fdarray[..] == old(fdarray[..])[fd := Slot(rx, tx, v)]
      ensures watched == if ok then old(watched)[fd := Watch(if rx.Some? then ForRead else ForWrite(true), Slot(rx, tx, v))]
                         else old(watched)
    {
      if fd >= fdarray.Length {
        return false;
      }
      SetupSource(fd, rx, tx, v);
      ok := AddFdEvent(fd, rx, flags, ctl);
    }

    /** A callback runs, and writes what it writes. */
    method RunCallback(call: Call, effects: Effects)
      modifies this`calls, fdarray
      ensures Now() == Ran(old(Now()), effects, call)
    {
      var writes := effects(|calls|);
      ghost var start := fdarray[..];
      assert writes[..0] == [];
      var k := 0;
      while k < |writes|
        invariant 0 <= k <= |writes| && calls == old(calls)
        invariant fdarray[..] == Wrote(start, writes[..k])
      {
        assert writes[..k + 1][..k] == writes[..k];
        var w := writes[k];
        if w.fd < fdarray.Length {
          fdarray[w.fd] := w.slot;
        }
        k := k + 1;
      }
      assert writes[..k] == writes;
      calls := calls + [call];
    }

    method HandleRead(n: nat, effects: Effects)
      requires n < fdarray.Length
      modifies this`calls, fdarray
      ensures Now() == ReadStep(old(Now()), effects, n)
    {
      if fdarray[n].rxfxn.Some? {
        RunCallback(Call(fdarray[n].rxfxn.value, n, fdarray[n].cbstate), effects);
      }
    }

    method HandleWrite(n: nat, effects: Effects)
      requires n < fdarray.Length
      modifies this`calls, fdarray
      ensures Now() == WriteStep(old(Now()), effects, n)
    {
      if fdarray[n].txfxn.Some? {
        RunCallback(Call(fdarray[n].txfxn.value, n, fdarray[n].cbstate), effects);
      }
    }

    method HandleEvent(ev: Event, effects: Effects)
      requires ev.fd < fdarray.Length
      modifies this`calls, fdarray
      ensures Now() == EventStep(old(Now()), effects, ev)
    {
      if ev.read {
        HandleRead(ev.fd, effects);
      }
      if ev.write {
        HandleWrite(ev.fd, effects);
      }
    }

    /** The inner loop of event_thread(): counts the batch down to nothing. */
    method HandleBatch(events: seq<Event>, effects: Effects)
      requires InTable(fdarray[..], events)
      modifies this`calls, fdarray
      ensures Now() == BatchRun(old(Now()), effects, events)
    {
      var n := |events|;
      assert events[..n] == events;
      while n > 0
        invariant 0 <= n <= |events|
        invariant BatchRun(Now(), effects, events[..n]) == BatchRun(old(Now()), effects, events)
      {
        n := n - 1;
        assert events[..n + 1][..n] == events[..n] && events[..n + 1][n] == events[n];
        HandleEvent(events[n], effects);
      }
    }
  }

  // ---- How the loop meets the protocol ---------------------------------------------------

  /** What the protocol needs to know of the table; registrations are numbered by
      their callback state. */
  function Sources(table: seq<Slot>): map<Fd, Source> {
    map fd: nat | fd < |table| :: Source(table[fd].rxfxn.Some?, table[fd].txfxn.Some?, table[fd].cbstate)
  }

  /** With a single callback registered, an event runs at most one callback, and
      runs it exactly when the protocol's Dispatch step starts a handler, with that
      registration's state. */
  lemma SingleCallbackDispatch(table: seq<Slot>, ev: Event)
    requires ev.fd < |table| && table[ev.fd].rxfxn.Some? != table[ev.fd].txfxn.Some?
    ensures |EventCalls(table, ev)| == if Called(Sources(table), ev).Some? then 1 else 0
    ensures Called(Sources(table), ev).Some? ==>
              && EventCalls(table, ev)[0].fd == Called(Sources(table), ev).value.fd
              && EventCalls(table, ev)[0].cbstate == Called(Sources(table), ev).value.reg
  {
  }

  /** A registration is only made of a descriptor the queue does not know, and so never of
      one with an event in a batch: the protocol leaves the batches undisturbed. */
  lemma SetupSparesBatches(s: State, fd: Fd, rx: bool, t: nat, j: nat)
    requires Inv(s) && Enabled(s, Setup(fd, rx)) && t < |s.workers| && j < |s.workers[t].batch|
    ensures s.workers[t].batch[j].fd != fd
    ensures var ev := s.workers[t].batch[j];
            ev.fd in s.table && Apply(s, Setup(fd, rx)).table[ev.fd] == s.table[ev.fd]
  {
    assert EventOk(s, s.workers[t].batch[j]);
  }

  predicate Registers(run: seq<Step>, fd: Fd) {
    exists k :: 0 <= k < |run| && run[k].Setup? && run[k].fd == fd
  }

  /** The thread does not go on to its next event meanwhile. */
  predicate StaysWith(run: seq<Step>, t: nat) {
    forall k :: 0 <= k < |run| ==> run[k] != Dispatch(t) && run[k] != Quit(t)
  }

  lemma BatchStays(s: State, e: Step, t: nat)
    requires Enabled(s, e) && t < |s.workers| && s.workers[t].batch != [] && e != Dispatch(t) && e != Quit(t)
    ensures |Apply(s, e).workers| == |s.workers| && Apply(s, e).workers[t].batch == s.workers[t].batch
  {
    if !(ByThread(e) && e.t == t) {
      OthersKept(s, e, t);
    }
  }

  /** Whatever all threads and the application register while a thread is busy with one event,
      it is none of the descriptors in the rest of its batch. */
  lemma {:induction false} RegistrationsSpareBatch(s: State, run: seq<Step>, t: nat, j: nat, fd: Fd)
    requires Inv(s) && ValidRun(s, run) && StaysWith(run, t)
    requires t < |s.workers| && j < |s.workers[t].batch| && Registers(run, fd)
    ensures s.workers[t].batch[j].fd != fd
    decreases |run|
  {
    var e := run[0];
    if e.Setup? && e.fd == fd {
      SetupSparesBatches(s, fd, e.rx, t, j);
    } else {
      StepKeepsInv(s, e);
      BatchStays(s, e, t);
      var k :| 0 <= k < |run| && run[k].Setup? && run[k].fd == fd;
      assert run[1..][k - 1] == run[k];
      RegistrationsSpareBatch(Apply(s, e), run[1..], t, j, fd);
    }
  }

  /** What callbacks write while an event is handled has been registered meanwhile. */
  predicate WritesRegistered(p: Progress, effects: Effects, ev: Event, run: seq<Step>)
    requires ev.fd < |p.table|
  {
    forall k, i :: |p.calls| <= k < |EventStep(p, effects, ev).calls| && 0 <= i < |effects(k)| ==> Registers(run, effects(k)[i].fd)
  }

  /** Thread `t` works off these events in the protocol, starting from state `s`: `runs` is what
      happens, in all threads, after each of them is taken from the batch. */
  ghost predicate Follows(s: State, t: nat, p: Progress, effects: Effects, events: seq<Event>, runs: seq<seq<Step>>)
    requires InTable(p.table, events) && |runs| == |events|
    decreases |events|
  {
    events == [] ||
    (var n := |events| - 1;
     && Inv(s) && t < |s.workers| && s.workers[t].batch == events && s.workers[t].active.None?
     && StaysWith(runs[n], t) && WritesRegistered(p, effects, events[n], runs[n])
     && var s1 := Apply(s, Dispatch(t));
     && ValidRun(s1, runs[n])
     && Follows(After(s1, runs[n]), t, EventStep(p, effects, events[n]), effects, events[..n], runs[..n]))
  }

  lemma {:induction false} WroteElsewhere(table: seq<Slot>, writes: seq<Write>, fd: nat)
    requires fd < |table| && forall i :: 0 <= i < |writes| ==> writes[i].fd != fd
    ensures Wrote(table, writes)[fd] == table[fd]
  {
    if writes != [] {
      WroteElsewhere(table, writes[..|writes| - 1], fd);
    }
  }

  lemma EventStepElsewhere(p: Progress, effects: Effects, ev: Event, fd: nat)
    requires ev.fd < |p.table| && fd < |p.table|
    requires forall k, i :: |p.calls| <= k < |EventStep(p, effects, ev).calls| && 0 <= i < |effects(k)| ==> effects(k)[i].fd != fd
    ensures EventStep(p, effects, ev).table[fd] == p.table[fd]
  {
    var q := if ev.read then ReadStep(p, effects, ev.fd) else p;
    if q != p {
      WroteElsewhere(p.table, effects(|p.calls|), fd);
    }
    if ev.write && q.table[ev.fd].txfxn.Some? {
      WroteElsewhere(q.table, effects(|q.calls|), fd);
    }
  }

  /** The protocol leaves every batch undisturbed. */
  lemma {:induction false} ProtocolUndisturbed(s: State, t: nat, p: Progress, effects: Effects, events: seq<Event>, runs: seq<seq<Step>>)
    requires InTable(p.table, events) && |runs| == |events| && Follows(s, t, p, effects, events, runs)
    ensures Undisturbed(p, effects, events)
    decreases |events|
  {
    if events != [] {
      var n := |events| - 1;
      HandlingSpares(s, t, p, effects, events, runs[n]);
      ProtocolUndisturbed(After(Apply(s, Dispatch(t)), runs[n]), t, EventStep(p, effects, events[n]), effects, events[..n], runs[..n]);
    }
  }

  /** While one event is handled the entries of the events after it stay as they are. */
  lemma HandlingSpares(s: State, t: nat, p: Progress, effects: Effects, events: seq<Event>, run: seq<Step>)
    requires events != [] && InTable(p.table, events)
    requires Inv(s) && t < |s.workers| && s.workers[t].batch == events && s.workers[t].active.None?
    requires StaysWith(run, t) && WritesRegistered(p, effects, events[|events| - 1], run) && ValidRun(Apply(s, Dispatch(t)), run)
    ensures Agree(p.table, EventStep(p, effects, events[|events| - 1]).table, events[..|events| - 1])
  {
    var n, s1 := |events| - 1, Apply(s, Dispatch(t));
    StepKeepsInv(s, Dispatch(t));
    assert s1.workers[t].batch == events[..n];
    forall i | 0 <= i < n
      ensures p.table[events[..n][i].fd] == EventStep(p, effects, events[n]).table[events[..n][i].fd]
    {
      WritesSpare(s1, t, p, effects, events[n], run, i);
      EventStepElsewhere(p, effects, events[n], events[i].fd);
    }
  }

  lemma WritesSpare(s: State, t: nat, p: Progress, effects: Effects, ev: Event, run: seq<Step>, j: nat)
    requires Inv(s) && ValidRun(s, run) && StaysWith(run, t) && t < |s.workers| && j < |s.workers[t].batch|
    requires ev.fd < |p.table| && WritesRegistered(p, effects, ev, run)
    ensures forall k, i :: |p.calls| <= k < |EventStep(p, effects, ev).calls| && 0 <= i < |effects(k)| ==>
              effects(k)[i].fd != s.workers[t].batch[j].fd
  {
    forall k, i | |p.calls| <= k < |EventStep(p, effects, ev).calls| && 0 <= i < |effects(k)|
      ensures effects(k)[i].fd != s.workers[t].batch[j].fd
    {
      RegistrationsSpareBatch(s, run, t, j, effects(k)[i].fd);
    }
  }

  /** So, whatever callbacks register while a batch is worked off, its calls are those of the
      table it started with. */
  lemma ProtocolRunsOldTable(s: State, t: nat, p: Progress, effects: Effects, events: seq<Event>, runs: seq<seq<Step>>)
    requires InTable(p.table, events) && |runs| == |events| && Follows(s, t, p, effects, events, runs)
    requires OneCallEach(p.table, events)
    ensures BatchRun(p, effects, events).calls == p.calls + BatchCalls(p.table, events)
  {
    ProtocolUndisturbed(s, t, p, effects, events, runs);
    BatchRunsOldTable(p, effects, events);
  }

  predicate Mentions(events: seq<Event>, fd: Fd) {
    exists k :: 0 <= k < |events| && events[k].fd == fd
  }

  predicate OnlyMentioned(calls: seq<Call>, events: seq<Event>) {
    forall i :: 0 <= i < |calls| ==> Mentions(events, calls[i].fd)
  }

  predicate NoneTwice(calls: seq<Call>) {
    forall i, j :: 0 <= i < j < |calls| ==> calls[i].fd != calls[j].fd
  }

  /** Within a batch of distinct single-callback descriptors no descriptor is called
      twice, and none is called that the batch does not mention. */
  lemma {:induction false} BatchCallsOnce(table: seq<Slot>, events: seq<Event>)
    requires InTable(table, events)
    requires SingleCallbacks(table, events)
    requires forall i, j :: 0 <= i < j < |events| ==> events[i].fd != events[j].fd
    ensures OnlyMentioned(BatchCalls(table, events), events)
    ensures NoneTwice(BatchCalls(table, events))
  {
    if events != [] {
      var n := |events| - 1;
      var front := events[..n];
      BatchCallsOnce(table, front);
      var first := EventCalls(table, events[n]);
      var rest := BatchCalls(table, front);
      assert forall i :: 0 <= i < |first| ==> first[i].fd == events[n].fd;
      forall i | 0 <= i < |rest|
        ensures Mentions(events, rest[i].fd) && rest[i].fd != events[n].fd
      {
        assert Mentions(front, rest[i].fd);
        var k :| 0 <= k < |front| && front[k].fd == rest[i].fd;
        assert events[k].fd == rest[i].fd;
      }
      assert |first| <= 1 && BatchCalls(table, events) == first + rest;
    }
  }
}
