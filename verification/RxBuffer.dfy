/** The receive buffer and the loop that fills it (buffers.h, buffers.c). */
module RxBuffer {
  import opened Common

  type byte = x: int | 0 <= x < 256

  /** Why the inner callback is run: no room left, nothing more to read for now, or
      the end of the file. */
  datatype Reason = Full | Drained | AtEof

  /** What read() returns: bytes, end of file, EAGAIN, EINTR or another error. */
  datatype Reply = Data(bytes: seq<byte>) | Eof | Again | Intr | Fail

  /** What buffered_rxfxn() does, in the order it happens. `Enter` is the start of an
      activation; `shown` is what rxbuffer_valid() offers the callback; `keeps` is its
      nonzero return. */
  datatype Action =
    | Enter
    | Read(space: nat, result: Reply)
    | Callback(why: Reason, shown: seq<byte>, released: nat, keeps: bool)
    | Grow(from: nat, ok: bool)
    | Rearm(interest: Interest, ok: bool)
    | CloseFd

  // ---- The conduct expected -------------------------------------------------------------

  predicate AfterRead(last: Option<Action>) { last.Some? && last.value.Read? }

  /** The callback for this reason has returned zero. */
  predicate AfterCallback(last: Option<Action>, why: Reason) {
    last.Some? && last.value.Callback? && last.value.why == why && !last.value.keeps
  }

  /** A new activation can begin: the descriptor was re-armed, by the last activation
      or by the callback that kept it. */
  predicate CanEnter(last: Option<Action>) {
    last.None? || (last.value.Rearm? && last.value.ok) || (last.value.Callback? && last.value.keeps)
  }

  /** At the head of the loop: just entered, or the last read brought bytes or was
      interrupted, and `space` is the room it left. */
  predicate AtHead(last: Option<Action>, space: int) {
    && last.Some?
    && (|| last.value.Enter?
        || (last.value.Read? && last.value.result.Intr? && space == last.value.space)
        || (last.value.Read? && last.value.result.Data? && space == last.value.space - |last.value.result.bytes|))
  }

  /** A read() of `space` bytes can come next. */
  predicate ReadyToRead(last: Option<Action>, space: int) {
    || AtHead(last, space)
    || AfterCallback(last, Full)
    || (last.Some? && last.value.Grow? && last.value.ok && last.value.from == space)
  }

  /** `next` may come right after `last` when `inHand` are the bytes read and not yet
      released. Every action lists the only situations it is allowed in. */
  predicate MayFollow(inHand: seq<byte>, last: Option<Action>, next: Action) {
    match next
    case Enter => CanEnter(last)
    case Read(space, result) =>
      // A read always asks for something, and for exactly the room there is.
      && space > 0
      && (result.Data? ==> 0 < |result.bytes| <= space)
      && ReadyToRead(last, space)
    case Callback(why, shown, released, _) =>
      && shown == inHand && released <= |shown|
      && (match why
          case Full => shown != [] && AtHead(last, 0)
          case Drained => shown != [] && AfterRead(last) && last.value.result.Again?
          case AtEof => AfterRead(last) && last.value.result.Eof?)
    case Grow(_, _) => AfterCallback(last, Full) && last.value.released == 0
    case Rearm(interest, _) =>
      if interest.ForRead? then
        (AfterRead(last) && last.value.result.Again? && inHand == []) || AfterCallback(last, Drained)
      else !interest.urgent && AfterCallback(last, AtEof)
    case CloseFd =>
      && last.Some?
      && (|| (last.value.Read? && last.value.result.Fail?)
          || (last.value.Grow? && !last.value.ok)
          || (last.value.Rearm? && !last.value.ok))
  }

  function Last(log: seq<Action>): Option<Action> {
    if log == [] then None else Some(log[|log| - 1])
  }

  /** The bytes in hand after an action. */
  function InHand(inHand: seq<byte>, a: Action): seq<byte> {
    if a.Read? && a.result.Data? then inHand + a.result.bytes
    else if a.Callback? && a.released <= |inHand| then inHand[a.released..]
    else inHand
  }

  /** The bytes in hand after a whole history, or None if some action was out of
      place. */
  function Conduct(log: seq<Action>): Option<seq<byte>> {
    if log == [] then Some([])
    else
      var front := log[..|log| - 1];
      var a := log[|log| - 1];
      var before := Conduct(front);
      if before.Some? && MayFollow(before.value, Last(front), a) then Some(InHand(before.value, a)) else None
  }

  lemma {:induction false} ConductExtends(log: seq<Action>, next: Action)
    requires Conduct(log).Some? && MayFollow(Conduct(log).value, Last(log), next)
    ensures Conduct(log + [next]) == Some(InHand(Conduct(log).value, next))
  {
    assert (log + [next])[..|log|] == log;
  }

  lemma {:induction false} ConductAt(log: seq<Action>, k: nat)
    requires Conduct(log).Some? && k < |log|
    ensures Conduct(log[..k]).Some?
    ensures MayFollow(Conduct(log[..k]).value, if k == 0 then None else Some(log[k - 1]), log[k])
  {
    var front := log[..|log| - 1];
    if k < |front| {
      ConductAt(front, k);
      assert front[..k] == log[..k];
    } else {
      assert log[..k] == front;
    }
  }

  // ---- What the conduct guarantees ----------------------------------------------------------

  /** Bytes read() has returned, in order. */
  function Delivered(log: seq<Action>): seq<byte> {
    if log == [] then []
    else
      var a := log[|log| - 1];
      Delivered(log[..|log| - 1]) + if a.Read? && a.result.Data? then a.result.bytes else []
  }

  /** Bytes the callback has released, in order. */
  function Released(log: seq<Action>): seq<byte> {
    if log == [] then []
    else
      var a := log[|log| - 1];
      Released(log[..|log| - 1]) + if a.Callback? && a.released <= |a.shown| then a.shown[..a.released] else []
  }

  /** The buffer is a first-in first-out stream: over any number of activations the
      bytes released, followed by the bytes in hand, are exactly the bytes read. */
  lemma {:induction false} StreamIsFifo(log: seq<Action>)
    requires Conduct(log).Some?
    ensures Delivered(log) == Released(log) + Conduct(log).value
  {
    if log != [] {
      var front := log[..|log| - 1];
      var a := log[|log| - 1];
      StreamIsFifo(front);
      var before := Conduct(front).value;
      if a.Callback? {
        assert before == before[..a.released] + before[a.released..];
      }
    }
  }

  /** The action gives the descriptor up. */
  predicate GivesUp(a: Action) {
    (a.Rearm? && a.ok) || a.CloseFd? || (a.Callback? && a.keeps)
  }

  /** Each activation gives the descriptor up exactly once and touches nothing after:
      what follows giving up is a new activation, and only a re-arm, or a callback that
      kept the descriptor, is ever followed by one. */
  lemma {:induction false} GivesUpOnce(log: seq<Action>, k: nat)
    requires Conduct(log).Some? && 0 < k < |log|
    ensures GivesUp(log[k - 1]) <==> log[k].Enter?
    ensures !log[k - 1].CloseFd?
  {
    ConductAt(log, k);
  }

  /** Every read() asks for at least one byte, so a result of zero is the end of the
      file and nothing else. */
  lemma {:induction false} ReadsAskForBytes(log: seq<Action>, k: nat)
    requires Conduct(log).Some? && k < |log| && log[k].Read?
    ensures log[k].space > 0
    ensures log[k].result.Data? ==> 0 < |log[k].result.bytes| <= log[k].space
  {
    ConductAt(log, k);
  }

  /** The buffer grows only right after a callback that was run on a full buffer and
      released nothing, and the room gained is exactly what the next read asks for. */
  lemma {:induction false} GrowsOnlyWhenNothingReleased(log: seq<Action>, k: nat)
    requires Conduct(log).Some? && k < |log| && log[k].Grow?
    ensures k > 0 && log[k - 1].Callback? && log[k - 1].why.Full? && log[k - 1].released == 0
    ensures log[k - 1].shown != [] && Conduct(log[..k - 1]) == Some(log[k - 1].shown)
    ensures log[k].ok && k + 1 < |log| ==> log[k + 1].Read? && log[k + 1].space == log[k].from
  {
    ConductAt(log, k);
    ConductAt(log, k - 1);
    if k + 1 < |log| {
      ConductAt(log, k + 1);
    }
  }

  /** Before re-arming for reading, every byte in hand has been shown to the callback;
      re-arming for writing happens only after the end of the file was shown to it. */
  lemma {:induction false} NothingWithheld(log: seq<Action>, k: nat)
    requires Conduct(log).Some? && k < |log| && log[k].Rearm?
    ensures k > 0
    ensures log[k].interest.ForRead? && log[k - 1].Read? ==> log[k - 1].result.Again? && Conduct(log[..k]) == Some([])
    ensures !log[k - 1].Read? ==> log[k - 1].Callback? && Conduct(log[..k - 1]) == Some(log[k - 1].shown)
    ensures log[k].interest.ForWrite? ==> k > 1 && log[k - 1].Callback? && log[k - 2].Read? && log[k - 2].result.Eof?
  {
    ConductAt(log, k);
    ConductAt(log, k - 1);
  }

  // ---- The environment ------------------------------------------------------------------------

  datatype Outcome = StillReading | Rearmed(interest: Interest) | Closed | Kept

  /** How the last action decides the outcome. */
  predicate Concludes(last: Option<Action>, outcome: Outcome) {
    && last.Some?
    && match outcome
       case Rearmed(interest) => last.value == Rearm(interest, true)
       case Closed => last.value.CloseFd?
       case Kept => last.value.Callback? && last.value.keeps
       case StillReading =>
         last.value.Enter? || (last.value.Read? && (last.value.result.Data? || last.value.result.Intr?))
  }

  /** What a callback does: the amounts it passes to rxbuffer_advance(), in order,
      each cut to what rxbuffer_valid() shows, and whether it returns nonzero. */
  datatype Behaviour = Behaviour(advances: seq<nat>, keeps: bool)

  /** Everything the outside decides in one round of the loop: the callback on a full
      buffer, whether mod_pages() succeeds, what read() returns, the callback after it,
      and whether epoll_ctl() succeeds. Of the bytes named, as many are read as there
      is room for, and at least one. */
  datatype Round = Round(full: Behaviour, grows: bool, first: byte, reply: Reply, after: Behaviour, rearms: bool)

  /** How much a callback that makes these releases takes from what is available. */
  function Taken(advances: seq<nat>, available: nat): (r: nat)
    ensures r <= available
  {
    if advances == [] then 0
    else
      var s := if advances[0] <= available then advances[0] else available;
      s + Taken(advances[1..], available - s)
  }

  /** What read() of `space` bytes returns in this round. */
  function ReplyIn(round: Round, space: nat): Reply {
    if round.reply.Data? then
      var data := [round.first] + round.reply.bytes;
      Data(if |data| > space then data[..space] else data)
    else round.reply
  }

  /** The action turned out as the outside decided it for this round. */
  predicate Answers(round: Round, a: Action) {
    match a
    case Enter => false
    case Read(space, result) => result == ReplyIn(round, space)
    case Callback(why, shown, released, keeps) =>
      var b := if why.Full? then round.full else round.after;
      released == Taken(b.advances, |shown|) && keeps == b.keeps
    case Grow(from, ok) => ok == (round.grows && 2 * from < MAP_LIMIT)
    case Rearm(_, ok) => ok == round.rearms
    case CloseFd => true
  }

  /** The actions of one round: as the outside decided, with one read() at most. */
  predicate InRound(round: Round, part: seq<Action>) {
    && (forall k :: 0 <= k < |part| ==> Answers(round, part[k]))
    && (forall j, k :: 0 <= j < k < |part| ==> !(part[j].Read? && part[k].Read?))
  }

  /** Actions of a round other than its read(). */
  predicate Beside(round: Round, part: seq<Action>) {
    forall k :: 0 <= k < |part| ==> Answers(round, part[k]) && !part[k].Read?
  }

  /** What giving the descriptor back comes to. */
  function Back(interest: Interest, ok: bool): seq<Action> {
    [Rearm(interest, ok)] + if ok then [] else [CloseFd]
  }

  lemma BesideBack(round: Round, head: seq<Action>, interest: Interest)
    requires Beside(round, head)
    ensures Beside(round, head + Back(interest, round.rearms))
  {
  }

  lemma OneRead(round: Round, head: seq<Action>, read: Action, tail: seq<Action>)
    requires Beside(round, head) && Answers(round, read) && read.Read? && Beside(round, tail)
    ensures InRound(round, head + [read] + tail) && (tail == [] ==> GoesOn(head + [read] + tail))
  {
  }

  lemma NoRead(round: Round, head: seq<Action>)
    requires Beside(round, head)
    ensures InRound(round, head)
  {
  }

  /** A round after which the loop goes on ends in its read(). */
  predicate GoesOn(part: seq<Action>) {
    part != [] && part[|part| - 1].Read?
  }

  function Joined(parts: seq<seq<Action>>): seq<Action> {
    if parts == [] then [] else Joined(parts[..|parts| - 1]) + parts[|parts| - 1]
  }

  /** The parts are the rounds of the schedule, one after another; all but the last go on,
      and the last as well if `goesOn`. */
  predicate Rounds(schedule: seq<Round>, parts: seq<seq<Action>>, goesOn: bool) {
    && |parts| <= |schedule|
    && (forall i :: 0 <= i < |parts| ==> InRound(schedule[i], parts[i]))
    && (forall i :: 0 <= i < |parts| - 1 ==> GoesOn(parts[i]))
    && (goesOn && parts != [] ==> GoesOn(parts[|parts| - 1]))
  }

  lemma RoundsExtend(schedule: seq<Round>, parts: seq<seq<Action>>, part: seq<Action>, goesOn: bool)
    requires Rounds(schedule, parts, true) && |parts| < |schedule|
    requires InRound(schedule[|parts|], part) && (goesOn ==> GoesOn(part))
    ensures Rounds(schedule, parts + [part], goesOn)
  {
  }

  lemma JoinedExtend(log: seq<Action>, parts: seq<seq<Action>>, part: seq<Action>)
    ensures log + Joined(parts + [part]) == log + Joined(parts) + part
  {
    assert (parts + [part])[..|parts|] == parts;
    Regroup(log, Joined(parts), part);
  }

  lemma RegroupFour(a: seq<Action>, b: seq<Action>, c: seq<Action>, d: seq<Action>)
    ensures a + b + c + d == a + (b + c + d)
  {
  }

  lemma Regroup(a: seq<Action>, b: seq<Action>, c: seq<Action>)
    ensures a + b + c == a + (b + c)
  {
  }

  // ---- The buffer ------------------------------------------------------------------------------

  /** Number of values of a size_t, and the bound on what can be mapped: no mapping takes
      half of them. */
  const SIZE_VALUES: nat := 0x1_0000_0000_0000_0000
  const MAP_LIMIT: nat := 0x8000_0000_0000_0000

  datatype Offsets = Offsets(off: int, ate: int)

  predicate InRange(tot: nat, o: Offsets) {
    0 <= o.ate <= o.off <= tot && o.ate < tot
  }

  /** The offsets rxbuffer_advance() leaves. A negative one stands for a length that has
      wrapped around. */
  function Advanced(tot: nat, o: Offsets, s: nat): Offsets {
    if o.ate + s == tot then Offsets(0, 0)
    else if o.off == tot then Offsets(o.off - (o.ate + s), 0)
    else Offsets(o.off, o.ate + s)
  }

  /** rxbuffer_advance() checks nothing. A release leaves the offsets in order if and only if
      it is no larger than the window, or happens to end at the very end of the buffer. */
  lemma AdvanceInRangeIff(tot: nat, o: Offsets, s: nat)
    requires InRange(tot, o)
    ensures InRange(tot, Advanced(tot, o, s)) <==> s <= o.off - o.ate || o.ate + s == tot
  {
  }

  /** A release of three bytes from a window of two in a buffer of four. */
  lemma ReleasePastWindow()
    ensures InRange(4, Offsets(2, 0)) && Advanced(4, Offsets(2, 0), 3) == Offsets(2, 3) && !InRange(4, Offsets(2, 3))
  {
  }

  class RxBuf {
    var buffer: array<byte>      // buftot is its length
    var bufoff: nat              // how far the buffer has been written
    var bufate: nat              // how far the client has released it
    ghost var log: seq<Action>   // all that has happened to this buffer

    ghost predicate InBounds()
      reads this
    {
      bufate <= bufoff <= buffer.Length && bufate < buffer.Length < MAP_LIMIT
    }

    /** rxbuffer_valid() */
    function Window(): seq<byte>
      requires InBounds()
      reads this, buffer
    {
      buffer[bufate..bufoff]
    }

    /** Everything so far was in its place, and the window holds the bytes in hand. */
    ghost predicate Valid()
      reads this, buffer
    {
      InBounds() && Conduct(log) == Some(Window())
    }

    /** initialize_rxbuffer(), given a page of positive size. */
    constructor (page: nat)
      requires 0 < page < MAP_LIMIT
      ensures Valid() && Window() == [] && buffer.Length == page && log == [] && fresh(buffer)
    {
      buffer := new byte[page](_ => 0);
      bufoff, bufate, log := 0, 0, [];
    }

    /** rxbuffer_advance(): drops `s` bytes from the front of the window, or all of it, and
        makes room whenever the buffer was full and anything at all has been released. */
    method Advance(s: nat)
      requires InBounds() && InRange(buffer.Length, Advanced(buffer.Length, Offsets(bufoff, bufate), s))
      modifies this`bufoff, this`bufate, buffer
      ensures InBounds() && Offsets(bufoff, bufate) == Advanced(buffer.Length, Offsets(old(bufoff), old(bufate)), s)
      ensures Window() == if s <= |old(Window())| then old(Window())[s..] else []
      ensures bufoff == buffer.Length <==> old(bufoff) == buffer.Length && s == 0 && old(bufate) == 0
    {
      bufate := bufate + s;
      if bufate == buffer.Length {
        bufoff, bufate := 0, 0;
      } else if bufoff == buffer.Length {
        forall i | 0 <= i < bufoff - bufate {
          buffer[i] := buffer[bufate + i];
        }
        bufoff := bufoff - bufate;
        bufate := 0;
      }
    }

    /** One release, cut to what there is. */
    method AdvanceUpTo(most: nat) returns (s: nat)
      requires InBounds()
      modifies this`bufoff, this`bufate, buffer
      ensures InBounds() && s == (if most <= |old(Window())| then most else |old(Window())|)
      ensures Window() == old(Window())[s..]
      ensures bufoff == buffer.Length <==> old(bufoff) == buffer.Length && s == 0 && old(bufate) == 0
    {
      s := if most <= bufoff - bufate then most else bufoff - bufate;
      Advance(s);
    }

    /** Releases, one after another. */
    method Release(advances: seq<nat>) returns (released: nat)
      requires InBounds()
      modifies this`bufoff, this`bufate, buffer
      ensures InBounds() && released == Taken(advances, |old(Window())|) && Window() == old(Window())[released..]
      ensures old(bufoff) < buffer.Length ==> bufoff < buffer.Length
      ensures bufoff == buffer.Length ==> released == 0
      decreases |advances|
    {
      if advances == [] {
        return 0;
      }
      ghost var w := Window();
      var s := AdvanceUpTo(advances[0]);
      var rest := Release(advances[1..]);
      released := s + rest;
      assert Window() == w[s..][rest..] == w[released..];
    }

    /** The inner callback: any sequence of releases. */
    method RunCallback(b: Behaviour) returns (released: nat)
      requires InBounds()
      modifies this`bufoff, this`bufate, buffer
      ensures InBounds() && released == Taken(b.advances, |old(Window())|) && Window() == old(Window())[released..]
      ensures old(bufoff) < buffer.Length ==> bufoff < buffer.Length
      ensures bufoff == buffer.Length ==> released == 0
    {
      released := Release(b.advances);
    }

    /** growrxbuf(): mod_pages() keeps the old contents or fails. Doubling a size_t does not
        wrap around, because what is doubled has been mapped. */
    method GrowBuffer(ok: bool) returns (grown: bool)
      requires InBounds()
      modifies this`buffer
      ensures InBounds() && Window() == old(Window())
      ensures grown <==> ok && 2 * old(buffer.Length) < MAP_LIMIT
      ensures if grown then buffer.Length == 2 * old(buffer.Length) && fresh(buffer) else buffer == old(buffer)
    {
      var news := (buffer.Length * 2) % SIZE_VALUES;
      grown := ok && news < MAP_LIMIT;
      if grown {
        var old_ := buffer;
        var tmp := new byte[news];
        forall i | 0 <= i < old_.Length {
          tmp[i] := old_[i];
        }
        buffer := tmp;
        assert buffer[..old_.Length] == old_[..];
      }
    }

    /** read() into the free end of the buffer. */
    method Fill(data: seq<byte>)
      requires InBounds() && |data| <= buffer.Length - bufoff
      modifies this`bufoff, buffer
      ensures InBounds() && bufoff == old(bufoff) + |data| && Window() == old(Window()) + data
    {
      forall i | 0 <= i < |data| {
        buffer[bufoff + i] := data[i];
      }
      bufoff := bufoff + |data|;
    }

    /** Runs the inner callback and records it. */
    method Consult(why: Reason, b: Behaviour) returns (released: nat)
      requires Valid() && MayFollow(Window(), Last(log), Callback(why, Window(), 0, b.keeps))
      modifies this`bufoff, this`bufate, this`log, buffer
      ensures Valid() && log == old(log) + [Callback(why, old(Window()), released, b.keeps)]
      ensures released == Taken(b.advances, |old(Window())|)
      ensures old(bufoff) < buffer.Length ==> bufoff < buffer.Length
      ensures bufoff == buffer.Length ==> released == 0
    {
      ghost var shown := Window();
      released := RunCallback(b);
      ghost var action := Callback(why, shown, released, b.keeps);
      ConductExtends(log, action);
      log := log + [action];
    }

    /** Records an action that leaves the bytes in hand as they are. */
    ghost method Note(action: Action)
      requires Valid() && !action.Callback? && !(action.Read? && action.result.Data?)
      requires MayFollow(Window(), Last(log), action)
      modifies this`log
      ensures Valid() && log == old(log) + [action]
    {
      ConductExtends(log, action);
      log := log + [action];
    }

    /** A read() that returns bytes. */
    method Receive(round: Round)
      requires Valid() && bufoff < buffer.Length && ReadyToRead(Last(log), buffer.Length - bufoff)
      requires round.reply.Data?
      modifies this`bufoff, this`log, buffer
      ensures Valid()
      ensures log == old(log) + [Read(buffer.Length - old(bufoff), ReplyIn(round, buffer.Length - old(bufoff)))]
      ensures AtHead(Last(log), buffer.Length - bufoff)
    {
      var space := buffer.Length - bufoff;
      var data := [round.first] + round.reply.bytes;
      if |data| > space {
        data := data[..space];
      }
      ghost var action := Read(space, Data(data));
      ConductExtends(log, action);
      Fill(data);
      log := log + [action];
    }

    /** Grows the buffer and records it. */
    method Enlarge(round: Round) returns (grown: bool)
      requires Valid() && bufoff == buffer.Length && MayFollow(Window(), Last(log), Grow(buffer.Length, true))
      modifies this`buffer, this`log
      ensures Valid() && (buffer == old(buffer) || fresh(buffer)) && bufoff == old(buffer.Length)
      ensures log == old(log) + [Grow(old(buffer.Length), grown)] && Answers(round, Grow(old(buffer.Length), grown))
      ensures grown ==> buffer.Length == 2 * bufoff
    {
      ghost var from := buffer.Length;
      grown := GrowBuffer(round.grows);
      Note(Grow(from, grown));
    }

    /** The head of the loop body: on a full buffer the callback is run, and the buffer
        grown if that made no room. None means the activation goes on to read. */
    method MakeRoom(round: Round) returns (done: Option<Outcome>, ghost head: seq<Action>)
      requires Valid() && AtHead(Last(log), buffer.Length - bufoff)
      modifies this, buffer
      ensures Valid() && (buffer == old(buffer) || fresh(buffer))
      ensures log == old(log) + head && Beside(round, head)
      ensures done.Some? ==> !done.value.StillReading? && Concludes(Last(log), done.value)
      ensures done.None? ==> bufoff < buffer.Length && ReadyToRead(Last(log), buffer.Length - bufoff)
    {
      head := [];
      if buffer.Length - bufoff == 0 {
        if bufoff - bufate != 0 {
          var released := Consult(Full, round.full);
          head := [log[|log| - 1]];
          if round.full.keeps {
            return Some(Kept), head;
          }
        }
        if buffer.Length - bufoff == 0 {
          var grown := Enlarge(round);
          head := head + [log[|log| - 1]];
          if !grown {
            Note(CloseFd);
            return Some(Closed), head + [CloseFd];
          }
        }
      }
      return None, head;
    }

    /** Gives the descriptor back to the queue, or closes it if the queue refuses. */
    method GiveBack(interest: Interest, ok: bool) returns (outcome: Outcome)
      requires Valid() && MayFollow(Window(), Last(log), Rearm(interest, ok))
      modifies this`log
      ensures Valid() && log == old(log) + Back(interest, ok)
      ensures Concludes(Last(log), outcome) && outcome == if ok then Rearmed(interest) else Closed
    {
      Note(Rearm(interest, ok));
      if !ok {
        Note(CloseFd);
        return Closed;
      }
      return Rearmed(interest);
    }

    /** Runs the callback and, unless it keeps the descriptor, gives it back. */
    method ShowAndGiveBack(why: Reason, interest: Interest, round: Round) returns (outcome: Outcome, ghost tail: seq<Action>)
      requires Valid() && !why.Full? && interest == (if why.Drained? then ForRead else ForWrite(false))
      requires MayFollow(Window(), Last(log), Callback(why, Window(), 0, round.after.keeps))
      modifies this`bufoff, this`bufate, this`log, buffer
      ensures Valid() && Concludes(Last(log), outcome)
      ensures log == old(log) + tail && Beside(round, tail)
      ensures outcome == if round.after.keeps then Kept else if round.rearms then Rearmed(interest) else Closed
    {
      var released := Consult(why, round.after);
      tail := [log[|log| - 1]];
      if round.after.keeps {
        return Kept, tail;
      }
      outcome := GiveBack(interest, round.rearms);
      BesideBack(round, tail, interest);
      Regroup(old(log), tail, Back(interest, round.rearms));
      tail := tail + Back(interest, round.rearms);
    }

    /** read() returned zero: the callback is always run, then the descriptor is
        re-armed for writing. */
    method AtEndOfFile(round: Round) returns (outcome: Outcome, ghost tail: seq<Action>)
      requires Valid() && bufoff < buffer.Length && ReadyToRead(Last(log), buffer.Length - bufoff)
      modifies this`bufoff, this`bufate, this`log, buffer
      ensures Valid() && Concludes(Last(log), outcome)
      ensures log == old(log) + [Read(buffer.Length - old(bufoff), Eof)] + tail && Beside(round, tail)
      ensures outcome == if round.after.keeps then Kept else if round.rearms then Rearmed(ForWrite(false)) else Closed
    {
      Note(Read(buffer.Length - bufoff, Eof));
      outcome, tail := ShowAndGiveBack(AtEof, ForWrite(false), round);
    }

    /** read() would block: the callback sees whatever is in hand, then the descriptor is
        re-armed for reading. */
    method WhenDrained(round: Round) returns (outcome: Outcome, ghost tail: seq<Action>)
      requires Valid() && bufoff < buffer.Length && ReadyToRead(Last(log), buffer.Length - bufoff)
      modifies this`bufoff, this`bufate, this`log, buffer
      ensures Valid() && Concludes(Last(log), outcome)
      ensures log == old(log) + [Read(buffer.Length - old(bufoff), Again)] + tail && Beside(round, tail)
      ensures outcome == if round.after.keeps && old(Window()) != [] then Kept
                         else if round.rearms then Rearmed(ForRead) else Closed
    {
      Note(Read(buffer.Length - bufoff, Again));
      if bufoff - bufate != 0 {
        outcome, tail := ShowAndGiveBack(Drained, ForRead, round);
      } else {
        outcome := GiveBack(ForRead, round.rearms);
        tail := Back(ForRead, round.rearms);
      }
    }

    /** read() failed for good. */
    ghost method AfterError() returns (tail: seq<Action>)
      requires Valid() && bufoff < buffer.Length && ReadyToRead(Last(log), buffer.Length - bufoff)
      modifies this`log
      ensures Valid() && tail == [CloseFd] && log == old(log) + [Read(buffer.Length - bufoff, Fail)] + tail
    {
      Note(Read(buffer.Length - bufoff, Fail));
      Note(CloseFd);
      tail := [CloseFd];
    }

    /** read() returned bytes or was interrupted. */
    method GoOn(round: Round)
      requires Valid() && bufoff < buffer.Length && ReadyToRead(Last(log), buffer.Length - bufoff)
      requires round.reply.Data? || round.reply.Intr?
      modifies this`bufoff, this`log, buffer
      ensures Valid()
      ensures log == old(log) + [Read(buffer.Length - old(bufoff), ReplyIn(round, buffer.Length - old(bufoff)))]
      ensures Concludes(Last(log), StillReading) && AtHead(Last(log), buffer.Length - bufoff)
    {
      if round.reply.Data? {
        Receive(round);
      } else {
        Note(Read(buffer.Length - bufoff, Intr));
      }
    }

    /** read() brought nothing, and will not. */
    method GoNoFurther(round: Round) returns (outcome: Outcome, ghost tail: seq<Action>)
      requires Valid() && bufoff < buffer.Length && ReadyToRead(Last(log), buffer.Length - bufoff)
      requires !round.reply.Data? && !round.reply.Intr?
      modifies this`bufoff, this`bufate, this`log, buffer
      ensures Valid() && Concludes(Last(log), outcome) && !outcome.StillReading?
      ensures log == old(log) + [Read(buffer.Length - old(bufoff), round.reply)] + tail && Beside(round, tail)
    {
      match round.reply {
        case Fail =>
          tail := AfterError();
          outcome := Closed;
        case Eof =>
          outcome, tail := AtEndOfFile(round);
        case Again =>
          outcome, tail := WhenDrained(round);
      }
    }

    /** The rest of the loop body: one read() and what its result calls for. */
    method ReadOnce(round: Round) returns (outcome: Outcome, ghost tail: seq<Action>)
      requires Valid() && bufoff < buffer.Length && ReadyToRead(Last(log), buffer.Length - bufoff)
      modifies this`bufoff, this`bufate, this`log, buffer
      ensures Valid() && Concludes(Last(log), outcome)
      ensures log == old(log) + [Read(buffer.Length - old(bufoff), ReplyIn(round, buffer.Length - old(bufoff)))] + tail
      ensures Beside(round, tail)
      ensures outcome.StillReading? ==> tail == [] && AtHead(Last(log), buffer.Length - bufoff)
      ensures outcome.StillReading? <==> round.reply.Data? || round.reply.Intr?
    {
      if round.reply.Data? || round.reply.Intr? {
        GoOn(round);
        outcome, tail := StillReading, [];
        assert log + tail == log;
      } else {
        outcome, tail := GoNoFurther(round);
      }
    }

    /** The read() of a turn, after what was done to make room. */
    method FinishTurn(round: Round, ghost start: seq<Action>, ghost head: seq<Action>)
      returns (outcome: Outcome, ghost part: seq<Action>)
      requires Valid() && bufoff < buffer.Length && ReadyToRead(Last(log), buffer.Length - bufoff)
      requires log == start + head && Beside(round, head)
      modifies this`bufoff, this`bufate, this`log, buffer
      ensures Valid() && log == start + part && InRound(round, part) && Concludes(Last(log), outcome)
      ensures outcome.StillReading? ==> GoesOn(part) && AtHead(Last(log), buffer.Length - bufoff)
    {
      ghost var read := Read(buffer.Length - bufoff, ReplyIn(round, buffer.Length - bufoff));
      ghost var tail;
      outcome, tail := ReadOnce(round);
      part := head + [read] + tail;
      OneRead(round, head, read, tail);
      RegroupFour(start, head, [read], tail);
    }

    /** One turn of the loop. */
    method Turn(round: Round) returns (outcome: Outcome, ghost part: seq<Action>)
      requires Valid() && AtHead(Last(log), buffer.Length - bufoff)
      modifies this, buffer
      ensures Valid() && (buffer == old(buffer) || fresh(buffer))
      ensures log == old(log) + part && InRound(round, part) && Concludes(Last(log), outcome)
      ensures outcome.StillReading? ==> GoesOn(part) && AtHead(Last(log), buffer.Length - bufoff)
    {
      var done;
      done, part := MakeRoom(round);
      if done.Some? {
        NoRead(round, part);
        return done.value, part;
      }
      outcome, part := FinishTurn(round, old(log), part);
    }

    /** The loop, from its first turn. */
    method TakeTurns(schedule: seq<Round>) returns (outcome: Outcome, ghost parts: seq<seq<Action>>)
      requires Valid() && AtHead(Last(log), buffer.Length - bufoff) && Concludes(Last(log), StillReading)
      modifies this, buffer
      ensures Valid() && (buffer == old(buffer) || fresh(buffer))
      ensures log == old(log) + Joined(parts) && Concludes(Last(log), outcome)
      ensures Rounds(schedule, parts, outcome.StillReading?) && (outcome.StillReading? ==> |parts| == |schedule|)
    {
      parts := [];
      ghost var entered := log;
      var i := 0;
      outcome := StillReading;
      while i < |schedule| && outcome.StillReading?
        invariant 0 <= i == |parts| <= |schedule|
        invariant Valid() && (buffer == old(buffer) || fresh(buffer))
        invariant log == entered + Joined(parts)
        invariant Concludes(Last(log), outcome)
        invariant outcome.StillReading? ==> AtHead(Last(log), buffer.Length - bufoff)
        invariant Rounds(schedule, parts, outcome.StillReading?)
      {
        ghost var part;
        outcome, part := Turn(schedule[i]);
        RoundsExtend(schedule, parts, part, outcome.StillReading?);
        JoinedExtend(entered, parts, part);
        parts := parts + [part];
        i := i + 1;
      }
    }

    /** buffered_rxfxn(). The schedule says what the outside does, round by round; if it
        ends first the activation is still reading. What happens in each round is what the
        schedule says for it, and nothing else is read. */
    method Activate(schedule: seq<Round>) returns (outcome: Outcome, ghost parts: seq<seq<Action>>)
      requires Valid() && CanEnter(Last(log))
      modifies this, buffer
      ensures Valid() && (buffer == old(buffer) || fresh(buffer))
      ensures log == old(log) + [Enter] + Joined(parts) && Concludes(Last(log), outcome)
      ensures Rounds(schedule, parts, outcome.StillReading?) && (outcome.StillReading? ==> |parts| == |schedule|)
      ensures Delivered(log) == Released(log) + Window()
    {
      Note(Enter);
      outcome, parts := TakeTurns(schedule);
      StreamIsFifo(log);
    }
  }
}
