# A model of libtorque's event core

libtorque runs one event thread per processor. The threads share an event queue, take
batches of events from it, call back into the application, and shut down in a ring. Before
that, the library identifies the processors, sorts them into types and into a topology, and
works out the page sizes that its buffers are made of. This project states what those parts
guarantee, as theorems over every run, every order and every input.

| file | what it covers |
|---|---|
| `Common.dfy` | what several modules share |
| `RingOrder.dfy` | the circular order of the event threads |
| `ShutdownRing.dfy` | signal, join and exit around the ring, and the controller's join: the invariant of every run |
| `ShutdownProgress.dfy` | how a shutdown ends: progress, what `EDEADLK` is needed for, what the controller is promised |
| `SpawnRing.dfy` | the handshake of `spawn_thread` and the insertion into the ring |
| `SpawnCalls.dfy` | what calls of `spawn_thread` report, and that they come to an end |
| `OneShot.dfy` | one-shot dispatch through an unlocked table by any number of threads |
| `Retrieval.dfy` | the loop around `epoll_wait` |
| `Wakeups.dfy` | which readers can miss their bytes, which descriptors are never called again, and that the others can be |
| `EventTable.dfy` | the callback table and the batch loop, in place, with callbacks that write to the table |
| `RxBuffer.dfy` | the receive buffer and the loop of `buffered_rxfxn` |
| `Topology.dfy` | the tree of packages and cores, and looking a CPU up in it |
| `CpuTypes.dfy` | the detection loop and the processor types |
| `Processors.dfy` | from the affinity mask through the topology to the description looked up |
| `ApicId.dfy` | rounding counts to powers of two and taking APIC ids apart |
| `Inventory.dfy` | sorted memories and TLBs, and the descriptors of CPUID function 2 |
| `PageSizes.dfy` | the page-size list, the largest page, the first page of a receive buffer |

The protocols are state machines. A state is a value, a step is one library call of one
thread (or something the outside does), and a run is any sequence of enabled steps, so a
theorem about runs covers every interleaving. Beside the shutdown and dispatch machines
stand classes whose methods change arrays and fields as the code does; each method is tied
to one step, or to a function of the old state. What the outside decides (results of
`read`, `epoll_ctl`, allocation, further signals, the platform's detection of join cycles,
errors reported on descriptors, interrupted calls, what callbacks do) is a parameter or a step that may happen at any time.

## What was found

- The ring relies on `EDEADLK` from `pthread_join`. Where every wait cycle is reported the
  joins never block each other for ever. Where only self-joins and two threads joining each
  other are, they can, exactly when the ring has three threads or more
  (`ShutdownProgress.DeadlockIff`).
- It also relies on every thread coming back to its signals. `kevent_retrieve` looks at `errno`
  even after a successful `epoll_wait` (sysdep.h:76-86), which does not reset it, so a thread
  with `EINTR` left over waits again over the events it has just retrieved, for ever
  (`Retrieval.RetrievesIff`), and its predecessor on the ring waits for it. Some run leaves a
  started shutdown that nothing can complete exactly in these two cases
  (`ShutdownProgress.StrandsIff`); which states threads can complete alone is
  `ShutdownProgress.CompletesAloneIff`.
- `doc/termination` says that `torque_block()` returns once all threads have terminated. It
  returns earlier exactly when, at the call, the leader already waits for or has reaped the
  newest thread and some thread has not exited (`ShutdownProgress.EarlyReturnIff`). Some run
  does that exactly when there are two threads or more
  (`ShutdownProgress.EarlyReturnPossibleIff`).
- The controller finds the newest thread through the leader's event handler, which the leader
  frees before it exits. Some run makes `torque_block()`, or `torque_stop()`, read it
  after that exactly when there is a thread and a shutdown from outside can finish by itself
  (`ShutdownProgress.DanglingReadIff`).
- `internal.h` says that a leaf's `cpudesc` describes its CPUs. When a package is split, the
  leaf made for its first CPU is given the type of the second (topology.c:95).
  `Topology.LookupGivesLabel` says what is answered for every CPU and order of discovery,
  and `Topology.OwnTypesIff` exactly when every answer is the CPU's own type.
- `x86topology` tells the APIC ids of a package apart if and only if both counts are powers
  of two (`ApicId.LosslessIff`). The round-up loop and AMD's core bits produce such counts; Intel's
  topology leaf and AMD's plain count of cores need not.
- A wakeup can be lost in three ways, and in no other (`Wakeups.LostWakeupIff`). epoll always
  reports errors (fd.c:23-24), an error is no read event (sysdep.h:25), and `handle_event` calls
  nothing for it, so an error reported by itself spends a reader's one shot. A thread whose
  `errno` is `EINTR` waits again over what it has retrieved. A thread that takes a termination
  signal leaves the rest of its batch behind.
- A registered descriptor, for reading or for writing, is never called again and never closed
  exactly when its shot is spent, or it is watched for what its callback is not for, with no
  event under way that would call it; or when no thread is left that will handle anything
  (`Wakeups.AbandonedIff`). The steps that lead there are all named (`Wakeups.AbandonsIff`,
  `Wakeups.DoomsIff`); re-arming a reader for writing at end of file is one.
- The APIC id is part of what processors are compared by. Where they are distinct every
  processor is a type of its own, and each is looked up to a description of itself exactly when
  every package has one processor (`Processors.OwnDescriptionsByApicIff`).
- The records of the topology are allotted one for each CPU and indexed by affinity id. They
  suffice exactly for a mask without gaps (`CpuTypes.RecordsSufficeIff`).
- Equal memories are not added twice, equal TLBs are: after a decoding all TLBs differ exactly
  when those there and those described did (`Inventory.TlbsDifferIff`,
  `Inventory.SameTlbTwice`).
- `rxbuffer_advance` checks nothing: a release keeps the offsets in order exactly when it is no
  larger than the window or ends at the end of the buffer (`RxBuffer.AdvanceInRangeIff`).

## Model

Paths are relative to the repository's root.

| member | source | states |
|---|---|---|
| `RingOrder.AroundTheRing` | src/libtorque/schedule.c:135-140 | what passes along every `nexttid` link holds of every thread once it holds of one |
| `ShutdownRing.LeadsToMeans` | src/libtorque/events/thread.c:66-67 | following blocked joins from one thread reaches another exactly when all threads in between are blocked |
| `ShutdownRing.DeadlockMeansAllOthersWait` | src/libtorque/events/thread.c:66-67 | `EDEADLK` is reported only when all other threads are blocked, and always then where cycles are detected |
| `ShutdownRing.StepKeepsInv` | src/libtorque/events/thread.c:52-86 | every step of every thread, the controller and the outside keeps the shutdown invariant |
| `ShutdownRing.RunKeepsInv` | src/libtorque/events/thread.c:52-86 | so does every run |
| `ShutdownRing.NewestExitsLast` | src/libtorque/schedule.c:74-85 | once the newest thread has exited without thread 0 waiting for it, every older thread has exited |
| `ShutdownRing.NeverStale` | src/libtorque/events/thread.c:65-67 | neither `pthread_kill` nor a ring join is ever aimed at a thread already reaped |
| `ShutdownRing.ShutdownIsSafe` | src/libtorque/events/thread.c:52-86 | over all runs, ring sizes and signals: no call on a reaped thread, and the controller's join succeeds only after every thread has exited |
| `ShutdownRing.ExactlyOneJoinFails` | src/libtorque/events/thread.c:65-69 | in every complete shutdown exactly one ring join fails, every other one reaps its target, and the thread nobody on the ring reaped is reaped exactly when the controller's join succeeded |
| `ShutdownProgress.RankDecreases` | doc/termination:47-52 | every step of a thread or the controller lowers a rank, further signals leave it alone |
| `ShutdownProgress.ShutdownIsBounded` | doc/termination:47-52 | whatever signals arrive, n threads and the controller take at most 6n + 3 steps |
| `ShutdownProgress.StuckMeansFinishedOrCycle` | src/libtorque/events/thread.c:60-67 | if no thread of a started shutdown can move, all have exited, all are blocked on each other, or one is astray |
| `ShutdownProgress.NoDeadlock` | src/libtorque/events/thread.c:52-86 | a started shutdown with no thread astray can always move until all have exited, if cycles are reported, the ring has two threads at most, or the controller waits for the newest |
| `ShutdownProgress.ShutdownCompletes` | src/libtorque/events/thread.c:52-86 | from every reachable state of such a shutdown the threads alone can complete it |
| `ShutdownProgress.AstrayForEver` | src/libtorque/events/sysdep.h:71-91 | a thread that no longer comes back to its signals never exits, in any run |
| `ShutdownProgress.CompletesAloneIff` | src/libtorque/events/thread.c:52-86 | the threads alone can complete a started shutdown if and only if none is astray and cycles are reported, the ring has two threads at most, the controller already waits, or all are gone |
| `ShutdownProgress.StrandsIff` | src/libtorque/events/thread.c:60-67 | some run leaves a started shutdown that no continuation completes if and only if threads can go astray, or there are three or more and cycles are not reported |
| `ShutdownProgress.AllJoiningForEver` | src/libtorque/events/thread.c:66-67 | a ring in which all threads are blocked stays so in every run |
| `ShutdownProgress.DeadlockIff` | src/libtorque/events/thread.c:66-67 | some run leaves every thread blocked in all continuations if and only if the ring has three threads or more and the platform reports only self-joins and mutual joins |
| `ShutdownProgress.AwaitFailsIff` | src/libtorque/schedule.c:74-85 | the controller's join fails at once exactly when thread 0 already waits for, or has reaped, the newest thread |
| `ShutdownProgress.EarlyReturnIff` | doc/termination:58-61 | `torque_block()` and `torque_stop()` return with threads left if and only if at the call thread 0 waits for or has reaped the newest thread and some thread has not exited |
| `ShutdownProgress.ReleaseIsNeverEarly` | src/libtorque/schedule.c:74-85 | a join that blocked returns only after every thread has exited |
| `ShutdownProgress.ControllerWaitsForAll` | doc/termination:58-61 | a controller whose join did not fail stays in it until every thread has exited, whatever happens |
| `ShutdownProgress.DoneIsFinal` | src/libtorque/schedule.c:225-241 | what the controller's join returned never changes |
| `ShutdownProgress.BlockCanReturnEarly` | doc/termination:58-61 | for every ring of two or more, a run after which `torque_block()` returns while the newest thread still runs |
| `ShutdownProgress.EarlyReturnPossibleIff` | doc/termination:58-61 | some run makes `torque_block()` or `torque_stop()` return with threads left if and only if there are two threads or more |
| `ShutdownProgress.SignalInitiates` | doc/termination:47-49 | a signal to a thread or the process, `torque_stop()`'s own included, starts the shutdown |
| `ShutdownProgress.StopEnds` | src/libtorque/schedule.c:87-102 | for every number of threads some run of `torque_stop()`'s two calls, thread steps and the return of its join, with no other signal, ends with all threads gone and a successful join |
| `ShutdownProgress.BlockEnds` | doc/termination:58-61 | so does `torque_block()` with one signal to any thread |
| `ShutdownProgress.WaitEnds` | src/libtorque/schedule.c:74-85 | once the controller waits and a shutdown has started, the threads end it and the join returns |
| `ShutdownProgress.SignalsConserved` | src/libtorque/events/sysdep.c:10-30 | over every run a thread takes no more signals than were sent to it, and what was sent has been taken or waits |
| `ShutdownProgress.SharedSignalsConserved` | src/libtorque/events/sysdep.c:10-30 | the same of signals to the process, each taken by one thread |
| `ShutdownProgress.JoinOutcomes` | src/libtorque/events/thread.c:65-69 | a ring join succeeds at once exactly when its target has exited, and blocks exactly when it has not and no cycle is reported, unless the controller got there first |
| `ShutdownProgress.AwaitSucceedsIff` | src/libtorque/schedule.c:74-85 | the controller's join succeeds at once exactly when the newest thread has exited and thread 0 does not wait for it, and blocks exactly when it has not |
| `ShutdownProgress.NoThreadsNoJoin` | src/libtorque/schedule.c:234-241 | without threads the calls succeed and touch nothing |
| `ShutdownRing.PastNeedsControllerPreserved` | src/libtorque/events/thread.c:66-69 | where only self-joins and mutual joins are noticed, no join of a ring of three or more returns unless the controller waits for the newest thread |
| `ShutdownProgress.NeverDangling` | src/libtorque/events/thread.c:66-83 | so such a ring never makes the controller read a freed handler |
| `ShutdownProgress.DanglingReadIff` | src/libtorque/schedule.c:225-241 | for each of the two calls: some run makes it read the leader's handler after it was freed if and only if there is a thread and the platform reports cycles or the ring has two threads at most |
| `ShutdownProgress.ClearedIsFreed` | src/libtorque/events/thread.c:83-84 | a call between the leader's `destroy_evhandler` and its exit reads freed memory |
| `ShutdownProgress.OnlyAfterClear` | src/libtorque/events/thread.c:83-84 | no run reads it before |
| `ShutdownProgress.CallBeforeSignalIsSafe` | src/libtorque/schedule.c:225-241 | over all runs, a call made before any thread has taken a signal reads a live handler, whatever comes after |
| `ShutdownRing.Threads.constructor` | src/libtorque/schedule.c:135-146 | freshly spawned threads satisfy the invariant |
| `ShutdownRing.Threads.TakeSignal` | src/libtorque/events/sysdep.c:10-30 | reading a signal is the Deliver step and keeps the invariant |
| `ShutdownRing.Threads.GoAstray` | src/libtorque/events/sysdep.h:71-91 | a thread that no longer comes back to its signals is the Stray step and keeps the invariant |
| `ShutdownRing.Threads.SignalNext` | src/libtorque/events/thread.c:65 | signalling the successor is the Send step and keeps the invariant |
| `ShutdownRing.Threads.WaitsFor` | src/libtorque/events/thread.c:66-67 | walking the chain of blocked joins decides whether it leads to a given thread |
| `ShutdownRing.Threads.WouldDeadlock` | src/libtorque/events/thread.c:66-67 | decides whether the platform reports a deadlock |
| `ShutdownRing.Threads.JoinNext` | src/libtorque/events/thread.c:67-69 | the join of the successor, in each of its five outcomes, is the Join step and keeps the invariant |
| `ShutdownRing.Threads.JoinReturns` | src/libtorque/events/thread.c:67-69 | a blocked join returning is the Wake step and keeps the invariant |
| `ShutdownRing.Threads.DestroyHandler` | src/libtorque/events/thread.c:83 | freeing the event handler is the Clear step and keeps the invariant |
| `ShutdownRing.Threads.Exit` | src/libtorque/events/thread.c:84 | `pthread_exit` is the Leave step and keeps the invariant |
| `ShutdownRing.Threads.ReadLeader` | src/libtorque/schedule.c:229 | reading `ctx->ev->nexttid` touches freed memory exactly when thread 0 has freed its handler |
| `ShutdownRing.Threads.RequestStop` | src/libtorque/schedule.c:99 | looking the newest thread up and signalling the process is the Stop step and keeps the invariant |
| `ShutdownRing.Threads.BlockThreads` | src/libtorque/schedule.c:234-241 | the controller's join, including the context without threads, is the Await step and keeps the invariant |
| `ShutdownRing.Threads.JoinNewest` | src/libtorque/schedule.c:74-85 | the join of the newest thread, in each outcome |
| `ShutdownRing.Threads.BlockReturns` | src/libtorque/schedule.c:81-84 | when the controller's join returns, every thread has exited |
| `SpawnRing.WalkPosition` | src/libtorque/schedule.c:135-140 | following `nexttid` k times from the i-th thread ends k places back around the ring |
| `SpawnRing.RingIsOneCycle` | src/libtorque/schedule.c:135-140 | from any thread the links meet every thread exactly once before coming back |
| `SpawnRing.Context.constructor` | src/libtorque/schedule.c:135-136 | a context without threads is the empty ring |
| `SpawnRing.Context.LinkSelf` | src/libtorque/schedule.c:135-140 | the insertion turns the ring of the threads so far into the ring with the new thread as the newest |
| `SpawnRing.RingGrows` | src/libtorque/schedule.c:138-140 | copying the leader's link and then redirecting it inserts one thread and disturbs no other |
| `SpawnRing.StepKeepsInv` | src/libtorque/schedule.c:118-223 | every step of parents and children keeps the handshake invariant, also between the two writes of the insertion |
| `SpawnRing.OnlyCurrentActs` | src/libtorque/schedule.c:208-222 | only the child of the call in progress still has anything to do with a guard |
| `SpawnRing.RunKeepsInv` | src/libtorque/schedule.c:118-223 | so over every run, with spurious wakeups and failing children |
| `SpawnRing.SpawnIsSafe` | src/libtorque/schedule.c:141-146 | no child uses its parent's guard after the parent has given it up, no two children insert at once although every call has its own lock, and a call that returned 0 has its child linked |
| `SpawnRing.SpawnedRing` | src/libtorque/schedule.c:131-143 | in every run, outside an insertion, the links are one cycle of the threads linked so far |
| `SpawnRing.AllSpawned` | src/libtorque/schedule.c:201-238 | after k successful calls thread i links to its predecessor, the leader to the newest, which is the thread the controller joins |
| `SpawnCalls.FateDecided` | src/libtorque/schedule.c:124-134 | over every run a child's way is decided by its own set-up alone |
| `SpawnCalls.BeginsOnce` | src/libtorque/schedule.c:118-130 | no child sets itself up twice |
| `SpawnCalls.ReturnedIff` | src/libtorque/schedule.c:213-222 | over all runs a completed call has returned 0 exactly when its child set itself up, and failed exactly when it did not |
| `SpawnCalls.CallCompletes` | src/libtorque/schedule.c:201-222 | from every reachable state the call in progress can complete, and reports how the set-up went |
| `SpawnCalls.AnyOutcomes` | src/libtorque/schedule.c:179-223 | every sequence of successes and failures comes about in some run; in particular k successes for every k |
| `OneShot.TokenOrigin` | src/libtorque/events/sources.h:65-69 | a descriptor found somewhere after a step was at one determined place before it |
| `OneShot.TokenOriginsDiffer` | src/libtorque/events/sources.h:65-69 | a step never turns one place into two |
| `OneShot.OnePlacePreserved` | src/libtorque/events/sources.h:65-69 | armed, in a batch, in a handler, with the application: a descriptor stays in one of these at most |
| `OneShot.ItemKept` | src/libtorque/events/sysdep.c:77-101 | while an event or handler is out in a thread no step of anyone else changes its queue entry |
| `OneShot.TokenKept` | src/libtorque/events/thread.c:110-134 | no step loses a descriptor unless it closes it, dispatches an event that calls nothing, waits again over an event it retrieved, or exits with events left |
| `OneShot.NoneLostPreserved` | src/libtorque/buffers.c:68-91 | without errors, interruptions and terminations a registered reader drops out of sight only once its peer has hung up and nothing is left to read |
| `OneShot.DispatchIsCurrent` | src/libtorque/events/sources.h:83-95 | an event runs the callback of the registration that armed it |
| `OneShot.StepKeepsInv` | src/libtorque/events/thread.c:110-134 | every step of threads, kernel, peers and application keeps the invariant |
| `OneShot.RunKeepsInv` | src/libtorque/events/thread.c:110-134 | so does every run |
| `OneShot.InThreadsOnce` | src/libtorque/events/thread.c:110-134 | copies in all batches plus active handlers count to one at most |
| `OneShot.MutualExclusion` | src/libtorque/events/sources.h:65-75 | over all runs armed plus copies in all batches plus active handlers is at most one for every descriptor, and none while the application holds it |
| `OneShot.NoStaleDispatch` | src/libtorque/events/fd.c:50-61 | over all runs, with numbers closed and handed out again, a dispatched event finds an open descriptor and the entry that armed it |
| `Wakeups.NoLostWakeup` | src/libtorque/buffers.c:68-91 | in every reachable state of such a program a reader with unread bytes that waits for reading is queued, attended by a thread, or held by its keeper |
| `Wakeups.WaitingMeansNothingToReport` | src/libtorque/events/sysdep.c:77-101 | in every reachable state a reader left waiting in the queue has no unread bytes and no end of file to be woken for |
| `Wakeups.WritersAtEndPreserved` | src/libtorque/buffers.c:70-79 | with buffered conduct a reader watched for writing has reached its end of file |
| `Wakeups.NothingLost` | src/libtorque/buffers.c:68-91 | over all its buffered runs no reader with unread bytes goes unattended, whatever it is watched for |
| `Wakeups.SpendShot` | src/libtorque/events/thread.c:27-50 | an event that is neither read nor write event calls nothing and leaves the descriptor disabled |
| `Wakeups.ErrorLosesWakeup` | src/libtorque/events/fd.c:23-31 | a run in which an error alone is reported to a reader and later bytes wake nobody |
| `Wakeups.Swallow` | src/libtorque/events/sysdep.h:71-91 | a thread with `EINTR` left over disables what it retrieves and hands on nothing |
| `Wakeups.InterruptLosesWakeup` | src/libtorque/events/sysdep.h:71-91 | a run in which one interrupted `epoll_wait` loses the bytes that arrive next |
| `Wakeups.StopLosesWakeup` | src/libtorque/events/thread.c:84 | a run in which a thread takes a termination signal with a read event left in its batch |
| `Wakeups.LostWakeupIff` | src/libtorque/events/thread.c:110-134 | some buffered run loses a wakeup if and only if there is a thread, and errors can be reported by themselves, calls interrupted, or threads told to terminate |
| `Wakeups.HopelessStays` | src/libtorque/buffers.c:70-79 | no step of anyone brings a hopeless descriptor back |
| `Wakeups.HopelessForEver` | src/libtorque/buffers.c:70-79 | nor does any run |
| `Wakeups.EmptyHands` | src/libtorque/events/thread.c:125-132 | a thread can work off its batch without disturbing the queue |
| `Wakeups.EventHandled` | src/libtorque/events/thread.c:125-132 | some run handles an event in a batch that calls its callback |
| `Wakeups.DoomedStays` | src/libtorque/events/sysdep.h:71-91 | a thread that will never handle anything again stays so under every step |
| `Wakeups.DoomsIff` | src/libtorque/events/sysdep.h:71-91 | a step dooms a thread if and only if its `epoll_wait` is interrupted, it exits, or its callback ends with `EINTR` and the rest of its batch calls nothing |
| `Wakeups.ClearErrno` | src/libtorque/buffers.c:80-90 | a thread that is not doomed can get rid of `EINTR` in some run |
| `Wakeups.ArmedHandled` | src/libtorque/events/sysdep.c:77-101 | any thread that is not doomed calls back, in some run, a reader or writer that is armed for what its callback is for |
| `Wakeups.WriterCalled` | src/libtorque/events/fd.c:26-31 | a run from the start in which a descriptor registered for writing alone has its callback run |
| `Wakeups.WatchedUntilRearmed` | src/libtorque/events/fd.c:25-31 | over all runs, until somebody re-arms it, a reader is watched for reading and a writer for writing |
| `Wakeups.OutsideFrame` | src/libtorque/events/fd.c:9-32 | registering a descriptor watches it for what its callback is for, and no other step of the outside changes what one is watched for |
| `Wakeups.StrandedForEver` | src/libtorque/events/sysdep.h:71-91 | with every thread doomed no run touches a descriptor that is in nobody's hands |
| `Wakeups.AbandonedIff` | src/libtorque/buffers.c:70-79 | in every reachable state no run ever calls a registered descriptor back, closes it or hands it on if and only if it is hopeless, or in nobody's hands with every thread doomed |
| `Wakeups.AbandonsIff` | src/libtorque/events/thread.c:27-50 | a step makes a descriptor hopeless if and only if it re-arms it for what its callback is not for, retrieves an event of it that calls nothing or is waited over, or exits with an event left that would call it; registering one never does |
| `Wakeups.EndOfFileAbandons` | src/libtorque/buffers.c:70-79 | a buffered run from the start that abandons a reader at its end of file |
| `Wakeups.HangupAbandons` | src/libtorque/events/thread.c:27-50 | a run from the start that abandons a reader which was never re-armed for writing |
| `Wakeups.InterruptStrands` | src/libtorque/events/sysdep.h:71-91 | a run in which one interruption of the only thread strands a reader to which nothing has happened |
| `Retrieval.KeventRetrieve` | src/libtorque/events/sysdep.h:71-91 | for every sequence of `epoll_wait` results: when the loop is left, with which events, and which were lost on the way |
| `Retrieval.RetrievesIff` | src/libtorque/events/sysdep.h:71-91 | where `epoll_wait` fails by interruption alone, the loop is left if and only if `errno` was not `EINTR` on entry and nothing was interrupted before the first success |
| `Retrieval.OtherErrorHelps` | src/libtorque/events/sysdep.h:71-91 | after a failure with another error the loop is left at the next success |
| `Retrieval.SuccessKeepsErrno` | src/libtorque/events/sysdep.h:71-91 | a success changes nothing about `errno` |
| `OneShot.RegistrationsCounted` | src/libtorque/events/sources.h:70-75 | registrations are numbered in turn |
| `OneShot.RegistrationIsFresh` | src/libtorque/events/sources.h:65-75 | over all runs a registration is told apart from every entry, queue item, batched event and handler there is, and has the one callback asked for |
| `OneShot.BytesConserved` | src/libtorque/buffers.c:68-69 | while a descriptor is open what has arrived is what has been read and what is unread |
| `OneShot.BytesSinceOpening` | src/libtorque/buffers.c:68-69 | from its opening on, nothing is lost or made up |
| `OneShot.VectorSuffices` | src/libtorque/events/thread.c:167-175 | over all runs no thread holds more than 512 events |
| `EventTable.Dispatcher.constructor` | src/libtorque/events/sources.h:33-35 | a new table has no callbacks |
| `EventTable.Dispatcher.SetupSource` | src/libtorque/events/sources.h:55-75 | replaces all three fields of one entry and touches no other |
| `EventTable.Dispatcher.AddFd` | src/libtorque/events/fd.c:8-61 | refuses numbers beyond the table untouched; otherwise writes the entry, whether or not the queue then accepts it, and when the queue is asked the new entry is in place |
| `EventTable.Dispatcher.AddFdEvent` | src/libtorque/events/fd.c:8-48 | asks the queue with the table as it is; fails on flags or `epoll_ctl` alone |
| `EventTable.Dispatcher.RunCallback` | src/libtorque/events/sources.h:83-95 | a callback is recorded and its table writes take effect in order |
| `EventTable.Dispatcher.HandleRead` | src/libtorque/events/sources.h:83-88 | calls the read callback if there is one, which may change the table |
| `EventTable.Dispatcher.HandleWrite` | src/libtorque/events/sources.h:90-95 | calls the write callback if there is one, which may change the table |
| `EventTable.Dispatcher.HandleEvent` | src/libtorque/events/thread.c:27-50 | read callback, then write callback, looked up after the first has run |
| `EventTable.Dispatcher.HandleBatch` | src/libtorque/events/thread.c:125-132 | the batch is handled from its last event to its first, each once, through the table as callbacks leave it |
| `EventTable.ReadBeforeWrite` | src/libtorque/events/thread.c:27-50 | with both callbacks and both bits the read callback is called, then the write callback of the entry it left |
| `EventTable.BatchFromItsEnd` | src/libtorque/events/thread.c:125-132 | what comes later in the vector is called first |
| `EventTable.LastWriteStands` | src/libtorque/events/sources.h:55-75 | of several registrations of one number the last stands |
| `EventTable.BatchRunsOldTable` | src/libtorque/events/sources.h:65-69 | if no callback writes the entry of an event still to be handled, the calls of a batch are those of the table it started with |
| `EventTable.SetupSparesBatches` | src/libtorque/events/sources.h:65-69 | in every reachable state a registration leaves the entries of all events in all batches alone |
| `EventTable.RegistrationsSpareBatch` | src/libtorque/events/sources.h:65-69 | whatever all threads register while a thread is busy with one event is none of the rest of its batch |
| `EventTable.ProtocolUndisturbed` | src/libtorque/events/sources.h:65-69 | callbacks that write what the protocol lets them register leave every batch undisturbed |
| `EventTable.ProtocolRunsOldTable` | src/libtorque/events/thread.c:125-132 | so the calls of a batch are those of the table it started with, whatever is registered meanwhile |
| `EventTable.SingleCallbackDispatch` | src/libtorque/events/thread.c:27-50 | with one callback registered, an event makes one call exactly when the protocol's dispatch starts a handler, with the same descriptor and state |
| `EventTable.BatchCallsOnce` | src/libtorque/events/thread.c:125-132 | a batch of distinct single-callback descriptors calls none twice and none it does not mention |
| `RxBuffer.ConductAt` | src/libtorque/buffers.c:50-97 | in a proper history every single action was allowed where it stands |
| `RxBuffer.StreamIsFifo` | src/libtorque/buffers.h:30-40 | over any number of activations, bytes released followed by bytes in hand are the bytes read, in order |
| `RxBuffer.GivesUpOnce` | src/libtorque/buffers.c:50-97 | an activation ends in exactly one of re-arm, close or callback-kept-it, and does nothing after |
| `RxBuffer.ReadsAskForBytes` | src/libtorque/buffers.c:56-70 | every `read` asks for at least one byte, so zero is end of file |
| `RxBuffer.GrowsOnlyWhenNothingReleased` | src/libtorque/buffers.c:56-67 | the buffer grows only after a callback that saw all of a full buffer and released nothing, and the next read asks for exactly the room gained |
| `RxBuffer.NothingWithheld` | src/libtorque/buffers.c:70-90 | before a re-arm the callback has seen every byte in hand; re-arming for writing follows only a reported end of file |
| `RxBuffer.RxBuf.constructor` | src/libtorque/buffers.h:46-53 | a new buffer has an empty window and a proper history |
| `RxBuffer.AdvanceInRangeIff` | src/libtorque/buffers.h:30-40 | a release leaves the offsets in order if and only if it is no larger than the window or ends at the end of the buffer |
| `RxBuffer.ReleasePastWindow` | src/libtorque/buffers.h:30-40 | a release that leaves the offsets out of order |
| `RxBuffer.RxBuf.Advance` | src/libtorque/buffers.h:30-40 | for every such release, drops exactly the released bytes from the window and leaves the buffer full only if nothing has been released |
| `RxBuffer.RxBuf.RunCallback` | src/libtorque/buffers.c:6-12 | any sequence of releases takes that many bytes off the front |
| `RxBuffer.RxBuf.GrowBuffer` | src/libtorque/buffers.c:25-37 | doubles the length, which does not wrap around, and keeps the window, or changes nothing |
| `RxBuffer.RxBuf.Fill` | src/libtorque/buffers.c:68-69 | appends the bytes read to the window |
| `RxBuffer.RxBuf.Receive` | src/libtorque/buffers.c:68-69 | reads as much of what is there as fits |
| `RxBuffer.RxBuf.MakeRoom` | src/libtorque/buffers.c:56-67 | afterwards there is room to read, or the activation is over |
| `RxBuffer.RxBuf.Enlarge` | src/libtorque/buffers.c:62-66 | grows a full buffer or reports that it cannot |
| `RxBuffer.RxBuf.AtEndOfFile` | src/libtorque/buffers.c:70-79 | the callback always runs; kept, re-armed for writing or closed accordingly |
| `RxBuffer.RxBuf.WhenDrained` | src/libtorque/buffers.c:80-90 | the callback runs if anything is in hand; kept, re-armed for reading or closed accordingly |
| `RxBuffer.RxBuf.ReadOnce` | src/libtorque/buffers.c:68-93 | one `read`; goes on exactly after bytes or `EINTR` |
| `RxBuffer.RxBuf.Turn` | src/libtorque/buffers.c:55-94 | one turn does what the outside decided for it, with one `read` at most |
| `RxBuffer.RxBuf.Activate` | src/libtorque/buffers.c:50-97 | for every schedule of reads, errors and callbacks the history stays proper, follows the schedule round by round, and the stream is first-in first-out |
| `Topology.FindSchedGroup` | src/libtorque/hardware/topology.c:25-43 | finds the group or inserts it in order; without memory changes nothing |
| `Topology.ShareLevel` | src/libtorque/hardware/topology.c:45-55 | whether the set has a CPU of the mask |
| `Topology.FirstAid` | src/libtorque/hardware/topology.c:57-67 | the lowest CPU of the set |
| `Topology.LevelGrows` | src/libtorque/hardware/topology.c:25-43 | finding or making a group and adding a CPU to it keeps a level the grouping of its CPUs |
| `Topology.SplitOk` | src/libtorque/hardware/topology.c:89-101 | the lazy split gives the package's one CPU its own core, which is right because a childless package holds exactly one |
| `Topology.ExtendedOk` | src/libtorque/hardware/topology.c:86-106 | below a package that has CPUs the cores stay the grouping of its CPUs |
| `Topology.TopologizedWellFormed` | src/libtorque/hardware/topology.c:73-112 | a success keeps ids increasing, sets non-empty and exact, and the tree in agreement with the map of CPUs |
| `Topology.TopologizedCanonical` | src/libtorque/hardware/topology.c:73-112 | and a package has cores below it exactly when it has two CPUs or more |
| `Topology.SplitStaysWellFormed` | src/libtorque/hardware/topology.c:95-104 | a failure after the split leaves a well-formed tree |
| `Topology.LevelRules` | src/libtorque/internal.h:21-28 | siblings are disjoint and make up exactly the CPUs of their level |
| `Topology.WalkingRules` | src/libtorque/internal.h:21-28 | siblings disjoint, every parent the union of its children, the tree holding exactly the CPUs placed |
| `Topology.LevelUnique` | src/libtorque/hardware/topology.c:25-43 | the CPUs' ids decide the groups and their order |
| `Topology.CanonicalUnique` | src/libtorque/hardware/topology.c:73-112 | the map of CPUs decides the tree, processor types apart |
| `Topology.BuildIsCanonical` | src/libtorque/hardware/topology.c:69-112 | for distinct CPUs in any order the tree is the group-by of the map |
| `Topology.BuildRecords` | src/libtorque/hardware/topology.c:108-110 | after any order every CPU's record is what it reported |
| `Topology.OrderDoesNotMatter` | src/libtorque/hardware/topology.c:69-112 | two orders of the same CPUs give the same tree, processor types apart |
| `Topology.LookupLevel` | src/libtorque/hardware/topology.c:135-146 | on one level the search enters the CPU's own group and no other |
| `Topology.LookupFindsExactlyThePlaced` | src/libtorque/hardware/topology.c:135-150 | the search, which never backtracks, finds a leaf for exactly the CPUs added |
| `Topology.LookupAid` | src/libtorque/hardware/topology.c:135-146 | the loop with its recursion is that search |
| `Topology.SecondLabelled` | src/libtorque/hardware/topology.c:95-105 | when a package's second CPU arrives, its core and the first CPU's are both labelled with the newcomer's type |
| `Topology.BuildLabels` | src/libtorque/hardware/topology.c:73-112 | every leaf built from an order of discovery carries the label that order gives it |
| `Topology.LookupGivesLabel` | src/libtorque/hardware/topology.c:135-150 | the type answered for each CPU, from the order of discovery alone |
| `Topology.OwnTypesIff` | src/libtorque/internal.h:27-28 | every CPU is looked up to its own type if and only if each core's CPUs share a type and each package's first two CPUs do |
| `Topology.LookupGivesOwnType` | src/libtorque/hardware/topology.c:135-150 | a CPU whose package is all of one type is looked up to its own, in any order of discovery |
| `Topology.FirstTakesSecondsType` | src/libtorque/hardware/topology.c:95-105 | a package's first CPU is looked up to its second's type, whatever its own |
| `Topology.MixedPackageMislabelled` | src/libtorque/hardware/topology.c:95 | two CPUs for which the answer is wrong |
| `Topology.Detection.constructor` | src/libtorque/hardware/topology.c:69-72 | detection starts from an empty tree and a zeroed map |
| `Topology.Detection.Extend` | src/libtorque/hardware/topology.c:86-106 | extends a package, or leaves it as it was or merely split |
| `Topology.Detection.PlaceCpu` | src/libtorque/hardware/topology.c:80-107 | the tree left behind by each combination of allocations |
| `Topology.Detection.Topologize` | src/libtorque/hardware/topology.c:73-112 | every return, each failing allocation included, leaves the tree in agreement with the map; a success adds exactly the CPU |
| `CpuTypes.CompareDecidesSame` | src/libtorque/hardware/arch.c:55-84 | two processors compare equal exactly when they differ at most in their count |
| `CpuTypes.BitsAscend` | src/libtorque/hardware/arch.c:186-196 | the visited processors are the set bits of the mask, each once and ascending |
| `CpuTypes.CpuCount` | src/libtorque/schedule.h:22-32 | the number of set bits |
| `CpuTypes.RecordsSufficeIff` | src/libtorque/hardware/arch.c:179-183 | every visited id is below the number of records if and only if every bit below a set bit is set |
| `CpuTypes.OneBitHasGap` | src/libtorque/hardware/arch.c:179-183 | any mask of one bit but the lowest gives a processor beyond its records |
| `CpuTypes.NextCpu` | src/libtorque/hardware/arch.c:191-197 | the next set bit; the out-of-CPUs error is never reached |
| `CpuTypes.TallyMatch` | src/libtorque/hardware/arch.c:201-203 | counting a processor of a known type keeps the tally exact |
| `CpuTypes.TallyNew` | src/libtorque/hardware/arch.c:204-211 | so does adding a type |
| `CpuTypes.KnownMeansSeen` | src/libtorque/hardware/arch.c:201-211 | a type is listed exactly when some processor met so far is of it |
| `CpuTypes.MatchCpuType` | src/libtorque/hardware/arch.c:86-97 | finds a type equal to the processor's if there is one |
| `CpuTypes.Classify` | src/libtorque/hardware/arch.c:201-211 | one more processor in the tally and its index naming its own type, or no memory |
| `CpuTypes.HandleCpu` | src/libtorque/hardware/arch.c:198-218 | exactly when it succeeds, and which fault gives which error |
| `CpuTypes.FirstTroubleMeans` | src/libtorque/hardware/arch.c:186-220 | the error is that of the first processor with a fault, by what is wrong with it; without one every processor is pinned, identified, placed, given a thread, and of a known type or with memory for it |
| `CpuTypes.FailsOneWay` | src/libtorque/hardware/arch.c:198-218 | a processor fails in one way only |
| `CpuTypes.DetectNext` | src/libtorque/hardware/arch.c:186-220 | one turn visits exactly the next set bit |
| `CpuTypes.DetectCpuTypes` | src/libtorque/hardware/arch.c:164-239 | succeeds if and only if the mask has a bit, the map gets its memory, the affinity can be restored and no set bit's processor has a fault; else the error of the first fault; on success every set bit was visited once in order, the types differ pairwise, each count is the exact number of matching processors and they sum to the population count |
| `Processors.FitsIff` | src/libtorque/hardware/arch.c:179-212 | the CPUs handed to `topologize` meet its demands on ids and records if and only if the mask has no gap |
| `Processors.SameIndexIff` | src/libtorque/hardware/arch.c:201-212 | two CPUs are handed on with the same type index exactly when they are alike |
| `Processors.OwnDescriptionsIff` | src/libtorque/hardware/topology.c:135-150 | end to end, for CPUs that fit their records (masks without gaps and no others): every CPU is looked up to a description of itself if and only if the CPUs of each core are alike and the first two visited of each package are |
| `Processors.PositionRecomposes` | src/libtorque/hardware/x86cpuid.c:1777-1802 | for power-of-two counts a CPU's package, core and thread make up its APIC id again |
| `Processors.EachItsOwnType` | src/libtorque/hardware/arch.c:55-84 | with distinct APIC ids, which are part of what is compared, every type has one element |
| `Processors.OwnDescriptionsByApicIff` | src/libtorque/hardware/x86cpuid.c:1777-1802 | with distinct APIC ids and positions computed from them, every CPU is looked up to a description of itself if and only if every package has one CPU |
| `Processors.TopologizeAll` | src/libtorque/hardware/arch.c:186-220 | for CPUs that fit, the calls of `topologize` fail only for want of memory and otherwise leave the canonical tree of the whole order |
| `ApicId.AndLow` | src/libtorque/hardware/x86cpuid.c:1792 | masking with a power of two less one is the remainder |
| `ApicId.PowerOfTwoTest` | src/libtorque/hardware/x86cpuid.c:1577 | the loop's test holds exactly of powers of two |
| `ApicId.RoundUp` | src/libtorque/hardware/x86cpuid.c:1576-1579 | the least power of two not below the start |
| `ApicId.IdX86Topology` | src/libtorque/hardware/x86cpuid.c:1555-1583 | when it fails, and otherwise a power of two between the reported count and twice it |
| `ApicId.AmdCores` | src/libtorque/hardware/x86cpuid.c:1656-1670 | two to the number of core bits, or the plain count of cores |
| `ApicId.ShiftOut` | src/libtorque/hardware/x86cpuid.c:1793-1795 | the halving loop divides by the leading power of two of its count |
| `ApicId.X86Topology` | src/libtorque/hardware/x86cpuid.c:1777-1802 | fails exactly on a zero count, else decomposes the id |
| `ApicId.ComposeDecompose` | src/libtorque/hardware/x86cpuid.c:1791-1800 | for power-of-two counts the id is (pkg*cores + core)*threads + thread with core and thread in range |
| `ApicId.DistinctTriples` | src/libtorque/hardware/x86cpuid.c:1791-1800 | so distinct ids get distinct triples |
| `ApicId.HoleBelow` | src/libtorque/hardware/x86cpuid.c:1792-1796 | any other count masks with a bit missing below its leading one |
| `ApicId.LosslessIff` | src/libtorque/hardware/x86cpuid.c:1777-1802 | no two ids of a package collide if and only if both counts are powers of two |
| `Inventory.LexAntisymmetric` | src/libtorque/hardware/x86cpuid.c:872-887 | the order is total and equal only on equal keys |
| `Inventory.LexTransitive` | src/libtorque/hardware/x86cpuid.c:872-887 | and transitive |
| `Inventory.InsertedSplits` | src/libtorque/hardware/x86cpuid.c:891-914 | the new element goes after all that are not greater, nothing else moves |
| `Inventory.InsertedPermutes` | src/libtorque/hardware/x86cpuid.c:891-914 | the old elements and the new one, no more and no fewer |
| `Inventory.InsertedSorted` | src/libtorque/hardware/x86cpuid.c:891-914 | a sorted list stays sorted |
| `Inventory.InsertSorted` | src/libtorque/hardware/x86cpuid.c:891-954 | the in-place search and move is that insertion |
| `Inventory.CompareMemIsLex` | src/libtorque/hardware/x86cpuid.c:872-887 | the chain of comparisons is the lexicographic order, with ties exactly between memories that differ in sharing alone |
| `Inventory.CompareTlbIsLex` | src/libtorque/hardware/x86cpuid.c:916-930 | the same of TLBs |
| `Inventory.MemOrder` | src/libtorque/hardware/x86cpuid.c:878-885 | memories come by level, kind, size, line size, associativity |
| `Inventory.TlbOrder` | src/libtorque/hardware/x86cpuid.c:922-928 | TLBs come by level, kind, page size, entries, associativity |
| `Inventory.CompareTransitive` | src/libtorque/hardware/x86cpuid.c:872-887 | comparing memories is transitive |
| `Inventory.MatchMemType` | src/libtorque/hardware/x86cpuid.c:1007-1018 | whether an equal memory is present |
| `Inventory.PresentInserted` | src/libtorque/hardware/x86cpuid.c:891-914 | what is present after an insertion |
| `Inventory.NoDuplicatesInserted` | src/libtorque/hardware/x86cpuid.c:1045-1049 | adding only what is not present keeps memories pairwise different |
| `Inventory.DecodeKeeps` | src/libtorque/hardware/x86cpuid.c:1020-1076 | decoding any descriptors keeps both lists sorted and never adds a memory equal to one present |
| `Inventory.DecodeSplits` | src/libtorque/hardware/x86cpuid.c:1027-1074 | decoding one register after another is decoding all their bytes |
| `Inventory.DecodeFindsAll` | src/libtorque/hardware/x86cpuid.c:1043-1049 | every described cache is in the inventory |
| `Inventory.DecodeTwice` | src/libtorque/hardware/x86cpuid.c:1044-1049 | decoding the same descriptors again leaves the memories unchanged |
| `Inventory.DecodeExactly` | src/libtorque/hardware/x86cpuid.c:1020-1076 | the memories are those there before and those described |
| `Inventory.SortedUnique` | src/libtorque/hardware/x86cpuid.c:878-879 | a sorted list of different memories is determined by its members |
| `Inventory.DescriptorOrderIrrelevant` | src/libtorque/hardware/x86cpuid.c:1020-1076 | the order and repetition of descriptors have no effect on the list of memories |
| `Inventory.TlbsExactly` | src/libtorque/hardware/x86cpuid.c:1050-1053 | the TLBs are those there before and those described, each as often as described |
| `Inventory.TlbsDifferIff` | src/libtorque/hardware/x86cpuid.c:1050-1053 | all TLBs differ after a decoding if and only if those there differed, those described differ, and none of the ones equals one of the others |
| `Inventory.SameTlbTwice` | src/libtorque/hardware/x86cpuid.c:1050-1053 | any TLB descriptor given twice leaves equal TLBs listed |
| `Inventory.IgnoredBits` | src/libtorque/hardware/x86cpuid.c:1025-1072 | AL and registers with the top bit set have no say |
| `Inventory.RegisterBytesAre` | src/libtorque/hardware/x86cpuid.c:1030-1073 | of a valid register all four bytes from the top, of the first all but AL, of an invalid one none |
| `Inventory.DescriptorsAre` | src/libtorque/hardware/x86cpuid.c:1025-1075 | for any registers exactly those bytes are decoded, in exactly that order |
| `Inventory.DecodeOkIff` | src/libtorque/hardware/x86cpuid.c:1036-1068 | decoding succeeds if and only if every byte is zero, in one of the three tables, or one of 0x40, 0xf0, 0xf1 and 0xff, and every reallocation the full inventory takes succeeds |
| `Inventory.CpuInventory.constructor` | src/libtorque/hardware/x86cpuid.c:1020-1023 | an inventory starts empty |
| `Inventory.CpuInventory.DecodeDescriptor` | src/libtorque/hardware/x86cpuid.c:1036-1068 | one descriptor in place, with every failure |
| `Inventory.CpuInventory.DecodeRegister` | src/libtorque/hardware/x86cpuid.c:1030-1073 | the bytes of one register from the top, the low byte of the first left out |
| `Inventory.CpuInventory.DecodeFunc2` | src/libtorque/hardware/x86cpuid.c:1020-1076 | all registers in order, up to the first failure |
| `PageSizes.OfferAppends` | src/libtorque/hardware/memory.c:50-70 | because only sizes above all earlier ones are inserted, the sorted insertion always appends |
| `PageSizes.CollectIncreasing` | src/libtorque/hardware/memory.c:50-114 | the list stays strictly increasing and only grows at its end |
| `PageSizes.CollectIsRecords` | src/libtorque/hardware/memory.c:72-114 | it holds exactly the sizes that exceeded all before them |
| `PageSizes.CollectReaches` | src/libtorque/hardware/memory.c:72-114 | it reaches exactly as high as what was offered |
| `PageSizes.OfferedAt` | src/libtorque/hardware/memory.c:84-114 | the system's size is offered first, then every TLB's by processor type and in the type's own order |
| `PageSizes.ListedIff` | src/libtorque/hardware/memory.c:84-114 | a size is listed if and only if it is the system's or that of a TLB larger than it and than all TLBs before |
| `PageSizes.MatchPageSize` | src/libtorque/hardware/memory.c:72-82 | whether a size at least as large is listed |
| `PageSizes.OfferSize` | src/libtorque/hardware/memory.c:104-108 | fails only if the list has to grow and cannot |
| `PageSizes.OfferTlbs` | src/libtorque/hardware/memory.c:102-109 | the TLBs of one processor type, in order |
| `PageSizes.OfferCpus` | src/libtorque/hardware/memory.c:95-110 | all processor types, in order |
| `PageSizes.DeterminePageSizes` | src/libtorque/hardware/memory.c:84-114 | fails exactly when the system's page size is unknown or a needed reallocation does; else the list of all sizes offered |
| `PageSizes.LargeSystemPageSize` | src/libtorque/hardware/memory.c:168-185 | the maximum over all nodes, 0 if there are none |
| `PageSizes.LargestIsMaximum` | src/libtorque/hardware/memory.c:84-185 | that maximum is the greatest of the system's page size and every TLB's, and positive |
| `PageSizes.InitializeRxBuffer` | src/libtorque/alloc.c:26-31 | there is a buffer exactly when the largest page size is positive and can be mapped, and it is as long as that page |

## Left out

- The SSL path (`protos/ssl.c`, `rxbuffer_ssl`): it is driven by OpenSSL's results and fills the buffer from another offset, so the statements here are not about it.
- `buffered_txfxn` and `txback`: marked incomplete in the source.
- Descriptors with both callbacks, registrations that are not one-shot, and descriptors closed by someone other than their handler or keeper: outside the one-shot guarantee.
- DNS, CUDA, NUMA nodes, the FreeBSD variants and the Linux path without signalfd.
- The insides of epoll, signalfd, pthreads, `mmap` and `realloc`: they appear as steps and parameters. A join has one waiter per target, a readiness check is made on every ADD and MOD, readable bytes are always reported as a read event, nothing arrives after a hangup, and `epoll_wait` on the queue fails by interruption alone.
- SIGTERM and SIGINT are one kind of signal, and signals pending for a thread are a bit, as for any standard signal.
- Shutdown while threads are still being spawned, as when detection fails half-way (arch.c:228-239).
- Failures of mutexes, conditions and attributes in `thread` and `spawn_thread`, and of `pthread_create`, which leave the ring untouched.
- Topology.Detection.Topologize: asks for a record for each affinity id and for ids not seen before. `Processors.FitsIff` says which masks give that; what the write beyond the records does for the others is not modelled. The sorted lists are sequences, without the aliasing of pointers.
- RxBuffer.RxBuf.Advance: what becomes of the bytes when a callback releases more than `RxBuffer.AdvanceInRangeIff` allows is not modelled.
- RxBuffer.RxBuf.RunCallback: each release is cut to the window, for the same reason.
- RxBuffer.RxBuf.GrowBuffer: takes for granted that no mapping is as large as half the range of a `size_t`.
- CpuTypes.DetectCpuTypes: whether `topologize` succeeds for a CPU is decided from outside there; `Processors.TopologizeAll` runs it.
- 32-bit registers and counts are natural numbers; the counts in APIC arithmetic stay far below the width of a word.
- The vendor's descriptor tables: arbitrary functions from a byte.
- CPUID itself, brand names, feature flags, statistics, tools, freeing of memory.
