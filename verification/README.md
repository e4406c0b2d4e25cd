# Proofs about the state machines, protocols and algorithms of the teaching programs

The repository is a collection of Linux teaching programs. This project models the ones that hold real
protocols, state machines and array algorithms, and proves what they are for. Each component is a module of its
own; they share `Basics`, `Tally` (totals over threads), `Bytes`, and `Cycle` (modular counting).

| module | program |
|---|---|
| `ReadersWriterLock` | a readers-writer lock built from two mutexes |
| `WorkerPool` | one slot, one mutex, one condition variable, one producer, any number of workers |
| `RelayMachine`, `RelayLoops`, `RelayRefinement`, `RelayLosses`, `Relayer` | the two-way relay as a state machine: busy, select and poll loops, and a table of jobs |
| `TokenBucket`, `BucketWait`, `ThrottledCopy` | the token-bucket library, its waiting fetches, and the copy program it throttles |
| `SoftwareTimers` | a table of countdown timers over one alarm |
| `LockRing`, `CondRing` | letters printed in turn, by a ring of mutexes and by a condition variable |
| `ListPacket` | the programme-list packet of the multicast radio, server side and client side |
| `QuickSort`, `WordReverse`, `Shuffle`, `SmartPointer`, `PrimeFactors` | snippets of the C++ scrapbook |

How the models are built:

- **State and steps.** A concurrent program is a value `State` and a function `Step`. A run is any finite sequence
  of steps, each of one thread at one lock, unlock, wait, test or assignment; a step that is not possible changes
  nothing. A claim about all sequences is therefore a claim about every reachable state. Thread counts, buffer and
  table sizes, LEFT and RIGHT are parameters.
- **Objects.** What the programs update in place is a class, and every method is proved to do to the object what
  the step function says. The promises are then proved about the functions, for all runs.
- **The environment.** What the kernel answers (lengths, EAGAIN, EINTR, errors, readiness, datagrams), the seconds
  of the clock, the scheduler's choices and the values of `rand` are parameters. Lengths are clipped to what the
  call allows, so no sequence of answers is excluded.
- **Condition variables.** Waiting is two steps, falling asleep with the mutex released and locking again when
  woken. A signal wakes one sleeper of the scheduler's choice, and sleepers may also wake for no reason.

Where the code does not meet the obvious promise, the exact condition is proved:

- The final wait of the worker pool (lines 61-65) locks a mutex that main already holds. `WorkerPool` has both
  this order (`Relock`) and the order shown in the comment at lines 44-48, unlock, yield, lock (`Yield`).
  Hand-off and wakeups are right in both. `SafeIff` says which configurations never get stuck, `RelockGoesWrong`
  how all others do, and `CanFinishIff` from which states the program can still finish.
- `fsm_driver` aborts the process when one direction has ended and the other has not. Abort is an explicit end of
  the run; everything is proved up to it. `BusyAbortsIff`, `SelectAbortsIff` and `PollAbortsIff` say in which runs it
  happens, `BusyEndsIff` in which it does not, `BytesLostIff` when bytes are lost, and `BytesLostFrom` which.
- With both relay ends on one descriptor the select loop may step a machine for the other machine's sake
  (`SelectReadinessIff`).
- The bucket library does not check its rate and burst (`BoundsIff`); the throttled copy with a zero rate or burst
  waits forever (`CanFinishIff`).
- The comment on `at_waitjob` in anytime.c (lines 216-221) lists one error, and anytime.h lists three. The code
  returns EINVAL or EBUSY, the latter for every repeating job, so that its slot can never be freed
  (`SlotFreedIff`).
- An answer of 0 from `at_cacnceljob` does not mean that the job was not called (`CancelPromises`), and an alarm in
  the middle of `at_waitjob` makes the handler read freed memory (`WildIff`).
- The server does not bound the list packet, and the client does not find an empty list acceptable (`RoundTripIff`).
  A failing `recvfrom` may pass for a list without entries (`FailureTakenIff`).
- `prim(m, 2)` leaves a repeated largest prime factor unprinted once, and prints nothing at all for m = 2
  (`PrintedProduct`, `PrintedPrimes`).
- An object handed to two smart pointers as a raw pointer is deleted twice (`DeletedOnceIff`).

`dafny verify dfyconfig.toml` checks everything.

## Model

| member | source | states |
|---|---|---|
| ReadersWriterLock.MutualExclusion | Other/ErrCode/errCode.cpp:2517-2552 | under every interleaving of any number of threads a writer overlaps no reader and no other writer, nobody is inside together with a thread that called write_lock, and `read_cout` is the number of threads between their increment and their decrement |
| ReadersWriterLock.GetsWhatItAsked | Other/ErrCode/errCode.cpp:2517-2552 | in every run a thread that called write_lock last is only ever idle, waiting for `write_mutex` or writing, and one that called read_lock never waits for `write_mutex` as a writer or writes |
| ReadersWriterLock.EveryCallGetsIn | Other/ErrCode/errCode.cpp:2517-2547 | in every reachable state, whatever the other threads are doing, a call of read_lock can still come to read and a call of write_lock to write |
| ReadersWriterLock.WriterEntersFree | Other/ErrCode/errCode.cpp:2544-2547 | a call of write_lock writes after one lock when nobody holds `write_mutex` |
| ReadersWriterLock.WriteMutexMatchesCount | Other/ErrCode/errCode.cpp:2517-2552 | whenever the count section is free, `write_mutex` is held exactly if somebody writes or `read_cout` is positive |
| ReadersWriterLock.NoDeadlock | Other/ErrCode/errCode.cpp:2517-2552 | in every reachable state with a busy thread some busy thread can take its next step, also while a reader inside the count section waits for `write_mutex` |
| ReadersWriterLock.SomeoneProceeds | Other/ErrCode/errCode.cpp:2517-2552 | from any state that satisfies the protocol invariant, reachable or not, some busy thread can take its next step |
| ReadersWriterLock.Drains | Other/ErrCode/errCode.cpp:2517-2552 | once no new calls start, every schedule of runnable threads is over after boundedly many steps, and only with every thread idle |
| ReadersWriterLock.ReadersShare | Other/ErrCode/errCode.cpp:2517-2542 | any number of readers can be inside together |
| ReadersWriterLock.CountBalance | Other/ErrCode/errCode.cpp:2517-2542 | readers counted plus readers leaving equal readers relying on `write_mutex` plus readers entering, over any population of threads |
| ReadersWriterLock.StepInv | Other/ErrCode/errCode.cpp:2517-2552 | each single lock, unlock, count or test step of any thread keeps the protocol invariant |
| ReadersWriterLock.LockWorld.Advance | Other/ErrCode/errCode.cpp:2517-2552 | the in-place statement of one thread moves the lock as the protocol says, and reports whether the thread was blocked |
| ReadersWriterLock.LockWorld.Schedule | Other/ErrCode/errCode.cpp:2512-2552 | the threads under any scheduler make a run of the protocol |
| WorkerPool.HandedOverExactlyOnce | Linuxlhq/004Concurrent/thread/posix/009prime_cond.c:40-71 | under every schedule the numbers taken, in order, then the occupied slot, are the numbers posted so far; nobody exits before all are taken |
| WorkerPool.EachWorksOnItsOwn | Linuxlhq/004Concurrent/thread/posix/009prime_cond.c:87-129 | in every run each worker works on the numbers that it found in the slot itself, once each and in that order; the last one may still be on its way |
| WorkerPool.WorksOnWhatWasTaken | Linuxlhq/004Concurrent/thread/posix/009prime_cond.c:106-129 | in every run the numbers worked on, with those between being taken and being worked on, are the numbers taken, with multiplicity |
| WorkerPool.WorkedOnExactlyOnce | Linuxlhq/004Concurrent/thread/posix/009prime_cond.c:40-129 | when main has finished, each number from LEFT to RIGHT was worked on once, and no other number |
| WorkerPool.NoLostWakeup | Linuxlhq/004Concurrent/thread/posix/009prime_cond.c:40-71 | a posted number finds some worker awake, an emptied slot finds main awake or about to be woken, and after -1 nobody sleeps |
| WorkerPool.CanFinishIff | Linuxlhq/004Concurrent/thread/posix/009prime_cond.c:57-71 | from a reachable state the program can still finish, with every number taken and no spurious wakeup, if and only if main is not about to lock the mutex it holds |
| WorkerPool.StuckOnlyWhen | Linuxlhq/004Concurrent/thread/posix/009prime_cond.c:57-71 | the only reachable states in which nobody can move are the finished one and main locking its own mutex |
| WorkerPool.DoomedForever | Linuxlhq/004Concurrent/thread/posix/009prime_cond.c:59-65 | once main finds its last number in the slot, with the final wait as written, no schedule gets it out again |
| WorkerPool.RelockGoesWrong | Linuxlhq/004Concurrent/thread/posix/009prime_cond.c:57-65 | with the final wait as written, for any numbers to post and any workers, a schedule ends with main locking its own mutex, the last number in the slot and never taken |
| WorkerPool.SafeIff | Linuxlhq/004Concurrent/thread/posix/009prime_cond.c:57-71 | main never comes to lock the mutex it holds, under any schedule, if and only if the final wait is the one of the comment or there is no number to post |
| WorkerPool.EverySchedule | Linuxlhq/004Concurrent/thread/posix/009prime_cond.c:40-71 | every schedule without spurious wakeups has boundedly many steps besides three for every yield of the final wait, and when nobody can move at its end every number was taken and main has finished, or main is locking its own mutex |
| WorkerPool.FinishFrom | Linuxlhq/004Concurrent/thread/posix/009prime_cond.c:87-113 | a finishing schedule without luck from every good state, by a measure that every chosen step lowers |
| WorkerPool.StepInv | Linuxlhq/004Concurrent/thread/posix/009prime_cond.c:40-71 | every step of main or of a worker keeps mutex ownership, slot, hand-off and wakeup invariants |
| WorkerPool.FreeMutexStopsNobody | Linuxlhq/004Concurrent/thread/posix/009prime_cond.c:40-113 | with the mutex free every thread can step that neither sleeps nor waits for others to exit nor has exited; a sleeper may wake at any time for no reason |
| WorkerPool.Pool.MainMoves | Linuxlhq/004Concurrent/thread/posix/009prime_cond.c:40-76 | the in-place step of main is the protocol step, for every position in the code, and reports whether main was blocked |
| WorkerPool.Pool.WorkerMoves | Linuxlhq/004Concurrent/thread/posix/009prime_cond.c:87-113 | the in-place step of a worker is the protocol step, for every position in the code, and reports whether the worker was blocked |
| WorkerPool.Pool.Schedule | Linuxlhq/004Concurrent/thread/posix/009prime_cond.c:40-113 | the program under any scheduler is a run of the protocol |
| RelayMachine.Fsm.Driver | Linuxlhq/005AdvanceIO/nonblock/001relay.c:34-96 | one call pushes the machine one step, and aborts exactly in the terminal state, leaving it as it was |
| RelayMachine.Fsm.Read | Linuxlhq/005AdvanceIO/nonblock/001relay.c:38-55 | a read fills the buffer from its start, in order, and records what was consumed; end of file, EAGAIN and errors lead where they should |
| RelayMachine.Fsm.Write | Linuxlhq/005AdvanceIO/nonblock/001relay.c:57-80 | a write of any length moves exactly the bytes it took from buffer to output |
| RelayMachine.DriveConserves | Linuxlhq/005AdvanceIO/nonblock/002relay_select.c:33-93 | one step consumes just what the kernel delivers with the reply, in its order, and neither loses, repeats nor reorders a byte |
| RelayMachine.DriveAllConserves | Linuxlhq/005AdvanceIO/nonblock/003relay_poll.c:33-93 | any number of steps of one machine, up to the one that would abort, consume just what the kernel delivers in them, in order, and neither lose, repeat nor reorder a byte |
| RelayMachine.GoesOnIff | Linuxlhq/005AdvanceIO/nonblock/001relay.c:34-96 | a machine goes on reading and writing exactly as long as it met neither an end of file nor an error other than EAGAIN |
| RelayMachine.NothingLost | Linuxlhq/005AdvanceIO/nonblock/001relay.c:34-96 | whatever the descriptors answer, delivered bytes are a prefix of those consumed, the rest lies inside the buffer, and end of file means all were delivered |
| RelayLosses.BytesOwed | Linuxlhq/005AdvanceIO/nonblock/001relay.c:38-80 | from the replies alone: the bytes read are what the replies to reads carried, one after the other, and the bytes delivered are all of these but the last ones, as many as those by which the writes since the last read that was not empty fall short of it |
| RelayLoops.BusyRelay | Linuxlhq/005AdvanceIO/nonblock/001relay.c:121-124 | the loop over two machine objects is the specified run of passes |
| RelayLoops.SelectOnce | Linuxlhq/005AdvanceIO/nonblock/002relay_select.c:123-171 | one pass builds the sets, waits, and pushes the machines as specified |
| RelayLoops.SelectRelay | Linuxlhq/005AdvanceIO/nonblock/002relay_select.c:123-171 | the whole loop is the specified run |
| RelayLoops.PollOnce | Linuxlhq/005AdvanceIO/nonblock/003relay_poll.c:129-172 | one pass sets the events of both slots, waits, and pushes the machines as specified, old revents included |
| RelayLoops.PollRelayLoop | Linuxlhq/005AdvanceIO/nonblock/003relay_poll.c:129-172 | the whole loop is the specified run |
| RelayRefinement.PassAlike | Linuxlhq/005AdvanceIO/nonblock/002relay_select.c:165-170 | skipping a machine that waits is a busy-loop step answered EAGAIN |
| RelayRefinement.SelectRefinesBusy | Linuxlhq/005AdvanceIO/nonblock/002relay_select.c:123-171 | every run of the select loop is, to an observer of machines and bytes, a run of the busy loop with no more passes |
| RelayRefinement.PollRefinesBusy | Linuxlhq/005AdvanceIO/nonblock/003relay_poll.c:129-172 | every run of the poll loop is a run of the busy loop, whatever the revents fields held at first |
| RelayRefinement.SelectReadinessIff | Linuxlhq/005AdvanceIO/nonblock/002relay_select.c:130-170 | from what select reports alone: in every run a pass drives a waiting machine by its reply exactly if the descriptor and direction that it waits for is reported, leaves it as it is otherwise, and always pushes one in the error state; a signal changes nothing and a failure quits; all this if and only if the two descriptors differ |
| RelayRefinement.SelectPassReacts | Linuxlhq/005AdvanceIO/nonblock/002relay_select.c:130-170 | what one pass does, for any two descriptors: with one descriptor at both ends a machine is also driven for what the other one asked for |
| RelayRefinement.PollReadiness | Linuxlhq/005AdvanceIO/nonblock/003relay_poll.c:134-171 | from what poll reports alone, whatever the revents held: a pass drives a waiting machine exactly if the bit of its own slot and direction is reported, also with both ends on one descriptor; a signal changes nothing and a failure quits |
| RelayRefinement.BusyConserves | Linuxlhq/005AdvanceIO/nonblock/001relay.c:121-124 | both directions keep every byte over whole runs of the busy loop |
| RelayRefinement.SelectAndPollConserve | Linuxlhq/005AdvanceIO/nonblock/003relay_poll.c:129-172 | by refinement both directions keep every byte over whole runs of the select and poll loops |
| RelayRefinement.BusyAbortsIff | Linuxlhq/005AdvanceIO/nonblock/001relay.c:88-91 | a run of the busy loop aborts if and only if some pass left exactly one direction in the terminal state |
| RelayRefinement.BusyEndsIff | Linuxlhq/005AdvanceIO/nonblock/001relay.c:121-124 | the busy loop is left normally if and only if in some pass both directions come to their end |
| RelayRefinement.SelectAbortsIff | Linuxlhq/005AdvanceIO/nonblock/002relay_select.c:149-170 | a run of the select loop aborts if and only if some pass began with one direction ended, and select reported readiness or was not called |
| RelayRefinement.PollAbortsIff | Linuxlhq/005AdvanceIO/nonblock/003relay_poll.c:154-171 | a run of the poll loop aborts if and only if some pass began with one direction ended, and poll reported readiness or was not called |
| RelayRefinement.BytesLostIff | Linuxlhq/005AdvanceIO/nonblock/001relay.c:38-91 | in every run of all three loops, cut off, aborted or left, a direction has read bytes it did not deliver if and only if it is in the write state or gave up on a write |
| RelayLosses.BytesLostFrom | Linuxlhq/005AdvanceIO/nonblock/001relay.c:121-124 | in whole runs of the busy, the select and the poll loop, aborted or not, each direction has read the stream that the replies to its reads carried and delivered it in order, up to the bytes by which the writes since its last read that was not empty fall short of it |
| RelayRefinement.AbortLosesBytes | Linuxlhq/005AdvanceIO/nonblock/001relay.c:121-124 | such a run that aborts: one side closing while the other has just sent |
| Relayer.RelJob.Push | Linuxlhq/005AdvanceIO/nonblock/relayer/relayer.c:121-127 | one slot of a turn pushes both machines of a running job, and reports the abort exactly when one of them has ended |
| Relayer.Table.GetFreePos | Linuxlhq/005AdvanceIO/nonblock/relayer/relayer.c:42-50 | the first free slot, or -1 exactly when there is none |
| Relayer.Table.AddJob | Linuxlhq/005AdvanceIO/nonblock/relayer/relayer.c:150-197 | a fresh job in the first free slot, both directions reading; a full table and all other jobs stay as they are |
| Relayer.Table.Pass | Linuxlhq/005AdvanceIO/nonblock/relayer/relayer.c:118-130 | one turn over the table pushes every running job once and nothing else, up to the first job that aborts the process |
| Relayer.Table.Serve | Linuxlhq/005AdvanceIO/nonblock/relayer/relayer.c:114-132 | turns and additions in any order make the specified run of the table, until the process aborts |
| Relayer.EachAlone | Linuxlhq/005AdvanceIO/nonblock/relayer/relayer.c:114-197 | in every run of turns and additions the process has aborted if and only if some job of the table, alone, would have aborted it, and until then every slot holds what its job would be alone |
| Relayer.TableOfRelays | Linuxlhq/005AdvanceIO/nonblock/relayer/relayer.c:114-197 | until the process aborts slot i holds the machines of a busy relay that starts when the i-th job is added and gets the answers of its own column; the process aborts exactly when one of these relays does |
| Relayer.AloneIsBusyRelay | Linuxlhq/005AdvanceIO/nonblock/relayer/relayer.c:121-127 | a job by itself is a run of the busy relay loop, aborting when that does |
| Relayer.TableKeeps | Linuxlhq/005AdvanceIO/nonblock/relayer/relayer.c:52-131 | in every run of the table, also one ended by the abort at a neighbour, every job in every slot has delivered what it read, but for what lies in the buffer of a machine that writes or gave up on a write |
| Relayer.TableStreams | Linuxlhq/005AdvanceIO/nonblock/relayer/relayer.c:52-131 | in every run of the table, aborted or not, each direction of each job has read the stream that the replies to its own reads carried and delivered it in order, up to its shortfall |
| TokenBucket.Conservation | Linuxlhq/IPV4Muticast/src/server/mytbf.c:28-48 | over any operations: fetched minus returned plus left plus lost to the full bucket is what was there plus `cps` for every tick |
| TokenBucket.RateLimit | Linuxlhq/IPV4Muticast/src/server/mytbf.c:131-174 | over any stretch of any run the net number of tokens handed out is at most burst plus cps for every tick in it |
| TokenBucket.StaysInBounds | Linuxlhq/IPV4Muticast/src/server/mytbf.c:131-174 | 0 <= token <= burst is kept by every run |
| TokenBucket.BoundsIff | Linuxlhq/IPV4Muticast/src/server/mytbf.c:100-130 | a new bucket keeps these bounds in all runs if and only if neither cps nor burst is negative; the library checks neither |
| TokenBucket.EachAlone | Linuxlhq/IPV4Muticast/src/server/mytbf.c:28-48 | in every run over the whole table, with slots used again, each slot holds what its bucket makes of its own operations and the ticks since it was made |
| TokenBucket.TableKeepsRates | Linuxlhq/IPV4Muticast/src/server/mytbf.c:28-48 | so the books of every bucket of the table balance, and each keeps its rate, in every run over the table |
| TokenBucket.Reply | Linuxlhq/IPV4Muticast/src/server/mytbf.c:131-174 | a fetch gets at least one token, and all it asked for or all there are; it waits exactly while there are none; a return answers its size; a size that is not positive is refused |
| TokenBucket.Book | Linuxlhq/IPV4Muticast/src/server/mytbf.c:36-40 | tokens are lost only into a bucket that is full afterwards |
| TokenBucket.MyTbf.Refill | Linuxlhq/IPV4Muticast/src/server/mytbf.c:37-40 | a tick adds cps tokens, clamped to the burst, and changes nothing else |
| TokenBucket.MyTbf.FetchToken | Linuxlhq/IPV4Muticast/src/server/mytbf.c:135-153 | a fetch at its critical section: the invalid size, the empty bucket on which it goes on waiting, or as many tokens as there are up to the size |
| TokenBucket.MyTbf.ReturnToken | Linuxlhq/IPV4Muticast/src/server/mytbf.c:157-174 | a return adds the tokens, clamped to the burst; a size that is not positive is refused and changes nothing |
| TokenBucket.Table.GetFreePos | Linuxlhq/IPV4Muticast/src/server/mytbf.c:89-98 | the first free slot, or -1 exactly when there is none |
| TokenBucket.Table.Init | Linuxlhq/IPV4Muticast/src/server/mytbf.c:100-130 | a new empty bucket in a slot of its own, which it remembers; no other slot or bucket changes; null exactly when the table is full |
| TokenBucket.Table.TickAll | Linuxlhq/IPV4Muticast/src/server/mytbf.c:33-45 | one second ticks every live bucket once and touches nothing else |
| TokenBucket.Table.Destroy | Linuxlhq/IPV4Muticast/src/server/mytbf.c:176-187 | the slot of a live bucket, and only it, becomes free |
| TokenBucket.Table.UseSlot | Linuxlhq/IPV4Muticast/src/server/mytbf.c:131-174 | a fetch or a return at the bucket in a slot disturbs no other bucket |
| TokenBucket.Table.Serve | Linuxlhq/IPV4Muticast/src/server/mytbf.c:28-187 | seconds, creations, fetches, returns and destructions in any order make the specified run of the table |
| BucketWait.OneAfterTheOther | Linuxlhq/IPV4Muticast/src/server/mytbf.c:131-174 | every interleaving of any number of fetches, returns and ticks at single statements is some order of whole operations: the bucket is what they make of it, and every call got the answer it gets in that order |
| BucketWait.DoesWhatIsCalled | Linuxlhq/IPV4Muticast/src/server/mytbf.c:131-174 | in every interleaving the operations of a thread that took effect, then the one it is at, are its calls with a positive size and its ticks, in the order in which it made them |
| BucketWait.RateLimit | Linuxlhq/IPV4Muticast/src/server/mytbf.c:36-42 | in every stretch of every interleaving the tokens handed out, less those returned, are at most the burst plus cps for every tick in it, and the books of the stretch balance |
| BucketWait.NoLostWakeup | Linuxlhq/IPV4Muticast/src/server/mytbf.c:141-150 | whenever the mutex is free and there are tokens, no fetch is asleep |
| BucketWait.OnlyEmptyStops | Linuxlhq/IPV4Muticast/src/server/mytbf.c:141-150 | when no call can go on, every thread is idle or a fetch asleep on a bucket without tokens, and the mutex is free |
| BucketWait.FreeMutexStopsNobody | Linuxlhq/IPV4Muticast/src/server/mytbf.c:131-174 | with the mutex free every thread can step that does not sleep; a sleeper may wake at any time for no reason |
| BucketWait.StepInv | Linuxlhq/IPV4Muticast/src/server/mytbf.c:36-42 | every statement of every thread keeps mutex ownership, token count, answers and wakeups in order |
| BucketWait.SharedBucket.ThreadMoves | Linuxlhq/IPV4Muticast/src/server/mytbf.c:131-174 | the in-place step of a thread is the protocol step, and reports whether the thread was blocked |
| BucketWait.SharedBucket.Schedule | Linuxlhq/IPV4Muticast/src/server/mytbf.c:131-174 | the threads under any scheduler make a run of the protocol |
| ThrottledCopy.CopiesAndThrottles | Linuxlhq/004Concurrent/thread/posix/mytbf_mutcond/main.c:68-113 | under every script of seconds, short reads, short writes, EINTR and errors: output is a prefix of the input, all of it at end of file, at most cps bytes per second, and every token is accounted for |
| ThrottledCopy.WindowRate | Linuxlhq/004Concurrent/thread/posix/mytbf_mutcond/main.c:68-113 | in every stretch of a run the bytes written are bounded by cps for each second in it plus what bucket and buffer could have saved up |
| ThrottledCopy.UsesTheBucket | Linuxlhq/004Concurrent/thread/posix/mytbf_mutcond/main.c:68-113 | in every run the bucket, the seconds and the tokens lost are those of the bucket ledger for fetches of a whole buffer and the returns made, and what was fetched and not returned is written or held |
| ThrottledCopy.MovesAllItMay | Linuxlhq/004Concurrent/thread/posix/mytbf_mutcond/main.c:75-113 | a read or write moves all that the kernel lets it, limited by the tokens, the input and the bytes at hand only |
| ThrottledCopy.EndsIff | Linuxlhq/004Concurrent/thread/posix/mytbf_mutcond/main.c:56-113 | a run has failed if and only if an open, read or write met an error other than EINTR, and is at the end of the file if and only if a read was answered with nothing left to read |
| ThrottledCopy.CanFinishIff | Linuxlhq/004Concurrent/thread/posix/mytbf_mutcond/main.c:68-113 | a run that has not failed can still reach end of file if and only if rate and burst are both positive |
| ThrottledCopy.NextInv | Linuxlhq/004Concurrent/thread/posix/mytbf_mutcond/main.c:68-113 | every event keeps the accounts of tokens and bytes |
| ThrottledCopy.Copier.Copy | Linuxlhq/004Concurrent/thread/posix/mytbf_mutcond/main.c:54-113 | the nested loops end as the event machine ends, with its output, offset, bucket and seconds |
| ThrottledCopy.Copier.OpenSource | Linuxlhq/004Concurrent/thread/posix/mytbf_mutcond/main.c:54-65 | the open loop retries on EINTR only |
| ThrottledCopy.Copier.Fetch | Linuxlhq/004Concurrent/thread/posix/mytbf_mutcond/main.c:70-73 | seconds pass, also after tokens have come, until the fetch gets the bucket; the size fetched is positive and fits the buffer |
| ThrottledCopy.Copier.Read | Linuxlhq/004Concurrent/thread/posix/mytbf_mutcond/main.c:75-88 | the read loop retries on EINTR, gives up on errors, and knows end of file |
| ThrottledCopy.Copier.Restore | Linuxlhq/004Concurrent/thread/posix/mytbf_mutcond/main.c:90-93 | seconds pass until the return of the unused tokens gets the bucket |
| ThrottledCopy.Copier.Write | Linuxlhq/004Concurrent/thread/posix/mytbf_mutcond/main.c:95-109 | the write loop survives short writes and EINTR and ends with nothing left to write |
| SoftwareTimers.CalledAtDeadlines | Linuxlhq/006IPC/socket/STREAM/06anytimer/anytime.c:31-51 | in every run, with slots used again, each job ever added was called exactly at its absolute deadlines, and from its cancellation on never |
| SoftwareTimers.CallCount | Linuxlhq/006IPC/socket/STREAM/06anytimer/anytime.c:114-186 | in figures: a repeating job floor(k / sec) times in k seconds, a one-shot job once if k >= sec, a job with sec = 0 never |
| SoftwareTimers.AddAnswers | Linuxlhq/006IPC/socket/STREAM/06anytimer/anytime.c:114-185 | the number answered is that of a slot that was free and now holds just the new job, running for its whole period, and nothing else has changed; EINVAL exactly for a negative period, ENOSPC exactly if no slot is free |
| SoftwareTimers.CancelAnswers | Linuxlhq/006IPC/socket/STREAM/06anytimer/anytime.c:199-213 | an answer of 0 puts the running job of that slot, and no other, on record as cancelled; every other answer changes nothing and tells the state of the slot |
| SoftwareTimers.WaitAnswers | Linuxlhq/006IPC/socket/STREAM/06anytimer/anytime.c:222-239 | an answer of 0 frees that slot and no other; every other answer changes nothing and tells the state of the slot |
| SoftwareTimers.AddThenCancel | Linuxlhq/006IPC/socket/STREAM/06anytimer/anytime.c:114-213 | in every reachable state the number that an addition answers cancels the job it added and no other |
| SoftwareTimers.AnswersFromRecord | Linuxlhq/006IPC/socket/STREAM/06anytimer/anytime.c:199-239 | in every reachable state what cancelling and waiting answer, from the history of the job alone: whether it was cancelled, and whether its only deadline has come |
| SoftwareTimers.FiresInOrder | Linuxlhq/006IPC/socket/STREAM/06anytimer/anytime.c:31-51 | the callbacks of one alarm come in the order of the slots |
| SoftwareTimers.AlarmsCall | Linuxlhq/006IPC/socket/STREAM/06anytimer/anytime.c:31-51 | the jobs reported as called by the alarms in the middle of a call are those whose calls go on record |
| SoftwareTimers.JobTicks | Linuxlhq/006IPC/socket/STREAM/06anytimer/anytime.c:39-48 | one second of a countdown agrees with one second of the deadlines |
| SoftwareTimers.CalledOnce | Linuxlhq/006IPC/socket/STREAM/06anytimer/anytime.c:37-50 | one alarm calls a due job exactly once, whatever else is in the table |
| SoftwareTimers.StepAlarm | Linuxlhq/006IPC/socket/STREAM/06anytimer/anytime.c:31-51 | the alarm keeps every countdown in step with its record |
| SoftwareTimers.StepAdd | Linuxlhq/006IPC/socket/STREAM/06anytimer/anytime.c:114-186 | adding a job in a free slot keeps all countdowns in step with their records, and the new one starts in step |
| SoftwareTimers.StepCancel | Linuxlhq/006IPC/socket/STREAM/06anytimer/anytime.c:199-213 | cancelling, with any alarms between its tests and its assignment, keeps the other jobs in step, and the job itself is settled |
| SoftwareTimers.StepWait | Linuxlhq/006IPC/socket/STREAM/06anytimer/anytime.c:222-239 | freeing a job keeps the others in step |
| SoftwareTimers.RepeatKeepsSlot | Linuxlhq/006IPC/socket/STREAM/06anytimer/anytime.c:222-229 | the slot of a repeating job is never free again, whatever is done later |
| SoftwareTimers.SlotFreedIff | Linuxlhq/006IPC/socket/STREAM/06anytimer/anytime.c:199-239 | in every reachable state the slot of a job can still be freed if and only if the job is not a repeating one |
| SoftwareTimers.CancelPromises | Linuxlhq/006IPC/socket/STREAM/06anytimer/anytime.c:199-213 | after an answer of 0 from cancelling the job is never called again; up to the return it was called at its deadlines, so during the call exactly if a deadline fell between the tests and the assignment |
| SoftwareTimers.NeverAgain | Linuxlhq/006IPC/socket/STREAM/06anytimer/anytime.c:204-210 | a cancelled job is never called again, whatever is done later |
| SoftwareTimers.WildIff | Linuxlhq/006IPC/socket/STREAM/06anytimer/anytime.c:233-236 | the handler reads freed memory in exactly the runs in which an alarm interrupts a succeeding wait between freeing the job and clearing its slot |
| SoftwareTimers.AnyTimer.AlarmAction | Linuxlhq/006IPC/socket/STREAM/06anytimer/anytime.c:31-51 | the handler over the table is one tick of every running job, calling the due ones in order |
| SoftwareTimers.AnyTimer.GetFreePos | Linuxlhq/006IPC/socket/STREAM/06anytimer/anytime.c:97-105 | the first free slot |
| SoftwareTimers.AnyTimer.AddJob | Linuxlhq/006IPC/socket/STREAM/06anytimer/anytime.c:114-186 | both ways of adding, with their error answers |
| SoftwareTimers.AnyTimer.CancelJob | Linuxlhq/006IPC/socket/STREAM/06anytimer/anytime.c:199-213 | cancelling, with its three error answers, for every id and any alarms between the tests and the assignment; an id equal to JOB_MAX reads behind the table |
| SoftwareTimers.AnyTimer.Interrupt | Linuxlhq/006IPC/socket/STREAM/06anytimer/anytime.c:31-51 | alarms in the middle of a call tick the table and call the due jobs |
| SoftwareTimers.AnyTimer.WaitJob | Linuxlhq/006IPC/socket/STREAM/06anytimer/anytime.c:222-239 | one look of the wait, with its error answers, for every id; an id equal to JOB_MAX reads behind the table, and an alarm between freeing and clearing is reported |
| LockRing.LettersInTurn | Linuxlhq/004Concurrent/thread/posix/007printabcd.c:23-59 | under every schedule, also while main is still preparing, letters come in cyclic order, one thread at a time has the turn, and no mutex is used before it is initialised |
| LockRing.NeverStuck | Linuxlhq/004Concurrent/thread/posix/007printabcd.c:23-59 | in every reachable state main or some thread can move |
| LockRing.PrintsOneInThree | Linuxlhq/004Concurrent/thread/posix/007printabcd.c:29-36 | after any schedule with k possible thread steps exactly (k + 1) / 3 letters are printed |
| LockRing.Ring.MainMoves | Linuxlhq/004Concurrent/thread/posix/007printabcd.c:45-59 | the in-place step of main is the protocol step |
| LockRing.Ring.ThreadMoves | Linuxlhq/004Concurrent/thread/posix/007printabcd.c:29-36 | the in-place step of a thread is the protocol step |
| LockRing.Ring.Schedule | Linuxlhq/004Concurrent/thread/posix/007printabcd.c:23-59 | the program under any scheduler is a run of the protocol |
| Cycle.NextIsDue | Linuxlhq/004Concurrent/thread/posix/007printabcd.c:16-21 | `next` counts modulo the number of threads |
| CondRing.LettersInTurn | Linuxlhq/004Concurrent/thread/posix/010printabcd_cond.c:26-61 | under every schedule and any spurious wakeups: cyclic order, no letter more than m times, one thread inside |
| CondRing.FreeMutexStopsNobody | Linuxlhq/004Concurrent/thread/posix/010printabcd_cond.c:34-60 | with the mutex free every thread can step that neither sleeps nor has exited; a sleeper may wake at any time for no reason |
| CondRing.StuckIsDone | Linuxlhq/004Concurrent/thread/posix/010printabcd_cond.c:34-60 | a state in which nobody can move has printed exactly m rounds and every thread has exited |
| CondRing.PrintsAllRounds | Linuxlhq/004Concurrent/thread/posix/010printabcd_cond.c:34-60 | every schedule of runnable threads is over after boundedly many steps, and then exactly m full rounds are printed |
| CondRing.Printer.ThreadMoves | Linuxlhq/004Concurrent/thread/posix/010printabcd_cond.c:34-60 | the in-place step of a thread is the protocol step |
| CondRing.Printer.Schedule | Linuxlhq/004Concurrent/thread/posix/010printabcd_cond.c:26-61 | the program under any scheduler is a run of the protocol |
| ListPacket.RoundTripIff | Linuxlhq/IPV4Muticast/src/client/client.c:197-216 | the client reads back exactly the list the server laid out, ending at the packet end, if and only if the list is not empty and its packet fits MSG_LIST_MAX |
| ListPacket.WalkWhole | Linuxlhq/IPV4Muticast/src/client/client.c:213-216 | a message that ends with whole entries is walked to its very end and gives the entries |
| ListPacket.WalkCut | Linuxlhq/IPV4Muticast/src/client/client.c:213-216 | a message cut short anywhere is never read as the whole list |
| ListPacket.PacketsDiffer | Linuxlhq/IPV4Muticast/src/server/thr_list.c:50-61 | different lists have different packets |
| ListPacket.ChannelPacketsDropped | Linuxlhq/IPV4Muticast/src/client/client.c:203-206 | a packet of any other channel is never taken for the list, whatever it carries |
| ListPacket.WalkEntry | Linuxlhq/IPV4Muticast/src/include/proto.h:31-42 | one entry that lies whole in the message is read back, and the walk goes on right behind it |
| ListPacket.WalkStep | Linuxlhq/IPV4Muticast/src/client/client.c:213-216 | the walk at any position of any message, from its bytes: past the end, staying for ever, or the entry and on by its size |
| ListPacket.TotalSize | Linuxlhq/IPV4Muticast/src/server/thr_list.c:31-40 | the first loop computes the size of the packet |
| ListPacket.FillEntry | Linuxlhq/IPV4Muticast/src/server/thr_list.c:55-60 | the bytes of one entry at the moving pointer, nothing before it touched |
| ListPacket.BuildPacket | Linuxlhq/IPV4Muticast/src/server/thr_list.c:31-61 | the buffer holds exactly the layout of the list |
| ListPacket.ReadCString | Linuxlhq/IPV4Muticast/src/client/client.c:214-214 | the description up to its zero, or none within the message |
| ListPacket.PrintList | Linuxlhq/IPV4Muticast/src/client/client.c:213-216 | the loop lists what the walk specifies, with where it ended |
| ListPacket.ReceiveList | Linuxlhq/IPV4Muticast/src/client/client.c:197-208 | the first arrival that passes the two tests is taken and those before it are dropped, failures of recvfrom included; the buffer holds what the arrivals left in it |
| ListPacket.Receive | Linuxlhq/IPV4Muticast/src/client/client.c:198-206 | one arrival in the buffer, and the two tests |
| ListPacket.TakenDatagram | Linuxlhq/IPV4Muticast/src/client/client.c:198-216 | a datagram is taken and walked as it is by itself, whatever the buffer held |
| ListPacket.FailureTakenIff | Linuxlhq/IPV4Muticast/src/client/client.c:198-206 | a failing recvfrom is taken for a list, one without entries, if and only if the last datagram before it that was not empty began with the channel number of the list, or there was none and the memory does |
| ListPacket.EmptyListThenFailure | Linuxlhq/IPV4Muticast/src/client/client.c:198-206 | the packet of an empty list is dropped, and a failure right after it is taken |
| QuickSort.QuickSort | Other/ErrCode/errCode.cpp:1262-1296 | ends with a[left..right] in descending order, a permutation of its old contents, and everything else unchanged |
| QuickSort.Partition | Other/ErrCode/errCode.cpp:1270-1292 | the pivot at a place with nothing smaller before it and nothing larger behind it, the array a permutation again |
| QuickSort.FillFromRight | Other/ErrCode/errCode.cpp:1278-1283 | the hole moves from the left end of the window to the right one, keeping the permutation up to the pivot |
| QuickSort.FillFromLeft | Other/ErrCode/errCode.cpp:1284-1288 | the hole moves back from the right end of the window to the left one, keeping the permutation up to the pivot |
| QuickSort.MoveHole | Other/ErrCode/errCode.cpp:1278-1288 | moving an element into the hole keeps the multiset of the array with the pivot put back |
| QuickSort.HalvesSorted | Other/ErrCode/errCode.cpp:1293-1295 | sorting the two sides of a placed pivot sorts the whole |
| WordReverse.WordsTurnedAround | Other/ErrCode/errCode.cpp:1351-1372 | the result has the words of the input in reverse order with the same separators, for any string and any runs of spaces |
| WordReverse.TwiceIsIdentity | Other/ErrCode/errCode.cpp:1351-1372 | applied twice the function gives back its input |
| WordReverse.FixIsRevEach | Other/ErrCode/errCode.cpp:1357-1370 | the loop reverses each word where it stands |
| WordReverse.JoinOfWords | Other/ErrCode/errCode.cpp:1347-1348 | splitting into words loses nothing |
| WordReverse.WordsOfJoin | Other/ErrCode/errCode.cpp:1347-1348 | joining words and splitting again gives the same words |
| WordReverse.ReverseRange | Other/ErrCode/errCode.cpp:1366-1366 | reversing a range in place |
| WordReverse.FindSpace | Other/ErrCode/errCode.cpp:1359-1364 | the first space at or behind a position, or n |
| WordReverse.ReverseWordAt | Other/ErrCode/errCode.cpp:1359-1366 | the body of the loop reverses the word at i and nothing else |
| WordReverse.FixInPlace | Other/ErrCode/errCode.cpp:1357-1370 | the loop over the first n characters fixes these and leaves the others |
| WordReverse.ReverseString | Other/ErrCode/errCode.cpp:1351-1372 | the whole function gives the words in reverse order with the same separators when n is the length, and fixes the first n characters of the reversed string otherwise |
| Shuffle.ChoicesArePermutations | Other/ErrCode/errCode.cpp:2427-2442 | for distinct cards choices map one-to-one onto permutations |
| Shuffle.DealtPermutes | Other/ErrCode/errCode.cpp:2435-2441 | every shuffle is a permutation of the cards |
| Shuffle.DealtInjective | Other/ErrCode/errCode.cpp:2435-2441 | different choices give different decks |
| Shuffle.DealtSurjective | Other/ErrCode/errCode.cpp:2435-2441 | every permutation comes from some choices |
| Shuffle.ChoicesReachable | Other/ErrCode/errCode.cpp:2437-2437 | every sequence of choices comes from some values of `rand` |
| Shuffle.ChoiceIsRemainder | Other/ErrCode/errCode.cpp:2437-2437 | step k chooses among its n - k cards, by a number that differs from its value of `rand` by a multiple of n - k, for values of any size |
| Shuffle.ShuffleCards | Other/ErrCode/errCode.cpp:2427-2442 | the loop in place deals the deck that the choices determine; a null deck is left alone |
| SmartPointer.CountsAreOwners | Other/ErrCode/errCode.cpp:2453-2503 | in every run each count is the number of live smart pointers sharing the counter, no deleted counter is touched, and a counter has been deleted once if nobody owns it and not at all otherwise |
| SmartPointer.HoldsWhatItNames | Other/ErrCode/errCode.cpp:2453-2503 | in every run each variable shares the counter of the object it names by the meaning of construction, copy and assignment, and that counter is of the object that was handed over |
| SmartPointer.DeletesWithTheLast | Other/ErrCode/errCode.cpp:2480-2499 | an operation deletes exactly the counter, with its object, whose last owner it takes away |
| SmartPointer.KeepsTheOwned | Other/ErrCode/errCode.cpp:2480-2499 | an operation that takes no last owner away deletes nothing |
| SmartPointer.Conserved | Other/ErrCode/errCode.cpp:2453-2503 | in every run the objects handed over are those deleted and those still held, with multiplicity; with no smart pointer left all are deleted |
| SmartPointer.DeletedOnceIff | Other/ErrCode/errCode.cpp:2467-2470 | from any point of any run on, no object is ever deleted twice if and only if no object was handed over twice as a raw pointer; null may be handed over any number of times |
| SmartPointer.DeletedTwice | Other/ErrCode/errCode.cpp:2467-2470 | a run that deletes an object twice |
| SmartPointer.AssignInv | Other/ErrCode/errCode.cpp:2480-2490 | assignment keeps the counts, also between sharers and to itself |
| SmartPointer.StepInv | Other/ErrCode/errCode.cpp:2467-2499 | every operation keeps counts and deletion logs |
| SmartPointer.Memory.Create | Other/ErrCode/errCode.cpp:2467-2470 | construction from a raw pointer gives a new counter with one owner and keeps all counts right |
| SmartPointer.Memory.Copy | Other/ErrCode/errCode.cpp:2473-2477 | copy construction shares the counter and keeps all counts right |
| SmartPointer.Memory.Assign | Other/ErrCode/errCode.cpp:2480-2490 | operator= moves a variable from one counter to another, deleting the one it leaves if it was the last, and keeps all counts right, also for self-assignment |
| SmartPointer.Memory.Destroy | Other/ErrCode/errCode.cpp:2491-2499 | destruction gives up a reference, deleting counter and object if it was the last, and keeps all counts right |
| SmartPointer.Memory.Release | Other/ErrCode/errCode.cpp:2483-2487 | giving up one reference, with the deletion of counter and object if it was the last |
| PrimeFactors.Prim | Other/ErrCode/errCode.cpp:1056-1068 | the loop and the recursion end; started as prim(m, 2) it prints nothing for m <= 2, and above that the prime factorisation of m, largest first, with a repeated largest prime printed once too few |
| PrimeFactors.PrintedProduct | Other/ErrCode/errCode.cpp:1056-1068 | for every m >= 1 the numbers printed by prim(m, 2) are primes, largest first; they multiply to m if and only if m is not 2 and the square of the largest prime factor does not divide m, and otherwise the largest prime factor is missing once |
| PrimeFactors.TwoFallsShort | Other/ErrCode/errCode.cpp:1058-1058 | of 2 nothing is printed, although no square divides it |
| PrimeFactors.FourFallsShort | Other/ErrCode/errCode.cpp:1056-1068 | of 4 a single 2 is printed |
| PrimeFactors.PrintedPrimes | Other/ErrCode/errCode.cpp:1056-1068 | for every m >= 1 a prime is printed by prim(m, 2) if and only if it divides m and m is not 2 |
| PrimeFactors.ShowsOnce | Other/ErrCode/errCode.cpp:1056-1068 | the answer is determined by m |
| PrimeFactors.LeastDivisor | Other/ErrCode/errCode.cpp:1060-1064 | the divisor the loop finds is prime, and dividing it out leaves a number with no smaller divisor |
| PrimeFactors.Unique | Other/ErrCode/errCode.cpp:1055-1055 | a number has one prime factorisation, largest first |
| PrimeFactors.Euclid | Other/ErrCode/errCode.cpp:1055-1055 | a prime that divides a product divides a factor |

## Left out

- Real I/O, sockets, signals, process and thread creation, `fcntl` flags and `printf` output: they are the parameters described above, or have no influence on what is proved.
- Allocation failures, and the allocation of a pointer's size at mytbf_mutcond/mytbf.c:120: an allocation gives a full fresh object.
- Integer widths: counters, token counts and byte counts are unbounded; only the 16-bit length field of the list packet is truncated as the code truncates it.
- Relayer.RelJob.Push: the two machines of a job are held by value inside the job, as in the C structure; aliasing of one machine from two jobs cannot arise.
- SoftwareTimers.AnyTimer.CancelJob: an id equal to JOB_MAX passes the range test of the code and reads past the table; the model answers `PastTable` and does not say what lies there.
- SoftwareTimers.AnyTimer.WaitJob: answers `PastTable` for the same id, and is one look at the job; the pause between two looks is the alarms that come between them. After the handler has read freed memory the run ends.
- anytime.c never installs its handler, because `inited` starts at 1 (line 26); the alarms of the model come anyway.
- Timer callbacks that call the library again, and freeing a job or bucket while another thread waits for it.
- TokenBucket.MyTbf.FetchToken: is the critical section of a fetch; the wait before it, step by step, is `BucketWait`, where a bucket is neither created nor destroyed.
- PrimeFactors.Prim: n below 2, where the code divides by zero or recurses forever, is excluded; for an n above the least divisor of m only the order and the lower bound of what is printed are stated.
- SmartPointer.Memory.Create: the C++ heap is a map from addresses of counters and from variables, so that copies alias; raw objects are numbered as they are allocated, and what an object does when deleted is not modelled. The missing return statement of `operator=` (line 2490) is ignored.
- WordReverse.ReverseString: n beyond the length of the string, where the code reads past its end, is excluded.
- ListPacket.PrintList: a read past the received bytes is reported as `Overrun` instead of what lies behind them.
- The limit of 65507 bytes that UDP itself sets; the packet bound is the MSG_LIST_MAX of proto.h.
- The prime test inside the workers (009prime_cond.c:118-129): its loop condition `i < i/2` is false for every positive number, so each is reported prime; only the hand-off is modelled, and which worker works on which number.
- `alarm(5)` in both printers ends the process at some moment; every moment is covered, since all prefixes of runs are.
- 004relay_epoll.c, the dynamic pool server, medialib.c, thr_channel.c, mypipe.c, and `LoopMove`, `Array::insert` and the permutation `run` of errCode.cpp: unfinished or defective as written.
- mysem.c, file counters, file copies, atoi, memcpy, bit counting, XOR search, two-pointer search and sampling: they would only add easy members.
