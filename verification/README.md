# pman in Dafny

pman is a Linux library of concurrency primitives. This project models the parts of it whose
correctness depends on every interleaving or on every run, and proves what they promise.

Each protocol is written twice. A datatype gives its state, an `Event` type its atomic steps, and
`Enabled`/`Apply` say what a step needs and does; `IsRun` and `Exec` range over all finite runs, so a
lemma about `Exec(Start(...), es)` is a statement about every reachable state. Beside it stands a class
with the fields of the source and one method per atomic instruction or per method of the source. In the
futex protocols, the channel, the async lock, the loop's queue and its timers every such method is proved to
perform exactly one `Apply` and to keep the invariant. The timer wheel performs one `Apply` of the timer pool per
schedule, cancel, firing and return, one for each timer that `ExtractExpired` takes out, and none in `Advance`; the rate
limiters perform their `Step`; the methods of the actor registry state their effect directly.

Loops of the source that run without interruption are loops here. Loops whose turns interleave with other
threads are not: the retry loops of `try_acquire`, `try_acquire_impl`, `lock`, `lock_shared`,
`try_lock_shared`, `SeqLock::read` and `Barrier::wait` are the cycles of the threads' program
counters, and the second loop of `processExpired`, between whose callbacks anything may happen, is one call
of `Fire` and one of `Finish` for each entry.

| file | what it models |
|---|---|
| `Semaphore.dfy` | the futex semaphore: `count_`, `waiters_`, any number of threads, the kernel's wait queue |
| `RwMutex.dfy`, `WriterProgress.dfy`, `ReaderProgress.dfy` | the futex reader/writer mutex with its packed state word and two futex words, when its writers lose wake-ups, and that its readers are never stranded |
| `SequenceLock.dfy`, `SpinBarrier.dfy` | the sequence lock and the spinning barrier |
| `Channel.dfy`, `ChannelHandles.dfy`, `RwLock.dfy`, `LoopQueue.dfy` | the bounded channel and the coroutines it suspends, the async lock on one event loop, and the loop's queue |
| `Actors.dfy` | links, monitors and the exit cascade of the actor registry |
| `TimerPool.dfy`, `WheelArithmetic.dfy`, `WheelContents.dfy`, `HierarchicalWheel.dfy` | the hierarchical timer wheel: what it promises, its arithmetic, its stored entries, and the wheel itself |
| `LoopTimers.dfy` | the event loop's timers: multimap, id index and processing passes |
| `TokenBucket.dfy`, `SlidingWindow.dfy` | the two rate limiters |
| `Calendar.dfy`, `CronSearch.dfy`, `CronText.dfy` | the Gregorian calendar, `nextAfter`, and the text form of cron expressions |
| `Tally.dfy`, `Wrappers.dfy` | sums over threads; an option type |

`dafny verify dfyconfig.toml` checks the whole project.

Assumptions: steps interleave sequentially consistently; counters, versions and timer ids do not wrap;
FUTEX_WAIT compares and sleeps in one step, FUTEX_WAKE(n) wakes min(n, sleepers) of the kernel's choice, and
a sleeper may be interrupted at any time; fewer than 2^29 threads use the reader/writer mutex; a coroutine
runs until it suspends and every resumption goes through the loop's queue; clocks are inputs
(non-decreasing for the rate limiters, arbitrary for the timers); rate-limiter tokens are reals.

Where the code does less than one might expect, the exact condition is proved:

- A successful `cancelTimer` on the event loop prevents all later runs of the timer if and only if the
  running pass has not collected the timer yet (`LoopTimers.CancelPreventsUncollectedRuns`); one-shot timers
  are always covered (`LoopTimers.CancelledOneShotNeverRuns`), and so is a callback that cancels its own timer
  (`LoopTimers.CancelFromOwnCallback`); a callback of another timer in the same pass cancels in vain
  (`LoopTimers.CancelFromOtherCallback`).
- `recv` may return an empty result on an open channel when several receivers compete. A direct receive is
  fair if fewer receiver wakes are posted than there are values buffered or blocked beyond the
  receivers waiting. In fair runs an empty result means closed and drained
  (`Channel.NoneMeansClosedAndDrained`), each unfair receive makes some receiver return empty from the
  open channel (`Channel.UnfairReceiveBreaksEndOfStream`), and a run is fair if and only if at no point of it
  the posted wakes alone would do that (`Channel.FairExactlyIfNobodyIsDisappointed`). A single consumer is always fair.
- A sender that blocked reports failure if and only if the channel is closed when it is resumed, even if its
  value was accepted and is delivered (`Channel.ResumedSendFailsExactlyIfClosed`,
  `Channel.AcceptedSendCanReportFailure`).
- Printing an expression and parsing it again gives it back if and only if each of its five fields has a
  bit set; otherwise the text is refused (`CronText.RoundTrip`).
- `nextAfter` gives up exactly when no minute of any year matches (`CronSearch.CronExpression.NextAfter`); its
  bound of 366*24*60 iterations suffices because the calendar repeats every 400 years.
- With one slot per wheel a cascaded timer goes back into the slot that was drained; with more than one it
  never does (`WheelArithmetic.NeverIntoCurrentSlot`).
- A writer of the reader/writer mutex can be left asleep on a free lock with nobody to wake it. This is
  impossible if and only if the program uses none of `lock_shared`, `try_lock_shared` and `downgrade`
  (`WriterProgress.WritersAreSafeExactlyWithoutReadLocks`). Readers are never left that way, whatever calls are
  used (`ReaderProgress.ReadersAreNeverStranded`).

## Model

| member | source | states |
|---|---|---|
| `Semaphore.NoLostWakeup` | src/semaphore.cpp:48-110 | In every run of any threads: the count is the initial count plus released minus acquired permits and never negative; if permits are available while somebody sleeps, some thread still owes a wake or is about to look at the count; with nobody mid-operation a positive count means nobody sleeps |
| `Semaphore.ReleaseNeverUnderflows` | src/semaphore.cpp:95-104 | In every run, the fetch_add of a release finds a count that is not negative, so its underflow exception is never thrown |
| `Semaphore.FailsOnlyWithReason` | src/semaphore.cpp:48-93 | In every run, an acquiring call that ends without a permit is try_acquire or has a zero timeout and there is no permit at that moment, or has a positive timeout that has expired; without a timeout no call fails; a call that succeeds takes exactly one permit |
| `Semaphore.TimedOutCallFails` | src/semaphore.cpp:81-88 | A call whose timeout has expired fails, and nothing but the expiry makes a call fail that way |
| `Semaphore.TimeoutIsKept` | src/semaphore.cpp:59-93 | Every step of every thread leaves a pending call its timeout argument |
| `Semaphore.PermitComesCloser` | src/semaphore.cpp:48-93 | While a permit is there, each instruction of an acquirer that runs alone brings it closer to the permit, and the last one takes it |
| `Semaphore.ReleaseRunsThrough` | src/semaphore.cpp:95-110 | A release that runs alone adds its permits and goes on to wake the smaller of its permits and the waiters, or ends |
| `Semaphore.ReleaseAddsItsPermits` | src/semaphore.cpp:95-104 | release(n) adds exactly n permits, and changes nothing for n that is not positive |
| `Semaphore.WakeWakes` | src/semaphore.cpp:106-109 | FUTEX_WAKE ends the release and wakes as many sleepers as asked for, or all there are |
| `Semaphore.SleeperLeaves` | src/semaphore.cpp:81-92 | A sleeper whose timeout expires leaves and fails; an interrupted one looks again |
| `Semaphore.WithoutPermitItSleeps` | src/semaphore.cpp:75-81 | A waiting call that finds no permit on its second look sleeps |
| `Semaphore.StepInv` | src/semaphore.cpp:48-110 | Every atomic step of every thread, timeouts and interrupts included, keeps: sleepers are at most the wakes owed, or the count is at most wakes owed plus acquirers still looking |
| `Semaphore.WakeAllSums` | src/semaphore.cpp:106-109 | A FUTEX_WAKE turns exactly as many sleepers as it picks into acquirers that look again, and changes no other thread |
| `Semaphore.FutexSemaphore.Create` | src/semaphore.cpp:38-42 | Construction fails exactly for a negative count; otherwise the semaphore starts with that count and the invariant |
| `Semaphore.FutexSemaphore.LoadCount` | src/semaphore.cpp:49 | One load of the count performs one step of the protocol and keeps the invariant |
| `Semaphore.FutexSemaphore.CasCount` | src/semaphore.cpp:51-54 | One compare-exchange takes a permit exactly when the count is the expected one and the exchange does not fail spuriously |
| `Semaphore.FutexSemaphore.EnterWaiters` | src/semaphore.cpp:73 | Registering as a waiter is one step and keeps the invariant |
| `Semaphore.FutexSemaphore.ReloadCount` | src/semaphore.cpp:75-79 | The second look at the count retracts the registration exactly when a permit has appeared |
| `Semaphore.FutexSemaphore.FutexWait` | src/semaphore.cpp:81 | The thread sleeps exactly when the count still is the one it saw |
| `Semaphore.FutexSemaphore.LeaveWaiters` | src/semaphore.cpp:77-91 | Deregistering returns to the start of the loop, or fails the call after a timeout |
| `Semaphore.FutexSemaphore.FetchAddCount` | src/semaphore.cpp:100-104 | The release adds its permits to a count that is not negative |
| `Semaphore.FutexSemaphore.LoadWaiters` | src/semaphore.cpp:106-109 | The release goes on to wake the smaller of its permits and the registered waiters, or nobody if there are none |
| `RwMutex.Exclusion` | src/rw_mutex.cpp:55-157 | In every run of fewer than 2^29 threads: state_ holds exactly the number of read owners, the holding bit is set exactly when a writer owns the lock, two writers never coexist, and a writer excludes every reader |
| `RwMutex.ReadersLoseNoWakeup` | src/rw_mutex.cpp:55-73 | In every run, a reader that sleeps while neither writer flag is set will be woken: some unlock or downgrade is between its store and its wake of all readers |
| `RwMutex.StepExclusive` | src/rw_mutex.cpp:55-157 | Every step of lock, try_lock, lock_shared, try_lock_shared, try_upgrade, downgrade and both unlocks keeps exclusion |
| `RwMutex.StepCovered` | src/rw_mutex.cpp:55-73 | Every step keeps every sleeping or about-to-sleep reader covered by a flag or a pending wake |
| `RwMutex.FlagsPersist` | src/rw_mutex.cpp:98-157 | Only the stores of unlock and downgrade can clear the last writer flag |
| `RwMutex.BlockingCallsEndWithTheLock` | src/rw_mutex.cpp:55-128 | lock_shared ends only with a read lock and lock only with the write lock, whatever any thread does |
| `RwMutex.TryLockSharedFailsOnlyOnFlags` | src/rw_mutex.cpp:75-86 | try_lock_shared fails only when a writer holds the lock or is marked as waiting; other readers never make it fail |
| `RwMutex.ReaderEntersUnflagged` | src/rw_mutex.cpp:55-86 | Without flags, the load and the exchange of a reader let it in beside all other readers |
| `RwMutex.ReaderSleepsBehindFlags` | src/rw_mutex.cpp:67-71 | A reader that finds a flag twice sleeps |
| `RwMutex.WakeAllWakesReaders` | src/rw_mutex.cpp:43-51 | The wake of all readers sends every sleeping reader back to look, and nobody else |
| `RwMutex.TryLockOutcome` | src/rw_mutex.cpp:130-134 | try_lock succeeds exactly when nobody owns the lock and no writer is marked as waiting, and otherwise changes nothing |
| `RwMutex.TryUpgradeOutcome` | src/rw_mutex.cpp:146-150 | try_upgrade succeeds exactly when its caller is the only reader and no writer is marked as waiting, and otherwise changes nothing |
| `RwMutex.WriterTakesFreeLock` | src/rw_mutex.cpp:98-128 | A writer takes a free lock, marked or not, and goes to sleep only behind an owner |
| `WriterProgress.WritersLoseNoWakeup` | src/rw_mutex.cpp:98-144 | In every run without read locks, while a writer sleeps some thread owns the lock, is going to wake a writer, or is awake inside lock |
| `WriterProgress.WritersAreSafeExactlyWithoutReadLocks` | src/rw_mutex.cpp:55-157 | For every selection of the calls that give a read lock: no run that uses only these leaves a writer asleep while nobody owns the lock or is inside a call, if and only if the selection is empty |
| `WriterProgress.StepSound` | src/rw_mutex.cpp:98-144 | Every step that takes no read lock keeps each writer that sleeps or is about to covered by the owner, a pending wake or another awake writer |
| `WriterProgress.DowngradeStrands` | src/rw_mutex.cpp:152-157 | With downgrade, two threads reach a free lock with one of them asleep in lock and the other outside, since the store drops the mark of the waiting writer |
| `WriterProgress.ReaderStrands` | src/rw_mutex.cpp:55-96 | The same with lock_shared or try_lock_shared alone: an unlock drops the mark of a writer still awake, a reader enters, the writer falls asleep and the reader leaves without waking it |
| `ReaderProgress.ReadersAreNeverStranded` | src/rw_mutex.cpp:55-157 | In every run, whatever calls it uses, while a reader sleeps some thread owns the lock or is awake inside a call |
| `ReaderProgress.StepMarked` | src/rw_mutex.cpp:55-157 | Every step keeps: a set waiting bit has a thread inside lock, and on a free lock with that bit somebody awake is going to take the lock or to wake a writer that will |
| `RwMutex.FutexRwMutex.LoadState` | src/rw_mutex.cpp:57-68 | A load of state_ decides the next instruction of a locking call and keeps the invariant |
| `RwMutex.FutexRwMutex.CasState` | src/rw_mutex.cpp:60-63 | A compare-exchange on state_ takes effect exactly when the word is as expected and it does not fail spuriously |
| `RwMutex.FutexRwMutex.UnlockSharedSub` | src/rw_mutex.cpp:88-96 | The last reader out pokes a writer exactly when one is marked as waiting |
| `RwMutex.FutexRwMutex.StoreState` | src/rw_mutex.cpp:136-157 | The stores of unlock and downgrade release or weaken the write lock and keep the invariant |
| `RwMutex.FutexRwMutex.OrWaiting` | src/rw_mutex.cpp:110-112 | Setting the waiting bit changes neither readers nor owner |
| `RwMutex.FutexRwMutex.LoadFutex` | src/rw_mutex.cpp:67 | Reading a futex word before the second look at state_ is one step and keeps the invariant |
| `RwMutex.FutexRwMutex.BumpFutex` | src/rw_mutex.cpp:136-144 | Bumping a futex word is one step and keeps the invariant |
| `RwMutex.FutexRwMutex.FutexWait` | src/rw_mutex.cpp:15-31 | A thread sleeps exactly when the futex word still is the one it read |
| `SequenceLock.ReadIsSnapshot` | include/pman/seqlock.hpp:24-43 | In every run with any number of writers and readers, a read that returns has copied words of one and the same committed state, the one of the even version it loaded first |
| `SequenceLock.AcceptedReadIsCurrent` | include/pman/seqlock.hpp:31-40 | At the check that accepts a read, its copies show the current words and no writer is writing |
| `SequenceLock.WriteSection` | include/pman/seqlock.hpp:13-21 | lock, any stores and unlock leave the last value stored to each word, commit all words at a version two higher, and free the lock |
| `SequenceLock.UndisturbedRead` | include/pman/seqlock.hpp:24-43 | A read during which nobody writes returns at the first attempt, with copies of exactly the words asked for |
| `SequenceLock.DisturbedReadRetries` | include/pman/seqlock.hpp:26-42 | A read starts over on an odd or a moved version |
| `SequenceLock.StepInv` | include/pman/seqlock.hpp:13-43 | Every step keeps: the version is odd exactly while one writer writes, the mutex has at most one owner, and each reader's copies are consistent |
| `SequenceLock.SeqLock.BumpVersion` | include/pman/seqlock.hpp:13-21 | Opening and closing a write moves the version by one; closing publishes the words |
| `SequenceLock.SeqLock.StoreWord` | include/pman/seqlock.hpp:13-21 | A writer's store changes one word and spoils no accepted read |
| `SequenceLock.SeqLock.LoadVersion` | include/pman/seqlock.hpp:26-42 | The two version loads of a read retry exactly on an odd or a moved version |
| `SequenceLock.SeqLock.LoadWord` | include/pman/seqlock.hpp:31-40 | A reader copies the current value of one word |
| `SpinBarrier.NobodyLeavesEarly` | include/pman/barrier.hpp:18-28 | In every run of the participants: nobody has returned from more rounds than each participant has arrived at, any two are at most one round apart, and generation_ is the number of finished rounds |
| `SpinBarrier.NeverAllSpin` | include/pman/barrier.hpp:18-28 | In every reachable state some participant is not held up by the spin loop |
| `SpinBarrier.SpinnerLeavesExactlyWhenDone` | include/pman/barrier.hpp:24-26 | In every run, a spinner leaves exactly when its round is over, and then everybody has arrived at that round |
| `SpinBarrier.LastArriverOpensTheRound` | include/pman/barrier.hpp:20-23 | The last arriver leaves a full count and the next generation, and then every other participant leaves at its next look |
| `SpinBarrier.EnteringArrives` | include/pman/barrier.hpp:18-20 | Entering wait lowers the count by one and counts as one arrival; who finds one is the last |
| `SpinBarrier.StepInv` | include/pman/barrier.hpp:18-28 | Every step keeps: count_ is the threshold minus the participants waiting in this round, unless the last arriver is at work and all others spin |
| `SpinBarrier.Barrier.Create` | include/pman/barrier.hpp:12-16 | Construction fails exactly for zero participants |
| `SpinBarrier.Barrier.LoadGeneration` | include/pman/barrier.hpp:19-25 | A load of generation_ enters a round or leaves the spin loop exactly when the round is over |
| `SpinBarrier.Barrier.SubCount` | include/pman/barrier.hpp:20 | The decrement that finds one makes its caller the last arriver |
| `SpinBarrier.Barrier.StoreCount` | include/pman/barrier.hpp:21 | The last arriver resets the count before it opens the next round |
| `SpinBarrier.Barrier.AddGeneration` | include/pman/barrier.hpp:22 | Opening the next round keeps the invariant |
| `Channel.ValuesKeepTheirOrder` | include/pman/async/channel.hpp:83-211 | In every run: the buffer stays within capacity, senders wait only while it is full, delivered then buffered then blocked (after close: dropped) values are exactly the issued ones in order, and while a receiver waits every buffered value has a receiver wake on its way |
| `Channel.NoOvertaking` | include/pman/async/channel.hpp:109-122 | A trySend that succeeds finds no blocked sender |
| `Channel.ResumedSenderWasServed` | include/pman/async/channel.hpp:51-58 | A blocked sender that is resumed on the open channel has had its value accepted |
| `ChannelHandles.NobodyIsForgotten` | include/pman/async/channel.hpp:48-211 | In every run, the coroutines that suspended to receive are, in this order, those resumed, those posted and those waiting; the same for senders |
| `ChannelHandles.NobodyIsResumedTwice` | include/pman/async/channel.hpp:48-211 | In every run, each coroutine is at most once among the posted and waiting ones |
| `ChannelHandles.AfterCloseEverybodyReturns` | include/pman/async/channel.hpp:139-155 | After close the loop alone resumes every coroutine that is still suspended, each in its turn |
| `ChannelHandles.StepHandles` | include/pman/async/channel.hpp:48-211 | Every event: the suspended coroutines and those it suspends are those it resumes and those suspended afterwards, in order |
| `ChannelHandles.BlockedAreUnserved` | include/pman/async/channel.hpp:192-204 | In every run, a sender that still waits is not marked as served |
| `ChannelHandles.ReceiverBeforeSender` | include/pman/async/channel.hpp:192-211 | A refill posts the receiver before the sender |
| `ChannelHandles.ReceiversBeforeSenders` | include/pman/async/channel.hpp:139-155 | Close posts every waiting receiver, in order, before every blocked sender, in order |
| `Channel.ResumedSendFailsExactlyIfClosed` | include/pman/async/channel.hpp:51-58 | In every run, a blocked sender that is resumed reports failure if and only if the channel is closed |
| `Channel.AcceptedSendCanReportFailure` | include/pman/async/channel.hpp:51-58 | A close between acceptance and resumption makes a send report failure for a value that is then delivered |
| `Channel.NoneMeansClosedAndDrained` | include/pman/async/channel.hpp:307-326 | In every fair run a receive ends empty only on a closed channel whose accepted values have all been delivered |
| `Channel.SingleConsumerIsFair` | include/pman/async/channel.hpp:307-326 | Every run with one consumer is fair |
| `Channel.SingleConsumerEndOfStream` | include/pman/async/channel.hpp:307-326 | With a single consumer an empty result means closed and everything accepted delivered |
| `Channel.UnbackedWakeStarves` | include/pman/async/channel.hpp:83-97 | From every state that satisfies the invariant with more receiver wakes posted than values to come, blocked senders included, running the loop alone makes some receiver return empty from the open channel |
| `Channel.UnfairReceiveBreaksEndOfStream` | include/pman/async/channel.hpp:83-135 | From every state with the invariant and backed wakes, each unfair direct receive, by recv or tryRecv and whatever is blocked or waiting, leads by the loop alone to an empty result on the open channel |
| `Channel.BackedStaysExactlyIfFair` | include/pman/async/channel.hpp:64-155 | From a state with backed wakes every event keeps them backed if and only if it is fair |
| `Channel.SettlesExactlyIfBacked` | include/pman/async/channel.hpp:64-97 | In a state with the invariant the loop alone disappoints no receiver if and only if the posted receiver wakes are at most the values buffered or blocked beyond the waiting receivers |
| `Channel.FairExactlyIfNobodyIsDisappointed` | include/pman/async/channel.hpp:83-135 | Every run is fair if and only if at no point of it the posted wakes alone would make a receiver return empty from the open channel |
| `Channel.UnfairStateIsReachable` | include/pman/async/channel.hpp:83-122 | One waiting receiver and one send reach such a state, for every positive capacity |
| `Channel.StepInv` | include/pman/async/channel.hpp:64-211 | Every event keeps order, capacity and the accounting of wakes |
| `Channel.ChannelImpl.TrySend` | include/pman/async/channel.hpp:109-122 | Succeeds exactly on an open channel with room, appends the value and wakes the oldest waiting receiver |
| `Channel.ChannelImpl.TryRecv` | include/pman/async/channel.hpp:125-135 | Returns the oldest buffered value and lets the longest blocked sender refill the buffer |
| `Channel.ChannelImpl.WakeNextReceiverLocked` | include/pman/async/channel.hpp:178-184 | Posts the resumption of the longest waiting receiver |
| `Channel.ChannelImpl.WakeNextSenderLocked` | include/pman/async/channel.hpp:192-211 | Moves the oldest blocked value into the buffer when there is room, marks it sent, and posts a receiver and the sender in this order |
| `Channel.ChannelImpl.Send` | include/pman/async/channel.hpp:247-260 | Ends at once on a closed channel or with room, and otherwise blocks at the end of the queue |
| `Channel.ChannelImpl.Recv` | include/pman/async/channel.hpp:307-326 | Ends with the oldest value, ends empty on a closed drained channel, and otherwise waits |
| `Channel.ChannelImpl.Close` | include/pman/async/channel.hpp:139-155 | Posts every waiting receiver and then every blocked sender, once |
| `Channel.ChannelImpl.RunPosted` | include/pman/async/channel.hpp:51-97 | A resumed receiver takes the oldest value if there is one; a resumed sender reports success exactly when the channel is still open |
| `LoopQueue.RunsInPostingOrder` | src/async/epoll_loop.cpp:203-226 | In every run, although a round swaps the queue out and callbacks post more, callbacks run in exactly the order posted |
| `LoopQueue.RefinesFifo` | src/async/epoll_loop.cpp:203-226 | Posting appends to, and running takes the oldest of, the callbacks still to run; the swap of a round is invisible |
| `LoopQueue.RoundRunsItsQueue` | src/async/epoll_loop.cpp:211-226 | A round runs exactly the callbacks posted before it began; those posted meanwhile wait for the next one |
| `LoopQueue.PostedCallbacks.Post` | src/async/epoll_loop.cpp:203-208 | Appends to the loop's queue only |
| `LoopQueue.PostedCallbacks.SwapOut` | src/async/epoll_loop.cpp:217-218 | A round takes over the whole queue |
| `LoopQueue.PostedCallbacks.RunNext` | src/async/epoll_loop.cpp:220-225 | A round runs its oldest callback |
| `RwLock.StateCountsGrants` | include/pman/async/rwlock.hpp:105-255 | In every run: state_ is -1 exactly while one write grant exists and otherwise the number of read grants, counting grants posted but not yet resumed; readers wait only for a writer, writers only for a holder; grants follow the queues in order |
| `RwLock.EveryWaiterIsGranted` | include/pman/async/rwlock.hpp:199-255 | From every reachable state, runs of releases and resumptions alone are bounded, and when none is left every waiter has been granted the lock and it is free |
| `RwLock.GrantedAreResumedInOrder` | include/pman/async/rwlock.hpp:199-255 | In every run, the coroutines that queued are, in this order, those resumed, those posted and those waiting; for readers and for writers |
| `RwLock.WritersComeFirst` | include/pman/async/rwlock.hpp:220-255 | A released write lock goes to the longest waiting writer, and only without any to all waiting readers at once |
| `RwLock.LastReaderHandsOver` | include/pman/async/rwlock.hpp:199-218 | A released read lock goes to the longest waiting writer exactly if it was the last one |
| `RwLock.UnlockInv` | include/pman/async/rwlock.hpp:199-255 | Each release keeps the invariant and lowers holders plus waiters by exactly one |
| `RwLock.NeverStuck` | include/pman/async/rwlock.hpp:199-255 | As long as anybody holds or awaits the lock, a release or a resumption is possible |
| `RwLock.DrainBound` | include/pman/async/rwlock.hpp:199-255 | Without arrivals the number of further steps is bounded by the work at hand, and the history of queued waiters does not change |
| `RwLock.AsyncRwLock.TryReadLock` | include/pman/async/rwlock.hpp:168-177 | Succeeds exactly when no write grant exists |
| `RwLock.AsyncRwLock.TryWriteLock` | include/pman/async/rwlock.hpp:180-186 | Succeeds exactly when no grant exists |
| `RwLock.AsyncRwLock.ReadLock` | include/pman/async/rwlock.hpp:105-123 | Is ready exactly when no write grant exists, and otherwise queues |
| `RwLock.AsyncRwLock.WriteLock` | include/pman/async/rwlock.hpp:134-147 | Is ready exactly when no grant exists, and otherwise queues |
| `RwLock.AsyncRwLock.UnlockRead` | include/pman/async/rwlock.hpp:199-218 | The last reader hands the lock to the longest waiting writer; holders plus waiters fall by one |
| `RwLock.AsyncRwLock.UnlockWrite` | include/pman/async/rwlock.hpp:220-255 | Hands the lock to the longest waiting writer, else to all waiting readers; holders plus waiters fall by one |
| `RwLock.AsyncRwLock.HandToReaders` | include/pman/async/rwlock.hpp:238-254 | Grants all waiting readers at once, in their order |
| `Actors.DeadAreTheReachable` | include/pman/async/actor.hpp:416-481 | After an exit has run to its end, a formerly live actor is gone if and only if it was reachable from the exiting one over links of live actors |
| `Actors.LinkedDieTogether` | include/pman/async/actor.hpp:385-402 | With symmetric links, of two linked actors both survive an exit or neither |
| `Actors.MonitoredDeathIsTold` | include/pman/async/actor.hpp:404-481 | After an actor has begun to monitor a live one, the exit that kills the second and spares the first sends it exactly one DOWN about it |
| `Actors.WatcherIsTold` | include/pman/async/actor.hpp:461-481 | An exit sends a survivor one DOWN about each actor that died and that it monitors, and none about any other |
| `Actors.PartialStep` | include/pman/async/actor.hpp:447-459 | Following one more link, with the whole cascade it causes, keeps the account of who died, who was told and who was processed |
| `Actors.PartialFinish` | include/pman/async/actor.hpp:461-481 | Following all links and telling the monitors completes the effect of an exit |
| `Actors.ProcessRegistry.NotifyExit` | include/pman/async/actor.hpp:416-481 | Terminates; removes only actors reachable over links and leaves no survivor linked from a dead one; processes each dead actor once; sends each survivor exactly one DOWN per dead actor it monitors; stops every actor the cascade killed; links stay symmetric |
| `Actors.ProcessRegistry.NotifyLinked` | include/pman/async/actor.hpp:447-459 | The loop over the links of the dead actor leaves none of them alive |
| `Actors.ProcessRegistry.NotifyMonitors` | include/pman/async/actor.hpp:461-481 | Sends one DOWN about the dead actor to each live monitor and none to others |
| `Actors.ProcessRegistry.HandleCrash` | include/pman/async/actor.hpp:296-301 | Stops the actor and performs its exit |
| `Actors.ProcessRegistry.HandleExitSignal` | include/pman/async/actor.hpp:303-307 | The default handler makes the linked actor exit with reason Linked |
| `Actors.ProcessRegistry.Link` | include/pman/async/actor.hpp:385-402 | Adds exactly the two directions of one link when both actors live, and nothing otherwise; symmetry is kept |
| `Actors.ProcessRegistry.Monitor` | include/pman/async/actor.hpp:404-414 | Returns the watcher and makes it, and nobody else, a monitor of the watched actor if that is alive, else returns the invalid pid and changes nothing; keys and links stay |
| `Actors.ProcessRegistry.Spawn` | include/pman/async/actor.hpp:268-328 | Registers an actor without ties under a fresh pid; if its body ends before its first suspension, the actor is stopped and gone again, nobody else dies and no survivor is sent a DOWN |
| `TimerPool.TimersAreConserved` | src/timer_wheel.cpp:42-177 | In every run: each timer ever scheduled has exactly one status, no timer fires before its expiry, a one-shot fires at most once, and none fires after a successful cancellation |
| `TimerPool.CancelledNeverFires` | src/timer_wheel.cpp:91-161 | In every run, after a cancellation that succeeds no event fires the timer |
| `TimerPool.OneShotFiresOnce` | src/timer_wheel.cpp:156-174 | In every run, after a one-shot timer has fired no event fires it again |
| `TimerPool.NothingFiresEarly` | src/timer_wheel.cpp:133-161 | In every run, whatever fires has expired by the clock reading at which it was taken out |
| `TimerPool.LifeOfATimer` | src/timer_wheel.cpp:42-177 | A scheduled timer is live under a fresh id; expired, it can be taken out, fires, and goes back with its new expiry if periodic, and is done otherwise |
| `TimerPool.CancelOutcome` | src/timer_wheel.cpp:91-106 | A cancellation ends exactly a live timer, is recorded, and touches no other timer |
| `TimerPool.StepInv` | src/timer_wheel.cpp:42-177 | Every schedule, cancel, extraction, firing and return keeps the account of timers and their history |
| `WheelArithmetic.TickCounts` | src/timer_wheel.cpp:112-128 | One tick turns the slot counters for t ticks into those for t + 1 |
| `WheelArithmetic.DigitIsQuotient` | src/timer_wheel.cpp:112-128 | After t ticks counter w shows t divided by wheelSize^w, modulo wheelSize |
| `WheelArithmetic.PickIsLeast` | src/timer_wheel.cpp:264-277 | insert picks the least wheel whose slots together span the delay, or the top wheel when none does |
| `WheelArithmetic.OffsetMeasuresDelay` | src/timer_wheel.cpp:264-303 | The distance from the current slot is the delay in slots of the picked wheel, rounded down, or the farthest slot of the top wheel for a delay beyond all |
| `WheelArithmetic.SpanIsPower` | src/timer_wheel.cpp:295-303 | One slot of wheel w spans the tick duration times wheelSize^w |
| `WheelArithmetic.WheelMovesOn` | src/timer_wheel.cpp:112-128 | After o * wheelSize^w more ticks wheel w has moved on by o slots |
| `WheelArithmetic.NeverIntoCurrentSlot` | src/timer_wheel.cpp:264-293 | Above wheel 0 an entry stays out of the wheel's current slot if and only if there is more than one slot |
| `WheelContents.SlotUpdate` | src/timer_wheel.cpp:264-293 | Replacing one slot changes the multiset of live entries by exactly the difference of the slots |
| `WheelContents.NoneAtAll` | src/timer_wheel.cpp:91-106 | If no slot of any wheel has an uncancelled entry with an id, no live entry has that id |
| `HierarchicalWheel.TimerWheel.Create` | src/timer_wheel.cpp:15-26 | Construction fails exactly without wheels or without slots; otherwise no timer exists and no tick has passed, and with a positive tick duration the invariant holds |
| `HierarchicalWheel.TimerWheel.ComputeSlot` | src/timer_wheel.cpp:295-303 | The delay divided by the span of one slot of the wheel |
| `HierarchicalWheel.TimerWheel.FindSlot` | src/timer_wheel.cpp:268-272 | The search loop of insert finds the least wheel that covers the delay and the capped distance from its current slot |
| `HierarchicalWheel.TimerWheel.Insert` | src/timer_wheel.cpp:264-277 | Adds exactly one entry to the wheels, in the slot its delay selects |
| `HierarchicalWheel.TargetComesUp` | src/timer_wheel.cpp:112-128 | The slot an entry goes to becomes the current slot of its wheel after as many ticks as the delay, rounded down to slots of that wheel |
| `HierarchicalWheel.TimerWheel.Cascade` | src/timer_wheel.cpp:279-293 | Loses and duplicates no live timer, and with more than one slot leaves the drained slot empty |
| `HierarchicalWheel.TimerWheel.Carry` | src/timer_wheel.cpp:118-127 | Cascading and carrying through the upper wheels advances the counters like an odometer, conserves live timers, and drains the slot of wheel 1 that was current before the carry |
| `HierarchicalWheel.TimerWheel.Advance` | src/timer_wheel.cpp:112-131 | Counts one tick per whole tick duration elapsed, keeps the odometer and every live timer |
| `HierarchicalWheel.TimerWheel.Schedule` | src/timer_wheel.cpp:42-63 | Adds one live one-shot timer with a fresh id, expiring at the clock plus the delay; activeCount_ grows by one |
| `HierarchicalWheel.TimerWheel.SchedulePeriodic` | src/timer_wheel.cpp:65-89 | Refuses a period that is not positive and otherwise adds one live periodic timer |
| `HierarchicalWheel.TimerWheel.Cancel` | src/timer_wheel.cpp:91-106 | Returns true exactly when the timer is live in the wheels, which then holds all others and not this one |
| `HierarchicalWheel.FindTimer` | src/timer_wheel.cpp:94-105 | The three nested loops find an uncancelled entry with the id exactly when there is one |
| `HierarchicalWheel.TimerWheel.ExtractExpired` | src/timer_wheel.cpp:133-154 | Takes the live expired entries of the current slot of wheel 0 out, in order, keeps there the live unexpired ones, drops the cancelled ones, and changes no other slot |
| `HierarchicalWheel.SplitSlot` | src/timer_wheel.cpp:141-153 | The loop over the slot splits its live entries into expired and kept ones, in order |
| `HierarchicalWheel.DueOrNot` | src/timer_wheel.cpp:141-153 | An entry is taken out if and only if it is in the slot, live and expired, and kept if and only if it is live and not expired |
| `HierarchicalWheel.TimerWheel.Fire` | src/timer_wheel.cpp:156-161 | A timer taken out always runs its callback, since it can no longer be cancelled |
| `HierarchicalWheel.TimerWheel.Finish` | src/timer_wheel.cpp:163-174 | A periodic timer goes back live with a new expiry, any other is retired; activeCount_ stays the number of timers in the wheels and in processing |
| `LoopTimers.IndexMatchesMultimap` | src/async/epoll_loop.cpp:94-128 | In every run the id index and the multimap are in bijection and the multimap is ordered by expiry and insertion |
| `LoopTimers.PassRunsTheExpired` | src/async/epoll_loop.cpp:236-290 | A pass runs, in order of expiry then insertion and once each, exactly the callbacks of the timers expired when it began, whatever the callbacks add or cancel meanwhile |
| `LoopTimers.PendingAfterPass` | src/async/epoll_loop.cpp:243-283 | After collecting, pending are exactly the unexpired timers as before and each expired periodic timer one period from now |
| `LoopTimers.PendingAfterAdd` | src/async/epoll_loop.cpp:94-116 | Adding a timer makes exactly that timer pending, under a fresh id, for the clock plus the delay |
| `LoopTimers.PendingAfterCancel` | src/async/epoll_loop.cpp:118-128 | Cancelling takes away exactly the pending timer with that id |
| `LoopTimers.BatchRunsInOrder` | src/async/epoll_loop.cpp:285-289 | Whatever happens during a pass, what has run followed by what is left of the batch is the batch |
| `LoopTimers.CancelPreventsUncollectedRuns` | src/async/epoll_loop.cpp:118-128 | A successful cancellation prevents every later run of the timer if and only if the current pass has not collected it |
| `LoopTimers.CancelFromOtherCallback` | src/async/epoll_loop.cpp:278-289 | For every period and time: when a one-shot and a periodic timer come due together, a cancellation of the second from the callback of the first succeeds and the second still runs |
| `LoopTimers.CancelFromOwnCallback` | src/async/epoll_loop.cpp:278-289 | In every run, a callback that cancels its own timer with success prevents every later run of it |
| `LoopTimers.BatchIsDistinct` | src/async/epoll_loop.cpp:246-276 | No pass collects a timer twice |
| `LoopTimers.CancelledOneShotNeverRuns` | src/async/epoll_loop.cpp:118-128 | A one-shot timer whose cancellation succeeded never runs |
| `LoopTimers.StepInv` | src/async/epoll_loop.cpp:94-290 | Adding, cancelling, passes and callbacks keep order, bijection and the timers in transit |
| `LoopTimers.EpollLoop.AddTimer` | src/async/epoll_loop.cpp:94-104 | Gives a fresh id to a new one-shot node behind all nodes that do not expire later |
| `LoopTimers.EpollLoop.AddPeriodicTimer` | src/async/epoll_loop.cpp:106-116 | The same for a periodic timer |
| `LoopTimers.EpollLoop.CancelTimer` | src/async/epoll_loop.cpp:118-128 | Succeeds exactly when the id is indexed, and removes exactly that node |
| `LoopTimers.EpollLoop.BeginPass` | src/async/epoll_loop.cpp:236-283 | Both loops of a pass, collecting and rescheduling, with the invariant kept |
| `LoopTimers.EpollLoop.RunCallback` | src/async/epoll_loop.cpp:285-289 | Takes the oldest collected callback |
| `TokenBucket.RateBound` | src/rate_limiter.cpp:21-34 | In every run of positive requests and every interval [t1, t2], the tokens granted in it are at most burstSize + tokensPerSecond * (t2 - t1) |
| `TokenBucket.GrantsExactlyWhatTheLawAllows` | src/rate_limiter.cpp:21-34 | A request is granted if and only if it is at most the burst size, at most the initial stock plus rate times the time since construction less all grants, and for every earlier call at most the burst size plus rate times the time since that call less the grants since |
| `TokenBucket.BucketIsLeast` | src/rate_limiter.cpp:85-91 | The refilled bucket always holds the least of these allowances, which are written with the rate itself |
| `TokenBucket.WindowInvariant` | src/rate_limiter.cpp:21-34 | Before, inside and after an interval, what its calls took is bounded by a full bucket plus the inflow, less what is left |
| `TokenBucket.IntervalOfCalls` | src/rate_limiter.cpp:21-34 | The grants of consecutive calls are those of the closed interval that spans them |
| `TokenBucket.TokenBucketRateLimiter.Create` | src/rate_limiter.cpp:8-19 | Construction fails exactly for a rate or burst size that is not positive; the stock starts with the initial tokens, or full if these are negative |
| `TokenBucket.TokenBucketRateLimiter.TryAcquire` | src/rate_limiter.cpp:21-34 | Refuses amounts that are not positive without any effect; otherwise refills by rate times elapsed time up to the burst size, and takes the amount exactly if it is there |
| `TokenBucket.TokenBucketRateLimiter.AvailableTokens` | src/rate_limiter.cpp:59-67 | Reports the stored tokens plus rate times elapsed time, at most the burst size, without changing anything |
| `SlidingWindow.DecidesByFullHistory` | src/rate_limiter.cpp:103-112 | After every run, a request is admitted if and only if fewer than maxRequests grants of the whole history lie in the closed window ending now |
| `SlidingWindow.WindowBound` | src/rate_limiter.cpp:103-112 | After every run, every closed interval as long as the window holds at most maxRequests grants |
| `SlidingWindow.KeptIsWindow` | src/rate_limiter.cpp:168-175 | After a clean-up the stored times are as many as the grants of the whole history inside the window |
| `SlidingWindow.StepInv` | src/rate_limiter.cpp:103-112 | One request keeps the order of grants, the window bound and the fact that forgotten grants are out of the window |
| `SlidingWindow.SlidingWindowRateLimiter.Create` | src/rate_limiter.cpp:93-101 | Construction fails exactly without a quota or without a window |
| `SlidingWindow.SlidingWindowRateLimiter.CleanUp` | src/rate_limiter.cpp:168-175 | The loop forgets exactly the leading times before the window |
| `SlidingWindow.SlidingWindowRateLimiter.TryAcquire` | src/rate_limiter.cpp:103-112 | Succeeds exactly when the full history leaves room in the window |
| `SlidingWindow.SlidingWindowRateLimiter.RemainingRequests` | src/rate_limiter.cpp:133-147 | Together with the grants of the full history in the window it makes exactly maxRequests |
| `Calendar.DateUnique` | src/cron_scheduler.cpp:213-214 | A day has exactly one date, so broken-down time and mktime are inverse |
| `Calendar.AgreesWithCivilFormula` | src/cron_scheduler.cpp:213-214 | For every date, the month table and leap rule give the same day as the closed formula of the Gregorian calendar counted from 1 January 1970 |
| `Calendar.Repeats` | src/cron_scheduler.cpp:203 | Dates and weekdays repeat every 400 years, which the iteration bound relies on |
| `Calendar.SameMonth` | src/cron_scheduler.cpp:216-226 | All days between two first days of months have the month of the first |
| `Calendar.Anchor` | src/cron_scheduler.cpp:196-198 | The day numbering is anchored where time_t is: its epoch day is Thursday, 1 January 1970 |
| `CronSearch.CronExpression.NextAfter` | src/cron_scheduler.cpp:194-251 | Returns the start of a matching minute after the given second, not later than the start of any other matching minute after it; fails exactly when no minute of any time matches |
| `CronSearch.MatchesByDate` | src/cron_scheduler.cpp:216-245 | A minute matches if and only if its month, day of the month, weekday, hour and minute are all set in the fields |
| `CronSearch.MinuteContains` | src/cron_scheduler.cpp:196-201 | A second lies between the start of its minute and the start of the next |
| `CronSearch.FirstDay` | src/cron_scheduler.cpp:196-198 | Seconds of 1 January 1970, at any offset from UTC, are broken down to that date, a Thursday, and their hour and minute |
| `CronSearch.EveryMatchesAlways` | src/cron_scheduler.cpp:18-30 | The default expression matches every minute and leaves the unused bits 0 clear |
| `CronSearch.GivesUpOnlyInVain` | src/cron_scheduler.cpp:203-250 | A search that stays on schedule and exhausts its iterations proves that nothing ever matches |
| `CronSearch.StaysOnSchedule` | src/cron_scheduler.cpp:203-248 | Each iteration that moves on, whatever jump it takes, has skipped no match and stays within the budget of iterations |
| `CronSearch.SkipMonth` | src/cron_scheduler.cpp:216-226 | The jump to the first of the next month, also across a year, skips no match |
| `CronSearch.SkipDay` | src/cron_scheduler.cpp:228-234 | The jump to midnight skips no match |
| `CronSearch.SkipHour` | src/cron_scheduler.cpp:236-240 | The jump to the next hour skips no match |
| `CronSearch.MatchWithinCycle` | src/cron_scheduler.cpp:203 | If any minute matches, one does within 400 years of any start |
| `CronText.RoundTrip` | src/cron_scheduler.cpp:253-283 | For every expression, parsing its printed form rebuilds the same five bit sets if every field has a bit set, and is refused for too few fields otherwise |
| `CronText.PrintedIsCanonical` | src/cron_scheduler.cpp:253-283 | Whatever text an expression came from, printing it and parsing that again gives the same expression if all five fields have a bit set, and is refused otherwise |
| `CronText.DefaultRoundTrips` | src/cron_scheduler.cpp:18-30 | The default expression is in range and read back from its printed form |
| `CronText.ParsesWordByWord` | src/cron_scheduler.cpp:45-91 | Of five words each decides its own field, in the order minute, hour, day, month, weekday |
| `CronText.StarExactlyIfAllSet` | src/cron_scheduler.cpp:264-266 | The star is printed if and only if every bit of the field is set |
| `CronText.ValuesAscend` | src/cron_scheduler.cpp:257-262 | The printed values are those of the set bits, each once, in ascending order |
| `CronText.PrintedWithBlanks` | src/cron_scheduler.cpp:276-280 | The fields are printed in their order with single blanks between them |
| `CronText.CommaSeparates` | src/cron_scheduler.cpp:57-64 | A comma separates parts |
| `CronText.DashMakesRange` | src/cron_scheduler.cpp:66-73 | A dash makes the range of the numbers on its two sides, as far as the bit set reaches |
| `CronText.SpacesAreSix` | src/cron_scheduler.cpp:45 | The words are separated by the six white-space characters of the C locale |
| `CronText.TooLargeMinuteIsNotReadBack` | src/cron_scheduler.cpp:74-79 | Every minute number above 59 parses to an expression with an empty field, whose printed form is refused |
| `CronText.FieldRoundTrip` | src/cron_scheduler.cpp:256-275 | Reading a printed field gives back the same bits, including the star and the unused bit 0 |
| `CronText.FieldMeans` | src/cron_scheduler.cpp:49-85 | A field sets a bit if and only if it is the star or one of its comma-separated parts names that number or a range around it |
| `CronText.FromCharsShow` | src/cron_scheduler.cpp:76 | The decimal form of every number of int range is read back as that number |
| `CronText.FromCharsReads` | src/cron_scheduler.cpp:69-76 | A decimal number with an optional minus sign is read up to the first other character if it fits into an int, and not at all otherwise |
| `CronText.ShowTwoDigits` | src/cron_scheduler.cpp:271 | Numbers below 100 are printed with their usual one or two digits |
| `CronText.ParseField` | src/cron_scheduler.cpp:49-85 | The loop over the parts computes the bits the field stands for |
| `CronText.ParsePart` | src/cron_scheduler.cpp:65-79 | A part sets the bits of its range or number as far as the bit set reaches |
| `CronText.ParseExpression` | src/cron_scheduler.cpp:32-93 | Reads the first five words, refusing fewer, into the five bit sets |
| `CronText.FieldToString` | src/cron_scheduler.cpp:256-275 | The loops print the set values in ascending order, or a star when all are set |
| `CronText.ToText` | src/cron_scheduler.cpp:253-283 | Prints the five fields separated by blanks |

## Left out

- Weak memory orders and the wrap-around of counters, versions and ids; errors of system calls other than interrupts and timeouts.
- `FutexMutex`, whose sleepers can miss wakes in a similar way; how long a writer waits while others keep taking the lock.
- Move-only channel elements, and the branches that resume a coroutine directly when there is no current loop.
- Destruction of locks, actors and coroutines while they are in use.
- Names of actors, mailboxes (whether a DOWN message is accepted by a full or closed one), overridden exit handlers, and exits that start while another thread changes links.
- Actors.ProcessRegistry.Spawn: of what the body does before its first suspension only its end is modelled, because the rest is the user's code.
- The timer wheel's thread, `armTimerFd`, `timeUntilNextExpiry`, null callbacks, and how late a timer may fire.
- Timer wheels with a tick duration that is not positive can be constructed but not used: the source divides by it unchecked.
- Running the event loop from inside one of its timer callbacks, file descriptors and the waiting time of `runOnce`.
- Blocking `acquire`, `tryAcquireFor` and `timeUntilAvailable` of the rate limiters; rounding of `double`.
- Daylight saving time and the sub-second part of the time given to `nextAfter`: times are whole seconds at a fixed offset from UTC.
- CronText.ParseExpression: text with a number that cannot be read has the outcome Indeterminate, because the source then uses an uninitialised variable.
- The named cron expressions and their builder, and the scheduler threads, which add only easy members.
- Processes, pipes, sockets, shared memory, message queues, signals, topology, thread pools, supervisors, async mutex and semaphore, streams and combinators.
