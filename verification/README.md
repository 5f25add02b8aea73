# Bionic: locks, thread life cycle, keys, fts, text codecs and integers

A Dafny model of the parts of Android's C library that do more than wrap a
system call: the futex protocols, thread-specific keys, the file tree walk,
the UTF-8 and iconv codecs, integer parsing and printing, and the allocator of
priority-inheritance mutex ids. `dafny verify dfyconfig.toml` checks all of it.

## How the code is modelled

**Futex protocols** (read/write lock, mutex, barrier, semaphore, static guard,
once, thread exit/join/detach) and **keys** are transition systems. There are
arbitrarily many threads, each with a program counter; every access to a shared
word is one step, and any thread may take the next step. A function `Do` gives
the new state and the event that the step tells its caller; `Enabled` holds what
the interface demands of callers. `futex_wait` compares and falls asleep in one
step, `futex_wake` wakes the number of sleepers it is given, sleepers may be
interrupted at any time, weak compare-exchanges may fail for no reason, and
timed calls may time out while asleep or instead of falling asleep. What the
object owes its callers is written down separately, in the `...Spec` modules: a
history that is updated from the events alone (holders, entries and returns,
units, the running initialiser, a table of values), and a predicate `Legal` that
says which answers are true in a history. The theorems are about every reachable
state, and about every step from it. The `...Calls` modules add which call each
thread is in, taken from the actions that start calls, and prove that every call
gets one answer and one of its own; the theorems named `...Alone` say what a
call comes to, from any reachable state, when no other thread moves. The packing
of fields into words is treated apart, in the `...Word` modules, by arithmetic
on the macros.

**Everything else** has the form of the source. Methods with loops fill arrays
and buffers, classes hold the fields that C code updates, and contracts tie them
to functions that know nothing of the code: the recursive depth-first search for
fts, a code table for UTF-8, "the longest numeral" for strtol, a character-by-
character conversion for iconv, sets of live and free ids for the allocator.

The files follow this division:

| files | subject |
|---|---|
| `Common`, `Threads`, `Calls` | definitions that several models share; thread ids, counting the threads at a program point; the calls that threads are in |
| `RwLock`, `RwLockProof`, `RwLockCalls`, `RwLockStranded`, `RwLockWord` | pthread_rwlock.cpp |
| `Mutex`, `MutexProof`, `MutexCalls`, `MutexWord` | normal, recursive and errorcheck mutexes of pthread_mutex.cpp |
| `PiMutexIds` | the id allocator of pthread_mutex.cpp |
| `Barrier`, `BarrierProof`, `BarrierCycles`, `BarrierAlone`, `Semaphore`, `SemaphoreCalls`, `Guard`, `GuardCalls`, `Once` | pthread_barrier.cpp, semaphore.cpp, __cxa_guard.cpp, pthread_once.cpp |
| `Lifecycle`, `LifecycleCalls`, `ThreadList` | pthread_exit.cpp, pthread_join.cpp, pthread_detach.cpp, pthread_internal.cpp |
| `Keys`, `KeysProof`, `KeysCalls`, `KeysExit` | pthread_key.cpp |
| `Numerals`, `StrTol`, `IntegerFormat` | strtol.cpp and the printer of async_safe_log.cpp |
| `Utf8`, `Utf8Code`, `Utf8Text` | c32rtomb.cpp and mbrtoc32.cpp (section 3 of RFC 3629) |
| `Pouring`, `Iconv`, `IconvProof` | iconv.cpp (UTF-16 as in section 2 of RFC 2781) |
| `Fts`, `FtsBuild`, `FtsOpen`, `FtsCode`, `FtsPlain` | fts.c |

## What turned out not to hold

- A reader can sleep for ever on a free read/write lock. An unlocker wakes one
  writer if `pending_writer_count` is not 0, and a writer whose wait has timed out
  still counts until it takes itself off the queue. `RwLockStranded.ReadersStrandedIff`:
  this can happen exactly if queued writers may time out. Writers are never stranded.
- `format_unsigned` with a buffer of one byte, and `format_integer` with two bytes and a
  negative number: no digit fits, the length is 0, and the reversal starts from
  `length - 1`, which wraps around. With one byte less already the first character is out
  of bounds. `IntegerFormat.FormatUnsigned` and `IntegerFormat.FormatInteger` say for every
  size whether the code stays in its buffer, and `IntegerFormat.LeavesTheBuffer` shows one
  number for each that does not. Both functions are static and their callers pass 30 or 32
  bytes, with which every number is printed completely (`IntegerFormat.FormatIntegerAmply`),
  so the failing sizes are not reached.
- A NUL in UTF-8 input of iconv is written but not passed, so it is written until the
  output is full. `IconvProof.Utf8FinishesIff`: UTF-8 text is converted to its end
  exactly if there is no NUL in it.
- fts with FTS_NOCHDIR shows an empty directory that was named with a slash at the end twice,
  the second time without that slash. `FtsPlain.RootsPlainIff`: a traversal is plain depth-first
  search exactly if none of the arguments is such a directory.
- `fts_open` accepts an empty list of arguments. It then frees the parent of the roots and
  leaves a current node that leads nowhere, and both `fts_read` and `fts_close` go on to read
  the level of a null pointer. `Fts.Stream.Read` and `Fts.Stream.Close` fault exactly in that
  state, `Fts.Stream.Open` leads to it exactly for the empty list, and `Fts.Stream.Traverse`
  puts the two together.

## Model

| member | source | states |
|---|---|---|
| `RwLockProof.Exclusion` | bionic/libc/bionic/pthread_rwlock.cpp:272-507 | In every reachable state the reader count is the number of read holds and at most 2^29 - 1, the writer flag is set exactly while somebody holds for writing, readers and a writer never hold together, and a thread finds its own id in writer_tid only while it is the writer |
| `RwLockProof.AnswersAreTrue` | bionic/libc/bionic/pthread_rwlock.cpp:272-507 | Every 0, EBUSY, EAGAIN, EDEADLK and EPERM is true of the holders, and of the queued writers if writers are preferred, when it is given |
| `RwLockProof.SleepingWriterIsOwed` | bionic/libc/bionic/pthread_rwlock.cpp:361-507 | A sleeping writer implies that the lock is held with the pending-writers flag set, or that some thread is about to choose whom to wake, is about to wake a writer, or is a writer that is awake and will test the lock again; timeouts allowed |
| `RwLockProof.SleepingReaderIsOwed` | bionic/libc/bionic/pthread_rwlock.cpp:289-507 | A sleeping reader implies that the lock is held with the pending-readers flag set, or that some thread is about to choose whom to wake or to wake the readers, or that a writer will test the lock again, will find its wait outdated, or sleeps while its wakeup is about to be issued; in runs in which no queued writer times out, for both preferences |
| `RwLockProof.SafeStep` | bionic/libc/bionic/pthread_rwlock.cpp:272-507 | Every step of every operation keeps the safety invariant and gives a true answer |
| `RwLockProof.WritersStep` | bionic/libc/bionic/pthread_rwlock.cpp:361-507 | Every step keeps sleeping and almost sleeping writers covered by a held lock or an obliged thread |
| `RwLockProof.ReadersStep` | bionic/libc/bionic/pthread_rwlock.cpp:289-507 | The same for readers if writers do not time out |
| `RwLockProof.RunIsSafe` | bionic/libc/bionic/pthread_rwlock.cpp:226-507 | All of these invariants hold at every point of every run |
| `RwLockProof.ReachableIsSafe` | bionic/libc/bionic/pthread_rwlock.cpp:226-507 | They hold in every reachable state |
| `RwLockCalls.EveryCallIsAnswered` | bionic/libc/bionic/pthread_rwlock.cpp:289-507 | In every run, with the calls taken from the actions alone: an answer goes to a call that has none yet and is one of its own answers (0 and EBUSY for the role asked for, EBUSY only to try, EDEADLK never to try, EAGAIN only to readers, ETIMEDOUT and EINVAL only to timed calls whose wait timed out or whose timespec is bad, and then always, EPERM only to unlock), and a thread leaves the functions only after exactly one answer |
| `RwLockCalls.StepServes` | bionic/libc/bionic/pthread_rwlock.cpp:289-507 | Every step keeps each thread at a place that serves its own call |
| `RwLockCalls.LockAlone` | bionic/libc/bionic/pthread_rwlock.cpp:272-463 | From every reachable state, a lock call that nobody disturbs is answered as holders and queued writers demand: 0 if the role may have the lock, EAGAIN for the reader that is one too many, EBUSY to try, EDEADLK to the writer itself, and any other caller falls asleep in its role's queue |
| `RwLockCalls.UnlockAlone` | bionic/libc/bionic/pthread_rwlock.cpp:462-507 | From every reachable state, an undisturbed unlock releases what the caller holds or is refused with EPERM, and goes on to wake somebody exactly if the lock is free then and somebody is queued |
| `RwLockCalls.ReachableIsTold` | bionic/libc/bionic/pthread_rwlock.cpp:289-443 | In every reachable state, a thread that holds the lock for writing and asks for it again is not beyond the comparison with writer_tid: it never waits for itself |
| `RwLockCalls.WokenAlone` | bionic/libc/bionic/pthread_rwlock.cpp:300-407 | From every reachable state, a waiter that is undisturbed after its wait gets the lock if its role may have it, and sleeps again if not |
| `RwLockCalls.PicksWhomToWake` | bionic/libc/bionic/pthread_rwlock.cpp:488-506 | An unlocker outdates the waits of the queued writers if there are any, of the queued readers if there are only those, and returns if nobody is queued |
| `RwLockCalls.WakesThem` | bionic/libc/bionic/pthread_rwlock.cpp:494-506 | Its wakeup leaves no reader asleep, or one writer fewer if one is asleep, and the unlock returns |
| `RwLockStranded.ReaderLost` | bionic/libc/bionic/pthread_rwlock.cpp:396-507 | A concrete run that leaves a reader asleep on a free lock with nobody to wake it, in either preference, when a queued writer times out |
| `RwLockStranded.ReadersStrandedIff` | bionic/libc/bionic/pthread_rwlock.cpp:289-507 | Readers can be stranded if and only if queued writers may time out |
| `RwLockStranded.WritersNeverStranded` | bionic/libc/bionic/pthread_rwlock.cpp:361-507 | No reachable state has a writer asleep on a free lock with everybody else idle or asleep |
| `RwLockWord.FieldsAreBits` | bionic/libc/bionic/pthread_rwlock.cpp:137-182 | The four fields and the 32-bit integers correspond one to one |
| `RwLockWord.TestsReadFields` | bionic/libc/bionic/pthread_rwlock.cpp:184-212 | Every test on the integer asks what its name says about the fields, and so do the two tests for acquiring the lock |
| `RwLockWord.UpdatesWriteFields` | bionic/libc/bionic/pthread_rwlock.cpp:198-200 | Setting and clearing a flag changes one field only |
| `RwLockWord.StepsCountReaders` | bionic/libc/bionic/pthread_rwlock.cpp:272-287 | Adding and subtracting a reader steps the count and nothing else, and the overflow test fires exactly at the largest count, before bit 31 is reached |
| `MutexProof.StateTellsOwner` | bionic/libc/bionic/pthread_mutex.cpp:554-935 | In every reachable state the mutex is unlocked exactly if nobody holds it, the counter is one less than the holder's outstanding locks, and a thread finds its id in owner_tid only while it holds the mutex |
| `MutexProof.AnswersAreTrue` | bionic/libc/bionic/pthread_mutex.cpp:554-935 | A lock succeeds only on a free mutex or for its owner, an unlock releases exactly at the last outstanding lock, and EBUSY, EDEADLK, EAGAIN and EPERM are true when given, for all three kinds |
| `MutexProof.RefusalsChangeNothing` | bionic/libc/bionic/pthread_mutex.cpp:658-672 | A lock beyond the counter, like every refused call, leaves state and owner_tid alone |
| `MutexProof.SleeperIsOwed` | bionic/libc/bionic/pthread_mutex.cpp:579-780 | A sleeping locker implies locked-contended, an unlocker that still has to wake, or an awake locker that will mark the state contended again; timeouts allowed, all kinds |
| `MutexProof.NobodyStranded` | bionic/libc/bionic/pthread_mutex.cpp:579-888 | If the mutex is free and everybody is idle or asleep, then everybody is idle |
| `MutexProof.SafeStep` | bionic/libc/bionic/pthread_mutex.cpp:554-935 | Every step keeps the safety invariant and gives a true answer |
| `MutexProof.SleepersStep` | bionic/libc/bionic/pthread_mutex.cpp:579-888 | Every step keeps sleepers owed a wakeup or a contended state |
| `MutexProof.RunKeepsInv` | bionic/libc/bionic/pthread_mutex.cpp:554-935 | Both hold at every point of every run |
| `MutexCalls.EveryCallIsAnswered` | bionic/libc/bionic/pthread_mutex.cpp:798-980 | In every run, with the calls taken from the actions alone: each call gets exactly one answer before its function returns, EBUSY only from trylock, EDEADLK only from lock and timedlock, ETIMEDOUT and EINVAL only from timedlock when its wait times out or its timespec is bad, EPERM only from unlock; so lock ends with 0, EDEADLK or EAGAIN |
| `MutexCalls.OwnerIsTold` | bionic/libc/bionic/pthread_mutex.cpp:658-935 | In every run, an owner that locks again: a recursive mutex is locked once more or the counter is full, an errorcheck mutex gives EDEADLK, or EBUSY from trylock, and neither kind of owner ever waits for itself |
| `MutexCalls.LockAlone` | bionic/libc/bionic/pthread_mutex.cpp:554-935 | From every reachable state and for every kind, a lock call that nobody disturbs is answered as the holder and the kind demand, or falls asleep if it has to wait |
| `MutexCalls.UnlockAlone` | bionic/libc/bionic/pthread_mutex.cpp:832-888 | From every reachable state, an undisturbed unlock undoes one lock of the caller, releases at the last, is refused to everybody else, and goes on to wake exactly if it releases a contended mutex |
| `MutexCalls.WokenAlone` | bionic/libc/bionic/pthread_mutex.cpp:591-780 | From every reachable state, a waiter that is undisturbed after its wait takes the mutex if it is free, and sleeps again if not |
| `MutexCalls.WakesOne` | bionic/libc/bionic/pthread_mutex.cpp:618-656 | The wakeup leaves one sleeper fewer if there is one, and the unlock returns |
| `MutexWord.MacrosReadFields` | bionic/libc/bionic/pthread_mutex.cpp:355-417 | Each macro reads its own field of the 16-bit word |
| `MutexWord.WordsEqualIffFields` | bionic/libc/bionic/pthread_mutex.cpp:355-417 | Comparing whole words, as compare-exchange does, compares the fields |
| `MutexWord.MacrosWriteFields` | bionic/libc/bionic/pthread_mutex.cpp:380-395 | Flipping the contention bits and stepping the counter stay inside their fields |
| `PiMutexIds.PlacesDiffer` | bionic/libc/bionic/pthread_mutex.cpp:272-274 | Different ids have different places in the two-level table |
| `PiMutexIds.Allocator.Write` | bionic/libc/bionic/pthread_mutex.cpp:272-274 | Writing the node of one id changes no other node |
| `PiMutexIds.Allocator.AddBlock` | bionic/libc/bionic/pthread_mutex.cpp:289-302 | The table and a block of 256 nodes are obtained unless an allocation fails; no node in use moves |
| `PiMutexIds.Allocator.Extend` | bionic/libc/bionic/pthread_mutex.cpp:286-303 | A new id is backed by a node, or nothing changes |
| `PiMutexIds.Allocator.Reuse` | bionic/libc/bionic/pthread_mutex.cpp:281-285 | The first id of the free list is taken off it |
| `PiMutexIds.Allocator.AllocIdLocked` | bionic/libc/bionic/pthread_mutex.cpp:280-304 | The id was not live and is now, every id is below 0x10000, live and free ids partition the ids handed out so far, and -1 comes exactly if no id or no memory is left |
| `PiMutexIds.Allocator.AllocId` | bionic/libc/bionic/pthread_mutex.cpp:308-316 | The same; the node of the id is zeroed and the nodes of all live ids keep their contents and places |
| `PiMutexIds.Allocator.FreeId` | bionic/libc/bionic/pthread_mutex.cpp:318-323 | The id goes to the front of the free list, which stays acyclic, and stops being live |
| `BarrierProof.ReturnsAreLegal` | bionic/libc/bionic/pthread_barrier.cpp:113-166 | With exactly init_count threads, for any number of cycles: a thread returns from its k-th wait only after all have entered their k-th, it is told that it is the serial thread exactly if it came last, and EINVAL is never returned |
| `BarrierProof.WakeupsLeaveNobody` | bionic/libc/bionic/pthread_barrier.cpp:144-164 | After either wakeup nobody is asleep, although the first wakes only init_count - 1 threads and the second init_count |
| `BarrierProof.NeverStuck` | bionic/libc/bionic/pthread_barrier.cpp:113-166 | If everybody is asleep or outside, then a sleeper waits for a thread that has not entered this cycle yet |
| `BarrierProof.AnyStep` | bionic/libc/bionic/pthread_barrier.cpp:113-166 | Every step keeps the invariant and returns legally |
| `BarrierProof.RunKeepsInv` | bionic/libc/bionic/pthread_barrier.cpp:113-166 | The invariant holds at every point of every run |
| `BarrierCycles.OneSerialPerCycle` | bionic/libc/bionic/pthread_barrier.cpp:113-166 | In every run, of all returns from a finished cycle exactly one says PTHREAD_BARRIER_SERIAL_THREAD |
| `BarrierCycles.OneReturnPerThread` | bionic/libc/bionic/pthread_barrier.cpp:113-166 | In every run each thread returns from a finished cycle exactly once |
| `BarrierCycles.SerialIffLast` | bionic/libc/bionic/pthread_barrier.cpp:135-166 | A return is the serial one exactly if the thread is, and stays, the last that entered the cycle |
| `BarrierAlone.WaitAlone` | bionic/libc/bionic/pthread_barrier.cpp:113-166 | From every reachable state, an undisturbed wait sleeps if the barrier is still letting threads go, is told that it is the serial thread if all others are inside, and sleeps inside otherwise |
| `BarrierAlone.ReleasedAlone` | bionic/libc/bionic/pthread_barrier.cpp:147-166 | A thread that waits inside returns 0 once the barrier lets threads go |
| `SemaphoreProof.Conservation` | bionic/libc/bionic/semaphore.cpp:144-304 | In every run the value, taken as 0 if it is -1, is the initial value plus successful posts minus successful waits, and it stays between -1 and SEM_VALUE_MAX |
| `SemaphoreProof.UnitsCount` | bionic/libc/bionic/semaphore.cpp:144-304 | The units of the specification count posts and waits |
| `SemaphoreProof.AnswersAreTrue` | bionic/libc/bionic/semaphore.cpp:144-304 | A wait succeeds only if there is a unit, a post only below SEM_VALUE_MAX, and EAGAIN, EOVERFLOW and the value reported are true when given |
| `SemaphoreProof.SleeperIsOwed` | bionic/libc/bionic/semaphore.cpp:215-294 | A sleeper implies that the value is -1 or that a poster still has to wake everybody; timeouts allowed |
| `SemaphoreProof.NobodyStranded` | bionic/libc/bionic/semaphore.cpp:215-294 | Nobody is left asleep when units are available and everybody else is idle |
| `SemaphoreProof.ValueStep` | bionic/libc/bionic/semaphore.cpp:144-213 | Every step keeps value and units in agreement |
| `SemaphoreCalls.EveryCallIsAnswered` | bionic/libc/bionic/semaphore.cpp:144-312 | In every run each call gets exactly one answer before its function returns: EAGAIN only from sem_trywait, EOVERFLOW only from sem_post, EINTR, ETIMEDOUT and EINVAL only from sem_wait and sem_timedwait when the wait is abandoned or the timespec bad |
| `SemaphoreCalls.WaitAlone` | bionic/libc/bionic/semaphore.cpp:144-304 | From every reachable state, an undisturbed wait takes a unit if there is one; if not, sem_trywait fails with EAGAIN and the others fall asleep |
| `SemaphoreCalls.PostAlone` | bionic/libc/bionic/semaphore.cpp:188-294 | An undisturbed post adds a unit or fails with EOVERFLOW if the semaphore is full, and wakes exactly if the value was -1 |
| `SemaphoreCalls.LookAlone` | bionic/libc/bionic/semaphore.cpp:306-312 | sem_getvalue tells the units there are |
| `SemaphoreCalls.WokenAlone` | bionic/libc/bionic/semaphore.cpp:144-269 | From every reachable state, a waiter that is undisturbed after its wait takes a unit if there is one, and sleeps again if not |
| `SemaphoreCalls.WakesEverybody` | bionic/libc/bionic/semaphore.cpp:279-294 | The wakeup leaves nobody asleep, and the post returns |
| `SemaphoreWord.WordHoldsValue` | bionic/libc/bionic/semaphore.cpp:66-84 | The 32-bit word holds value and shared flag, -1 included |
| `SemaphoreWord.WordStepsDown` | bionic/libc/bionic/semaphore.cpp:144-160 | SEMCOUNT_DECREMENT takes one off the value and keeps the shared flag |
| `SemaphoreWord.WordStepsUp` | bionic/libc/bionic/semaphore.cpp:188-213 | SEMCOUNT_INCREMENT adds one and keeps the shared flag, and -1 is replaced by 1 |
| `GuardProof.AnswersAreTrue` | bionic/libc/bionic/__cxa_guard.cpp:81-128 | At most one thread is between acquire and release or abort; 1 is returned only if nobody constructs and nothing is complete, 0 only after a release |
| `GuardProof.CompleteIsForever` | bionic/libc/bionic/__cxa_guard.cpp:81-119 | Once complete, the guard is complete at every later point of the run |
| `GuardProof.SleeperIsOwed` | bionic/libc/bionic/__cxa_guard.cpp:81-128 | A sleeper implies an initialiser that is running while the word says that somebody waits, or a thread that is about to wake everybody |
| `GuardProof.NobodyStranded` | bionic/libc/bionic/__cxa_guard.cpp:121-128 | If nobody constructs and everybody is idle or asleep, nobody is asleep: neither release nor abort strands a waiter |
| `GuardProof.PhaseStep` | bionic/libc/bionic/__cxa_guard.cpp:81-128 | Every step keeps the word in agreement with the phase of construction and answers truthfully |
| `GuardCalls.EveryCallIsAnswered` | bionic/libc/bionic/__cxa_guard.cpp:81-128 | In every run each call gets exactly one answer before its function returns; completion comes only from release, the way back only from abort |
| `GuardCalls.AcquireAlone` | bionic/libc/bionic/__cxa_guard.cpp:81-110 | From every reachable state, an undisturbed acquire returns 1 on a fresh guard and 0 on a complete one, and sleeps while an initialiser runs |
| `GuardCalls.EndAlone` | bionic/libc/bionic/__cxa_guard.cpp:112-128 | Release and abort take effect at their first step and wake the waiters exactly if the word says that there are some |
| `GuardCalls.WokenAlone` | bionic/libc/bionic/__cxa_guard.cpp:81-110 | A waiter that is undisturbed after its wait starts the initialiser if it was aborted, returns 0 if it was released, and sleeps again while it runs |
| `GuardCalls.WakesEverybody` | bionic/libc/bionic/__cxa_guard.cpp:112-128 | The wakeup leaves nobody asleep, and release or abort returns |
| `Once.ExactlyOnce` | bionic/libc/bionic/pthread_once.cpp:41-85 | The routine is started at most once, and every return of pthread_once comes after it was started once and has ended |
| `Once.SleeperIsOwed` | bionic/libc/bionic/pthread_once.cpp:54-84 | A sleeper implies that the routine is running or that a thread is about to wake everybody |
| `Once.ReturnsEndCalls` | bionic/libc/bionic/pthread_once.cpp:41-85 | A thread is in pthread_once from its call until its own return |
| `Once.CallAlone` | bionic/libc/bionic/pthread_once.cpp:54-84 | From every reachable state, an undisturbed call runs the routine if it has not been started, returns if it is complete and sleeps otherwise |
| `Once.WokenAlone` | bionic/libc/bionic/pthread_once.cpp:54-84 | The same for a waiter that is undisturbed after its wait |
| `Once.RoutineAlone` | bionic/libc/bionic/pthread_once.cpp:69-79 | The thread that has run the routine marks it complete, leaves nobody asleep and returns |
| `Lifecycle.FreedOnceByTheRightThread` | bionic/libc/bionic/pthread_exit.cpp:106-137 | The record is unlinked at most once and unmapped at most once, after unlinking; by the exiting thread only if it is detached, by another only if that one has won the join and the tid is 0; two threads never win |
| `Lifecycle.NoUseAfterFree` | bionic/libc/bionic/pthread_join.cpp:36-72 | The winning joiner, the exiting thread up to and including the unmapping of its TLS, and the kernel when it clears the tid use the record only while it is mapped |
| `Lifecycle.FreedInTheEnd` | bionic/libc/bionic/pthread_internal.cpp:76-99 | When the thread is gone and no call is under way, a joined or detached record has been unlinked once and unmapped once if the mapping is its own; one that is neither has not been touched |
| `Lifecycle.JoinerIsWoken` | bionic/libc/bionic/pthread_join.cpp:55-64 | A joiner is never asleep on a thread that is gone |
| `Lifecycle.AnyStep` | bionic/libc/bionic/pthread_detach.cpp:36-54 | Every step of exit, join and detach keeps the invariant behind these |
| `LifecycleCalls.EveryCallIsAnswered` | bionic/libc/bionic/pthread_join.cpp:36-72 | In every run each join or detach gets exactly one answer, when its function returns; only detach detaches, and a detach that joins does so because the thread had exited |
| `LifecycleCalls.AnswersAreTrue` | bionic/libc/bionic/pthread_join.cpp:36-72 | ESRCH means that the record is not listed, EINVAL that the thread is joined or detached already; detach succeeds only on a thread that is neither and has not exited; join returns 0 only to the thread that won, when the kernel has cleared the tid, and leaves the record unlinked and its own mapping released |
| `LifecycleCalls.JoinAlone` | bionic/libc/bionic/pthread_join.cpp:36-72 | From every reachable state, an undisturbed join is refused as those answers say, and otherwise wins and returns 0 if the tid is 0 or sleeps on the tid if it is not |
| `LifecycleCalls.DetachAlone` | bionic/libc/bionic/pthread_detach.cpp:36-54 | From every reachable state, an undisturbed detach detaches a running thread and joins one that has exited, or is refused |
| `LifecycleCalls.ExitAlone` | bionic/libc/bionic/pthread_exit.cpp:106-137 | From every reachable state, an undisturbed exit of a detached thread unlinks its record and unmaps its own mapping; that of any other leaves the record to a joiner, marked as exited if nobody had joined it, with the tid cleared |
| `LifecycleCalls.WakeIsLast` | bionic/libc/bionic/pthread_exit.cpp:132-137 | The kernel's wakeup on the cleared tid is the last of an exiting thread and leaves no joiner asleep |
| `LifecycleCalls.DetachSelfAlone` | bionic/libc/bionic/pthread_detach.cpp:36-54 | A thread that detaches itself is detached, or told EINVAL if it was joined or detached before |
| `ThreadList.List.Add` | bionic/libc/bionic/pthread_internal.cpp:63-74 | The record becomes the first of the doubly linked list, which stays well formed |
| `ThreadList.List.Remove` | bionic/libc/bionic/pthread_internal.cpp:76-87 | Exactly that record is taken out, the others keep their order, and the list stays well formed |
| `ThreadList.List.Find` | bionic/libc/bionic/pthread_internal.cpp:101-130 | True exactly if the record is in the list |
| `ThreadList.BypassedIsLinked` | bionic/libc/bionic/pthread_internal.cpp:76-87 | Relinking the two neighbours of a record gives a well-formed list of the others |
| `Keys.ValidKeys` | bionic/libc/bionic/pthread_key.cpp:61-70 | The range check passes exactly the integers that pthread_key_create can return, and the slot of each is recovered |
| `KeysProof.AnswersAreTrue` | bionic/libc/bionic/pthread_key.cpp:74-187 | Against a map from thread and key incarnation to value: a created key is new, a slot has one live key, get returns the mapped value, set and delete act on the current incarnation, refusals are true, and a destructor is called on a non-null mapped value of a live key and is the one registered for that key, with creates and deletes going on concurrently |
| `KeysProof.GetReturnsLastStore` | bionic/libc/bionic/pthread_key.cpp:155-187 | A non-null result is the last value that the same thread stored under the same incarnation, with nothing written in between |
| `KeysProof.ValueWasStored` | bionic/libc/bionic/pthread_key.cpp:155-187 | Every non-null value of the map has such a last store |
| `KeysProof.DestroyedOncePerStore` | bionic/libc/bionic/pthread_key.cpp:74-117 | A value handed to a destructor was stored by the exiting thread under that incarnation and has not been handed to one since |
| `KeysProof.QuietExitLeavesNothing` | bionic/libc/bionic/pthread_key.cpp:74-117 | After a last round that called no destructor the thread has no value left for a live key with a destructor |
| `KeysProof.AnyStep` | bionic/libc/bionic/pthread_key.cpp:74-187 | Every step keeps slots, cells and the map in agreement and answers truthfully |
| `KeysProof.RunKeepsInv` | bionic/libc/bionic/pthread_key.cpp:74-187 | They agree at every point of every run |
| `KeysCalls.EveryCallIsAnswered` | bionic/libc/bionic/pthread_key.cpp:120-187 | In every run, with the calls taken from the actions alone: each call gets exactly one answer before its function returns, and the answer is about its own arguments: the handle passed to get, set and delete is that of the key which the answer names, set stores the value passed, create registers the destructor passed, and only an integer that is no key is refused for that |
| `KeysCalls.PassedOverWereInUse` | bionic/libc/bionic/pthread_key.cpp:120-132 | In every run, every slot that pthread_key_create passes over was in use at some moment of the call, so EAGAIN means that each was |
| `KeysCalls.LooksOnce` | bionic/libc/bionic/pthread_key.cpp:155-187 | In every run, get and set answer with the first step of their call, whatever other threads do |
| `KeysCalls.DeletesWhatItSaw` | bionic/libc/bionic/pthread_key.cpp:139-152 | In every run, delete looks at its slot once, and deletes the key that it saw or fails because that key is gone |
| `KeysCalls.CreateAlone` | bionic/libc/bionic/pthread_key.cpp:120-132 | From every reachable state, an undisturbed create takes the first unused slot and fails exactly if there is none |
| `KeysCalls.GetAlone` | bionic/libc/bionic/pthread_key.cpp:155-171 | An undisturbed get returns the thread's value of the live key, and NULL if the slot has none |
| `KeysCalls.SetAlone` | bionic/libc/bionic/pthread_key.cpp:174-187 | An undisturbed set stores its value under the live key, and is refused if the slot has none |
| `KeysCalls.DeleteAlone` | bionic/libc/bionic/pthread_key.cpp:139-152 | An undisturbed delete deletes the live key, and is refused if the slot has none |
| `KeysExit.ExitTakesRounds` | bionic/libc/bionic/pthread_key.cpp:74-117 | In every run, an exiting thread that has finished went through rounds, each over all slots in order; every round but the last called a destructor, the last called none or was the fourth |
| `KeysExit.LookAlone` | bionic/libc/bionic/pthread_key.cpp:81-108 | From every reachable state, an undisturbed look at a slot calls the destructor of the live key on the thread's value if both are non-null, and nothing otherwise |
| `Numerals.SpaceTable` | bionic/libc/private/bionic_ctype.h:40-42 | White space is six characters, by code |
| `Numerals.DigitTable` | bionic/libc/private/bionic_ctype.h:32-46 | The digits of base 36 and their values, by code |
| `Numerals.ScanIsNumeral` | bionic/libc/bionic/strtol.cpp:45-67 | What the scan finds is a numeral: blanks, a sign, a prefix if the base admits one, digits |
| `Numerals.ScanIsLongest` | bionic/libc/bionic/strtol.cpp:45-96 | No numeral at the start of the string is longer, and none as long is different |
| `StrTol.SkipSign` | bionic/libc/bionic/strtol.cpp:48-60 | Blanks and one sign are passed, and the minus is remembered |
| `StrTol.SkipLead` | bionic/libc/bionic/strtol.cpp:61-67 | After blanks and sign the prefix is passed, the 0x only if a hexadecimal digit follows |
| `StrTol.CutoffBelow` | bionic/libc/bionic/strtol.cpp:69-94 | The cutoff test on quotient and remainder asks exactly whether one more digit would go below Min |
| `StrTol.AddDigit` | bionic/libc/bionic/strtol.cpp:85-94 | The accumulator is minus the number so far, or the overflow mark if that is below Min; no intermediate result leaves [Min, Max] |
| `StrTol.DigitsDown` | bionic/libc/bionic/strtol.cpp:76-96 | The loop ends at the first character that is no digit, having accumulated the number |
| `StrTol.GiveSign` | bionic/libc/bionic/strtol.cpp:97-105 | Negation without overflow, clamping and ERANGE |
| `StrTol.StrToI` | bionic/libc/bionic/strtol.cpp:37-106 | For every string and base: the number that the longest numeral denotes, clamped to [Min, Max], ERANGE exactly if it is out of range, endptr at the end of that numeral or at the start if there is none, EINVAL for an illegal base |
| `StrTol.CutoffAbove` | bionic/libc/bionic/strtol.cpp:136-158 | The unsigned cutoff test asks exactly whether one more digit would exceed Max |
| `StrTol.DigitsUp` | bionic/libc/bionic/strtol.cpp:138-159 | The unsigned digit loop |
| `StrTol.StrToU` | bionic/libc/bionic/strtol.cpp:108-163 | The same as StrToI for unsigned types: a negative number that fits in magnitude wraps around, any other out of range gives Max and ERANGE |
| `IntegerFormat.PutDigits` | bionic/libc/async_safe/async_safe_log.cpp:152-169 | As many digits as fit before the last place, least significant first; without any place the first digit is out of bounds |
| `IntegerFormat.ReverseAt` | bionic/libc/async_safe/async_safe_log.cpp:179-185 | The reversal in place, within bounds exactly if the length is not 0 |
| `IntegerFormat.FormatUnsigned` | bionic/libc/async_safe/async_safe_log.cpp:152-186 | For every size: the buffer holds the terminated last digits of the number that fit, nothing outside it is touched, and the code stays in it exactly if it has more than one byte |
| `IntegerFormat.FormatNegative` | bionic/libc/async_safe/async_safe_log.cpp:199-205 | For every size: the sign and then the digits of the magnitude; in bounds exactly with more than two bytes |
| `IntegerFormat.FormatInteger` | bionic/libc/async_safe/async_safe_log.cpp:188-206 | For every size: the text of the number in the base and case of the conversion, signed for d, i and o, if it fits; in bounds exactly with more than one byte, or two for a negative number |
| `IntegerFormat.LeavesTheBuffer` | bionic/libc/async_safe/async_safe_log.cpp:179-205 | 7 in one byte and -7 in two are printed out of bounds |
| `IntegerFormat.TextFits` | bionic/libc/async_safe/async_safe_log.cpp:188-206 | No 64-bit number has a text of 30 characters, in any conversion |
| `IntegerFormat.FormatIntegerAmply` | bionic/libc/async_safe/async_safe_log.cpp:337-374 | With the 30 bytes or more that the callers pass, every number is printed completely |
| `IntegerFormat.PrintedReads` | bionic/libc/async_safe/async_safe_log.cpp:152-186 | The printed digits denote the number |
| `IntegerFormat.UnsignedRoundTrip` | bionic/libc/async_safe/async_safe_log.cpp:152-186 | Memory in which a string begins with what format_unsigned prints is parsed as the number, up to the terminator |
| `IntegerFormat.NegativeRoundTrip` | bionic/libc/async_safe/async_safe_log.cpp:188-206 | The same for what format_integer prints for a negative number |
| `IntegerFormat.PrintThenParse` | bionic/libc/bionic/strtol.cpp:37-106 | StrToI, in base 10 or 8, on the buffer that format_integer filled with %d, %i or %o for any int64_t but the most negative one returns that number, without ERANGE and with endptr at the terminator |
| `IntegerFormat.PrintThenParseUnsigned` | bionic/libc/bionic/strtol.cpp:108-163 | StrToU, in base 10 or 16, on the buffer that format_integer filled with %u, %x or %X for any uint64_t returns that number likewise, and the letters in the buffer are capitals exactly for %X |
| `Utf8Table.EncodingIsComplete` | bionic/libc/bionic/c32rtomb.cpp:57-96 | The encoding of every character up to 0x1fffff is a first byte that announces its length and continuation bytes, and its payload is the character |
| `Utf8Table.EncodingBytes` | bionic/libc/bionic/c32rtomb.cpp:57-96 | The bytes of every character, width by width, as sums of a mark and some of its bits |
| `Utf8Table.CompleteIsEncoding` | bionic/libc/bionic/mbrtoc32.cpp:83-132 | A complete sequence of shortest length is the encoding of its payload |
| `Utf8Table.ReadsExactlyEncodings` | bionic/libc/bionic/mbrtoc32.cpp:83-137 | The byte automaton accepts a character exactly if the bytes are its encoding and it is legal: no overlong form, no surrogate, no 0xfffe or 0xffff |
| `Utf8Table.PrefixesPend` | bionic/libc/bionic/mbrtoc32.cpp:104-116 | Every proper prefix of an encoding keeps the automaton waiting |
| `Utf8Bits.ByteTests` | bionic/libc/bionic/mbrtoc32.cpp:83-112 | The byte tests of the source as comparisons |
| `Utf8Bits.ByteMasks` | bionic/libc/bionic/mbrtoc32.cpp:83-123 | Its masks as remainders |
| `Utf8Bits.WordTests` | bionic/libc/bionic/c32rtomb.cpp:69-88 | The width tests of the source as comparisons |
| `Utf8Bits.WordShifts` | bionic/libc/bionic/c32rtomb.cpp:90-96 | Its shifts and masks as division and remainder |
| `Utf8Bits.WordJoins` | bionic/libc/bionic/mbrtoc32.cpp:120-124 | Joining six more bits is multiplication and addition |
| `Utf8Code.PutBytes` | bionic/libc/bionic/c32rtomb.cpp:86-96 | The loop leaves the encoding in the buffer and touches nothing behind it |
| `Utf8Code.C32rtomb` | bionic/libc/bionic/c32rtomb.cpp:35-97 | For every character and state, into a buffer with room for what is written: the encoding and its length, or EILSEQ beyond 21 bits or with a character pending; state and buffer in every case |
| `Utf8Code.Fill` | bionic/libc/bionic/mbrtoc32.cpp:104-116 | The loop takes bytes into the state until the character is complete, the input ends or a byte does not continue it |
| `Utf8Code.Decode` | bionic/libc/bionic/mbrtoc32.cpp:118-124 | The payload of the bytes in the state |
| `Utf8Code.DecodeBytes` | bionic/libc/bionic/mbrtoc32.cpp:58-137 | On a non-empty input the call does what the byte automaton does, including the bytes used and the state left |
| `Utf8Code.Mbrtoc32` | bionic/libc/bionic/mbrtoc32.cpp:36-138 | The same for every call: a null string, no bytes, a state that is not one |
| `Utf8Text.Bytewise` | bionic/libc/bionic/mbrtoc32.cpp:43-137 | Decoding a buffer is running the automaton over its bytes |
| `Utf8Text.DecodeAppend` | bionic/libc/bionic/mbrtoc32.cpp:43-137 | Decoding two buffers in turn is decoding them joined |
| `Utf8Text.Restartable` | bionic/libc/bionic/mbrtoc32.cpp:43-137 | Any division of the bytes into buffers gives the same characters, the same pending bytes and the same first illegal character |
| `Utf8Text.FeedIsEncoding` | bionic/libc/bionic/mbrtoc32.cpp:83-137 | Re-encoding a decoded character gives the bytes that were read |
| `Utf8Text.FeedEncoding` | bionic/libc/bionic/mbrtoc32.cpp:83-137 | From any prefix of an encoding on, the rest of it is consumed and gives the character |
| `Utf8Text.DecodedIsPrefix` | bionic/libc/bionic/mbrtoc32.cpp:43-137 | The encodings of the decoded characters are a prefix of the input, and all of it but the pending bytes if nothing is illegal |
| `Utf8Text.DecodeUndoesEncode` | bionic/libc/bionic/c32rtomb.cpp:57-96 | Decoding the encodings of legal characters gives the characters back |
| `Pouring.RunsPieces` | bionic/libc/bionic/iconv.cpp:120-135 | A conversion of a text that consists of pieces takes as many whole pieces as fit and stops where it should |
| `Pouring.FitIsMost` | bionic/libc/bionic/iconv.cpp:317-329 | One more piece would not have fitted |
| `Pouring.CallsConvert` | bionic/libc/bionic/iconv.cpp:120-135 | Any sequence of calls, each with as much of the input as has arrived and an output of any size, has together converted some number of whole pieces, and all of them if the last call has everything |
| `Iconv.Converter.Fetch` | bionic/libc/bionic/iconv.cpp:152-225 | The next character and its length, EINVAL if it is cut off, EILSEQ if it is none, in each of the seven charsets |
| `Iconv.Converter.Fetch16` | bionic/libc/bionic/iconv.cpp:171-196 | One or two UTF-16 units in either byte order; `IconvProof.UnitsRead` says which numbers they are |
| `Iconv.Converter.Store` | bionic/libc/bionic/iconv.cpp:227-283 | The bytes of the character in the target charset, or refusal |
| `Iconv.Converter.Code16Into` | bionic/libc/bionic/iconv.cpp:246-259 | One UTF-16 unit or a surrogate pair in either byte order; `IconvProof.UnitsWritten` says which bytes they are |
| `Iconv.Converter.Emit` | bionic/libc/bionic/iconv.cpp:317-329 | The character's bytes are written and both pointers move, or nothing moves for want of room |
| `Iconv.Converter.Convert` | bionic/libc/bionic/iconv.cpp:120-135 | From any state that an earlier call has left: the loop writes, consumes and reports what the character-by-character conversion does |
| `Iconv.Converter.ConvertInPieces` | bionic/libc/bionic/iconv.cpp:120-135 | Calling it again and again on one converter, after E2BIG and EINVAL alike, does what the sequence of conversions does |
| `IconvBits.Surrogates` | bionic/libc/bionic/iconv.cpp:252-258 | The bit operations on surrogates as arithmetic |
| `IconvBits.Halves` | bionic/libc/bionic/iconv.cpp:285-306 | Byte swapping of 16 bits as arithmetic |
| `IconvBits.Quarters` | bionic/libc/bionic/iconv.cpp:293-315 | Byte extraction of 32 bits as arithmetic |
| `IconvProof.UnitsWritten` | bionic/libc/bionic/iconv.cpp:246-306 | UTF-16 writes a character below 0x10000 as one unit and any other as two, low byte first or last as the charset says, and the two stand for the character exactly if it is at most 0x10ffff |
| `IconvProof.UnitsRead` | bionic/libc/bionic/iconv.cpp:171-291 | The same reading: EINVAL for a part of a unit or of a pair, EILSEQ for a low surrogate first |
| `IconvProof.WordsWritten` | bionic/libc/bionic/iconv.cpp:261-315 | UTF-32LE and wchar_t write the four bytes of a character, least significant first, and UTF-32BE the same reversed |
| `IconvProof.WordsRead` | bionic/libc/bionic/iconv.cpp:198-299 | The same reading, EINVAL for fewer than four bytes |
| `IconvProof.BytesReadAndWritten` | bionic/libc/bionic/iconv.cpp:152-245 | US-ASCII is one byte up to 0x7f, and UTF-8 writes the encoding |
| `IconvProof.ReadsBack` | bionic/libc/bionic/iconv.cpp:152-283 | In every charset, reading the bytes of a character gives the character and their number |
| `IconvProof.ConvertsText` | bionic/libc/bionic/iconv.cpp:120-329 | For text that both charsets can express, followed by anything: output and input position are those of the same number of whole characters, as many as fit |
| `IconvProof.ResumesAnywhere` | bionic/libc/bionic/iconv.cpp:120-329 | For input that arrives in pieces cut anywhere, and any sequence of output sizes, the outputs together encode exactly the consumed characters, are the whole text when everything is consumed, and a last call with all input and enough room consumes everything |
| `IconvProof.ConvertTextInPieces` | bionic/libc/bionic/iconv.cpp:120-329 | The same of repeated calls of the code on one converter |
| `IconvProof.CutCharacter` | bionic/libc/bionic/iconv.cpp:161-206 | In every charset, a character of which only a part has arrived is answered with EINVAL and nothing is taken |
| `IconvProof.OneShot` | bionic/libc/bionic/iconv.cpp:120-329 | With enough room one call converts the whole text |
| `IconvProof.ThereAndBack` | bionic/libc/bionic/iconv.cpp:120-329 | Converting there and back restores the bytes |
| `IconvProof.NulIsNotPassed` | bionic/libc/bionic/iconv.cpp:161-169 | At a NUL in UTF-8 input the position stays and the result is E2BIG, whatever the room |
| `IconvProof.Utf8FinishesIff` | bionic/libc/bionic/iconv.cpp:120-169 | UTF-8 text is converted to its end for some output size exactly if there is no NUL in it |
| `FtsSpec.TreesHaveNoCycles` | bionic/libc/bionic/fts.c:843-862 | In an acyclic file system the search that stops at cycles stops nowhere |
| `FtsPlain.RootsPlainIff` | bionic/libc/bionic/fts.c:258-443 | What is visited, with path, kind and level, is depth-first search written without any of the code's notions (all entries not named "." or "..", in order; a slash between unless there is one; levels counted up to 32767) exactly if no argument is an empty directory named with a slash at the end |
| `FtsPlain.PlainIff` | bionic/libc/bionic/fts.c:258-443 | The same for one starting point at any depth |
| `FtsPlain.VisibleIs` | bionic/libc/bionic/fts.c:60-60 | The entries of a directory that are listed are those not named "." or "..", each once and in the directory's order |
| `FtsPlain.SlashIsLost` | bionic/libc/bionic/fts.c:757-765 | The example of an empty directory opened as "d/" |
| `FtsState.EnterVisit` | bionic/libc/bionic/fts.c:302-351 | After a directory with entries the search goes on with the first entry, and the pointers of the new nodes say so |
| `FtsState.EmptyVisit` | bionic/libc/bionic/fts.c:335-350 | After a directory without entries comes its second visit |
| `FtsState.PopVisit` | bionic/libc/bionic/fts.c:353-443 | After any other node comes the one that link or parent lead to, in the order of the search |
| `FtsState.NothingLeft` | bionic/libc/bionic/fts.c:397-409 | When link and parent lead to the parent of the roots, nothing is left to visit |
| `FtsState.DepthIsBounded` | bionic/libc/bionic/fts.c:843-862 | The directories above a node have pairwise different device and inode numbers, so there are at most as many as directories in the file system, cyclic or not, and fts_level is their number up to FTS_MAXLEVEL |
| `FtsOpen.OpenTree` | bionic/libc/bionic/fts.c:73-180 | The nodes that fts_open makes stand for a traversal of all arguments |
| `FtsBuild.BuiltEnters` | bionic/libc/bionic/fts.c:547-793 | A list built in front of the current directory continues the traversal |
| `Fts.MaxArgLen` | bionic/libc/bionic/fts.c:1011-1019 | The length of the longest argument and its terminator |
| `Fts.Stream.Palloc` | bionic/libc/bionic/fts.c:955-980 | The buffer grows by what was asked for and 256, keeps its contents and may move |
| `Fts.Stream.InCycle` | bionic/libc/bionic/fts.c:843-862 | The loop over the parents finds a directory exactly if it is among those above |
| `Fts.Stream.StatEntry` | bionic/libc/bionic/fts.c:796-869 | Directory, directory in a cycle, or the kind of file |
| `Fts.Stream.PutName` | bionic/libc/bionic/fts.c:658-683 | There is room for the name behind the directory's path, which is kept |
| `Fts.Stream.AddEntry` | bionic/libc/bionic/fts.c:656-745 | One more node at the end of the list, with the name, length, kind and level of the entry |
| `Fts.Stream.ReadEntries` | bionic/libc/bionic/fts.c:650-755 | A list of nodes for all entries but . and .., in order, at the level of what the directory contains; doadjust is set if the buffer has moved |
| `Fts.Stream.Padjust` | bionic/libc/bionic/fts.c:987-1008 | Every node of the traversal gets the address of the moved buffer |
| `Fts.Stream.Build` | bionic/libc/bionic/fts.c:547-793 | The list for the current directory becomes the front of the traversal, or the directory is left with its own path |
| `Fts.Stream.Load` | bionic/libc/bionic/fts.c:183-204 | The buffer holds the root's name |
| `Fts.Stream.ToSibling` | bionic/libc/bionic/fts.c:353-395 | The current node is freed and the buffer holds the path of the next one |
| `Fts.Stream.ToParent` | bionic/libc/bionic/fts.c:397-443 | The current node is freed and the buffer holds the path of the directory |
| `Fts.Stream.MoveOn` | bionic/libc/bionic/fts.c:353-443 | One of the two, as the pointers say |
| `Fts.Stream.Read` | bionic/libc/bionic/fts.c:258-443 | Each call shows the next visit of the depth-first search, with its kind and level and its path terminated in the shared buffer; when nothing is left it returns NULL and no node is allocated; it faults exactly on a stream opened for no arguments |
| `Fts.Stream.Close` | bionic/libc/bionic/fts.c:207-247 | After any number of reads, every node that is still allocated is freed once, and the path buffer and the stream are; it faults exactly on a stream opened for no arguments |
| `Fts.Stream.LeadsOn` | bionic/libc/bionic/fts.c:397-401 | The current node has neither link nor parent exactly on a stream opened for no arguments |
| `Fts.Stream.OpenRoots` | bionic/libc/bionic/fts.c:111-147 | Root nodes for all arguments, in order; an empty argument fails and everything is freed again |
| `Fts.Stream.Open` | bionic/libc/bionic/fts.c:73-180 | Fails exactly if an argument is empty, and then everything is freed; otherwise what is to be visited is the depth-first search from each argument in turn, or, for no arguments, the current node leads nowhere |
| `Fts.Stream.StartOn` | bionic/libc/bionic/fts.c:150-172 | The dummy node in front of the roots starts the traversal; without roots their parent is freed and it leads nowhere |
| `Fts.Stream.ReadAll` | bionic/libc/bionic/fts.c:258-443 | Reading until NULL terminates, shows all that is to be visited and leaves nothing allocated, on any finite directory graph |
| `Fts.Stream.Traverse` | bionic/libc/bionic/fts.c:73-443 | Opening, reading to the end and closing makes exactly the visits of the recursive search, paths, kinds and levels, and leaves nothing allocated; it is refused exactly for an empty argument and faults exactly for no arguments |

## Left out

- Memory orders: atomics are sequentially consistent, and fences are not modelled.
- Kernel futexes and clocks: a timeout, a failed check of a timespec and an interrupted wait can happen whenever the interface allows them.
- The lock around pending counts in rwlocks (private/bionic_lock.h), the list lock of threads and the allocator's lock: each critical section is one step or one call.
- Wrap-around of wakeup serials and key sequence numbers: they are unbounded.
- Calls that the interface leaves undefined: unlocking what one does not hold (where the code does not check), a barrier with more than init_count threads, using a key before pthread_key_create has returned, a handle after it was joined or detached.
- Initialisation, destruction and attributes of the synchronisation objects, and destroyed mutexes; the objects start initialised.
- Thread exit before the decision about the record: cleanup handlers, signal stacks and key destructors (the latter are in Keys).
- pthread_internal.cpp: the target SDK check and the fast path of find for the calling thread.
- Priority-inheritance locking, condition variables, c16rtomb and mbrtoc16, the iconv modes other than ERROR, names of encodings: their work is the kernel's, or easy, or documented to be inexact.
- Utf8Code.Mbrtoc32: the state must be zero or left by an earlier call, or have its fourth byte set, as the C standard demands; with other contents the number of missing bytes can wrap around and the code can write behind the state. The static state used for a null pointer is left out.
- fts: errors of system calls other than a failing stat, and of malloc, changing directories, sorting, fts_set, fts_children, the options NOSTAT, XDEV and SEEDOT, and sizes beyond size_t. An argument or an entry leads to a directory, to a file of some kind or nowhere (FTS_NS); whether symbolic links are followed is part of what it leads to.
- Fts.Stream.Load: the name of a root is not shortened to its last component, because nothing later reads it.
- IntegerFormat.FormatInteger: the most negative integer is not among the arguments, because its negation is undefined.
- Everything else in the repository: system call wrappers, the linker, stdio, malloc, DNS, properties, logging.
