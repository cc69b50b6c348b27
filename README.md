# Concurrency utilities, modelled in Dafny

This project models the core of a TypeScript monorepo of small concurrency
utilities and proves properties of the model:

- **exposed promise** (`exposed_promise.dfy`): a promise whose resolve/reject
  functions and status are exposed to its creator. The first settle call
  decides the outcome.
- **wait group** (`wait_group.dfy`): a counter of outstanding operations and
  the waiters released when it returns to zero. A waiter can time out.
- **lock options** (`lock_options.dfy`): how a lock call's timeout and the
  caller's abort signal combine into one signal, and when resolving the
  options throws.
- **memory mutex** (`memory_mutex.dfy`): an in-memory keyed mutex with one
  FIFO queue of waiters shared by all keys. Its class keeps two ghost
  fields: `holders` (how many callers believe they hold each key) and
  `waitingFor` (the key each queued waiter asked for).
- **static mutex** (`static_mutex.dfy`): the memory mutex on the single key
  `true`. Its invariant states single-holder exclusion.
- **multi mutex** (`multi_mutex.dfy`): a mutex over an ordered list of
  sub-mutexes. It locks them in order and rolls back in reverse order on
  failure. The sub-mutexes' replies are inputs, and each operation returns
  the calls it makes.
- **process queues**:
  - `queue_items.dfy` holds what the queues share: the per-task record,
    JavaScript truthiness of a rejection reason, and the option defaults.
  - `sequential_queue.dfy`: one task at a time, always the head.
  - `concurrent_queue.dfy`: up to `maxProcessing` tasks at once, with a wait
    group for `stop`.
  - `partitioned_queue.dfy`: one sequential queue per partition key, with
    JavaScript's truncating `%`.
- **back-off strategies** (`linear.dfy`, `exponential.dfy`).

Objects whose fields the source updates in place are Dafny classes: the
promise cell, the wait group, the mutexes and the queues. Their methods state
the whole new state. Each asynchronous continuation of the source is its own
method, called by the environment:

- a timer or `setImmediate` callback fires;
- a processor call settles;
- an awaited hook returns or throws;
- an abort listener runs.

Pure computations are functions, with lemmas relating them to reference
definitions.

Behaviours of the code that the model keeps and demonstrates:

- `MemoryMutexes.CrossKeyHandOff`: with keys A and B held and a caller
  waiting for B, `unlock(A)` wakes that caller. B then has two holders and
  A has none, although A stays locked.
- `SequentialQueues.RestartWhileProcessing`: stopping and restarting a
  sequential queue while its head is being processed hands the head to the
  processor a second time.
- `ConcurrentQueues.StopWhileScheduledFreezes`: stopping a concurrent queue
  while a callback is queued leaves `timer` holding the cancelled handle, so
  no callback is ever queued again.
- `PartitionedQueues.RoutingScenario`: a partition key with a negative
  remainder throws a TypeError. A remainder of -0 still reaches queue 0.

`lock` with an already-aborted abort signal throws that signal's own reason:
`resolveOptions` throws it before any waiter is queued, so the caller does
not see UnableToAcquireLock.

## Model

| member | source | states |
|---|---|---|
| ExposedPromises.Apply | packages/exposed-promise/src/index.ts:27-38 | a pending cell takes the outcome of a settle call; a settled cell ignores it |
| ExposedPromises.SettledIsFinal | packages/exposed-promise/src/index.ts:27-38 | no sequence of settle calls changes a settled cell |
| ExposedPromises.FirstCallDecides | packages/exposed-promise/src/index.ts:27-38 | the first settle call on a pending cell decides its state and status; later calls are no-ops |
| ExposedPromises.ExposedPromise.constructor | packages/exposed-promise/src/index.ts:16-24 | a new cell is pending |
| ExposedPromises.ExposedPromise.Resolve | packages/exposed-promise/src/index.ts:27-32 | fulfils a pending cell with the value; no effect on a settled one |
| ExposedPromises.ExposedPromise.Reject | packages/exposed-promise/src/index.ts:33-38 | rejects a pending cell with the reason; no effect on a settled one |
| ExposedPromises.ResolveAfterReject | packages/exposed-promise/src/index.test.ts:4-22 | resolving fulfils; rejecting and then resolving leaves the cell rejected |
| WaitGroups.Without | packages/wait-group/src/index.ts:38 | the filter keeps only elements of the list other than the removed one, and changes nothing when it is absent |
| WaitGroups.WithoutKeepsOthers | packages/wait-group/src/index.ts:38 | every element other than the removed one survives the filter |
| WaitGroups.WithoutAt | packages/wait-group/src/index.ts:38 | removing an element that occurs once takes out exactly its position and keeps the order |
| WaitGroups.WithoutDistinct | packages/wait-group/src/index.ts:38 | the filter keeps a list free of repetitions |
| WaitGroups.WaitGroup.constructor | packages/wait-group/src/index.ts:8-9 | counter zero, no waiters |
| WaitGroups.WaitGroup.Add | packages/wait-group/src/index.ts:11-13 | the counter grows by exactly `i`; the waiters are unchanged |
| WaitGroups.WaitGroup.Done | packages/wait-group/src/index.ts:15-26 | at zero it fails and changes nothing; otherwise it decrements, and on reaching zero resolves every waiter and empties the list |
| WaitGroups.WaitGroup.Wait | packages/wait-group/src/index.ts:28-44 | immediate at zero; otherwise one fresh pending waiter appended, with a timer iff `timeout > -1` |
| WaitGroups.WaitGroup.TimeoutFired | packages/wait-group/src/index.ts:37-40 | only that waiter leaves the list and is rejected with WaitGroupTimeoutExceeded; the counter is unchanged |
| WaitGroups.ShortWaitTimesOutLongWaitResolves | packages/wait-group/src/index.test.ts:45-67 | with the counter at one, a `wait(0)` whose timer fires is rejected while a `wait(50)` resolves on `done` |
| LockOptions.ReasonOf | packages/mutex/src/abort-signal-options.ts:31 | the reason an aborted signal throws: the caller's own, TimeoutError for a fired timeout, and for a combined signal the reason of one of its aborted parts |
| LockOptions.EffectiveSignal | packages/mutex/src/abort-signal-options.ts:10-19 | fails iff the timeout is negative; a signal is present iff there is a timeout or a caller's signal; without a timeout it is the caller's; a fresh one is aborted iff the caller's signal is, with its reason |
| LockOptions.MaybeAbort | packages/mutex/src/abort-signal-options.ts:29-33 | throws iff a signal is present and aborted, and throws that signal's reason |
| LockOptions.ResolveOptions | packages/mutex/src/abort-signal-options.ts:9-24 | fails with the error of building the effective signal, or with its reason iff it is already aborted; otherwise only `abortSignal` is replaced by the effective signal |
| LockOptions.NoTimeoutKeepsSignal | packages/mutex/src/abort-signal-options.ts:10-23 | without a (truthy) timeout the options come back unchanged iff the caller's signal is not aborted |
| LockOptions.TimeoutCombinesWithCallerSignal | packages/mutex/src/abort-signal-options.ts:12-18 | with a timeout and a caller's signal, the combined signal is aborted when built iff the caller's is, with its reason; later it aborts iff either part does, and when only one part has aborted the reason is that part's |
| LockOptions.TimeoutAlone | packages/mutex/src/abort-signal-options.ts:12-18 | with only a positive timeout, the effective signal is a fresh timeout signal and resolving succeeds |
| LockOptions.AbsentSignalNeverAborts | packages/mutex/src/abort-signal-options.ts:29-33 | `maybeAbort(undefined)` does not throw |
| MemoryMutexes.FirstPending | packages/mutex/src/memory-mutex.ts:46-50 | the position of the first pending waiter: all before it are settled |
| MemoryMutexes.MutexUsingMemory.constructor | packages/mutex/src/memory-mutex.ts:6-7 | no key held, no waiters |
| MemoryMutexes.MutexUsingMemory.TryLockSync | packages/mutex/src/memory-mutex.ts:25-33 | acquires iff the key is not held; the key is held afterwards |
| MemoryMutexes.MutexUsingMemory.TryLock | packages/mutex/src/memory-mutex.ts:35-39 | an aborted caller signal throws its reason and changes nothing; otherwise answers whether the key was free and holds it |
| MemoryMutexes.MutexUsingMemory.Lock | packages/mutex/src/memory-mutex.ts:9-23 | failing options change nothing; a free key is taken; a held key queues one fresh pending waiter at the tail |
| MemoryMutexes.MutexUsingMemory.AbortFired | packages/mutex/src/memory-mutex.ts:18-20 | the waiter is rejected with UnableToAcquireLock; the keys and the queue are unchanged |
| MemoryMutexes.MutexUsingMemory.Shift | packages/mutex/src/memory-mutex.ts:46 | removes and returns the head of the queue, if any |
| MemoryMutexes.MutexUsingMemory.DropSettled | packages/mutex/src/memory-mutex.ts:46-50 | removes the settled waiters at the front and the first pending one, which it returns; with none pending, it empties the queue |
| MemoryMutexes.MutexUsingMemory.Unlock | packages/mutex/src/memory-mutex.ts:41-57 | fails for a key not held and changes nothing; otherwise wakes the first pending waiter (whatever key it asked for), drops it and the settled ones before it from the queue and keeps the key held, or releases the key and empties the queue when no waiter is pending; no other waiter changes state |
| MemoryMutexes.CrossKeyHandOff | packages/mutex/src/memory-mutex.ts:41-57 | unlocking A wakes a waiter for B: B has two holders, A none, and both stay locked |
| StaticMutexes.StaticMutexUsingMemory.constructor | packages/mutex/src/static-memory-mutex.ts:5 | a fresh, unlocked mutex satisfying the exclusion invariant |
| StaticMutexes.StaticMutexUsingMemory.TryLock | packages/mutex/src/static-memory-mutex.ts:7-9 | answers whether the mutex was free, and it is locked afterwards; at most one holder |
| StaticMutexes.StaticMutexUsingMemory.Lock | packages/mutex/src/static-memory-mutex.ts:11-13 | acquires a free mutex or queues a waiter; at most one holder |
| StaticMutexes.StaticMutexUsingMemory.Unlock | packages/mutex/src/static-memory-mutex.ts:15-17 | fails when unlocked; otherwise passes the lock to the first pending waiter, leaving the queue after it, or releases it with an empty queue; no other waiter changes state; at most one holder |
| StaticMutexes.HandOffWakesOnlyFirst | packages/mutex/src/static-memory-mutex.ts:15-17 | with two callers queued, `unlock` resolves the first and leaves the second pending and queued |
| StaticMutexes.StaticMutexScenario | packages/mutex/src/static-mutex.test.ts:17-76 | the static mutex test cases: acquire/release, tryLock while held is false, a short timeout is rejected, unlocking an unheld mutex fails, re-acquiring works |
| MultiMutexes.TimeLeft | packages/mutex/src/multi-mutex.ts:10-18 | the first sub-mutex gets the caller's timeout; a later one gets a timeout iff the caller gave a non-zero one, and never more than it |
| MultiMutexes.ReleaseInOrder | packages/mutex/src/multi-mutex.ts:20-22 | a release loop makes at most one call per position, one for every position when no release throws, and at least one when a release throws |
| MultiMutexes.LockRun | packages/mutex/src/multi-mutex.ts:8-27 | `lock` makes at most two calls per sub-mutex, and with none it succeeds without a call |
| MultiMutexes.TryLockRun | packages/mutex/src/multi-mutex.ts:29-57 | `tryLock` makes at most two calls per sub-mutex, and with none it answers true without a call |
| MultiMutexes.HrTimeToMs | packages/mutex/src/multi-mutex.ts:69-71 | whole milliseconds of a nanosecond duration, rounded down |
| MultiMutexes.Descending | packages/mutex/src/multi-mutex.ts:17 | unshifting each acquired position gives the positions in reverse order |
| MultiMutexes.FirstLockFailure | packages/mutex/src/multi-mutex.ts:13-25 | the first sub-mutex whose `lock` throws; all before it succeeded |
| MultiMutexes.FirstProbeFailure | packages/mutex/src/multi-mutex.ts:33-46 | the first sub-mutex whose `tryLock` is not true; all before it answered true |
| MultiMutexes.ReleaseShape | packages/mutex/src/multi-mutex.ts:20-22 | a release loop unlocks a prefix of its order, runs to the end iff no unlock throws, and otherwise stops at the first throwing one with its error |
| MultiMutexes.LockSucceedsInOrder | packages/mutex/src/multi-mutex.ts:8-27 | `lock` succeeds iff every sub-mutex's `lock` does, and then it locked each exactly once, in list order |
| MultiMutexes.LockFailureRollsBack | packages/mutex/src/multi-mutex.ts:13-25 | on the first failing sub-mutex, the ones acquired are unlocked in strictly descending order, no later one is touched, and the error is that sub-mutex's error unless a release throws |
| MultiMutexes.TryLockTrueIffAllProbesTrue | packages/mutex/src/multi-mutex.ts:29-50 | `tryLock` answers true iff every probe answered true (a throwing probe counts as false) |
| MultiMutexes.TryLockFailureRollsBack | packages/mutex/src/multi-mutex.ts:33-57 | after the first probe that is not true, the ones taken are released in reverse order, and the answer is false iff no release throws |
| MultiMutexes.BudgetShrinks | packages/mutex/src/multi-mutex.ts:18 | with a timeout, each later sub-mutex gets no more time than the caller gave and, on a monotonic clock, no more than the previous one |
| MultiMutexes.MultiMutex.constructor | packages/mutex/src/multi-mutex.ts:4-5 | the number of sub-mutexes |
| MultiMutexes.MultiMutex.Lock | packages/mutex/src/multi-mutex.ts:8-27 | the loop's calls and error are those of the specification `LockRun` |
| MultiMutexes.MultiMutex.TryLock | packages/mutex/src/multi-mutex.ts:29-57 | the loop's calls and answer are those of the specification `TryLockRun` |
| MultiMutexes.MultiMutex.Unlock | packages/mutex/src/multi-mutex.ts:59-65 | unlocks from the last sub-mutex to the first, stopping at the first that throws |
| MultiMutexes.MultiMutex.ReleaseAll | packages/mutex/src/multi-mutex.ts:20-22 | the rollback loop's calls and error are those of `ReleaseInOrder` |
| QueueItems.StackItem.constructor | packages/process-queue/src/sequential.ts:64-66 | a new record has the task, no tries, and a fresh pending promise |
| SequentialQueues.SequentialProcessQueue.constructor | packages/process-queue/src/sequential.ts:13-20 | empty and idle; running unless `autoStart` is false |
| SequentialQueues.SequentialProcessQueue.ScheduleNextTask | packages/process-queue/src/sequential.ts:35-37 | one more callback queued; `timer` refers to it |
| SequentialQueues.SequentialProcessQueue.Push | packages/process-queue/src/sequential.ts:63-73 | appends a fresh item at the tail, earlier items unchanged; schedules iff the backlog was empty and the queue runs |
| SequentialQueues.SequentialProcessQueue.Start | packages/process-queue/src/sequential.ts:27-33 | no effect when running; otherwise runs and schedules |
| SequentialQueues.SequentialProcessQueue.Stop | packages/process-queue/src/sequential.ts:100-112 | not running, the referenced callback cancelled; resolves at once when idle, else installs a new `nextTick` |
| SequentialQueues.SequentialProcessQueue.Purge | packages/process-queue/src/sequential.ts:22-23 | up to its `await`, purge is stop |
| SequentialQueues.SequentialProcessQueue.PurgeAfterStop | packages/process-queue/src/sequential.ts:24 | the backlog is emptied; nothing else changes |
| SequentialQueues.SequentialProcessQueue.TickFired | packages/process-queue/src/sequential.ts:48-61 | on a non-empty backlog the head, and only the head, goes to the processor with one more try |
| SequentialQueues.SequentialProcessQueue.ProcessorSettled | packages/process-queue/src/sequential.ts:75-86 | a truthy reason keeps the backlog and calls `onError` with the head's task and tries; anything else removes the head and calls `onFinish`; no head means nothing more happens |
| SequentialQueues.SequentialProcessQueue.SkipCurrentTask | packages/process-queue/src/sequential.ts:39-46 | removes the current head, if any |
| SequentialQueues.SequentialProcessQueue.HookReturned | packages/process-queue/src/sequential.ts:79-97 | after the hook the item's promise is rejected or fulfilled, a pending `stop` is released, and `onDrained` is called iff the backlog is empty, else a callback is queued if running; a throwing hook ends the call there, leaving the item's promise, a pending `stop` promise and the schedule untouched |
| SequentialQueues.FifoOrder | packages/process-queue/src/index.test.ts:254-273 | tasks a, b, c are processed in that order and each promise is fulfilled with its task |
| SequentialQueues.RestartWhileProcessing | packages/process-queue/src/sequential.ts:27-61 | stop and start while the head is processing hand the head to the processor twice |
| ConcurrentQueues.FirstIdle | packages/process-queue/src/concurrent.ts:52 | the first item not in flight: all before it are in flight |
| ConcurrentQueues.ConcurrentProcessQueue.constructor | packages/process-queue/src/concurrent.ts:15-23 | empty; `maxProcessing` and `autoStart` from the options or the defaults |
| ConcurrentQueues.ConcurrentProcessQueue.ScheduleNextTask | packages/process-queue/src/concurrent.ts:38-43 | queues a callback iff running, no timer handle is held, and below the cap |
| ConcurrentQueues.ConcurrentProcessQueue.Push | packages/process-queue/src/concurrent.ts:70-79 | appends a fresh item; tries to schedule only when the stack was empty and the queue runs |
| ConcurrentQueues.ConcurrentProcessQueue.Start | packages/process-queue/src/concurrent.ts:30-36 | no effect when running; otherwise runs and tries to schedule |
| ConcurrentQueues.ConcurrentProcessQueue.Stop | packages/process-queue/src/concurrent.ts:104-113 | not running; a queued callback becomes a cancelled handle; resolves at once when nothing is in flight, else registers a wait-group waiter |
| ConcurrentQueues.ConcurrentProcessQueue.Purge | packages/process-queue/src/concurrent.ts:25-26 | up to its `await`, purge is stop |
| ConcurrentQueues.ConcurrentProcessQueue.PurgeAfterStop | packages/process-queue/src/concurrent.ts:27 | the stack is emptied; in-flight calls go on |
| ConcurrentQueues.ConcurrentProcessQueue.TickFired | packages/process-queue/src/concurrent.ts:50-68 | resets `timer`, starts the first item not in flight (never one in flight), counts it in the wait group, and reschedules iff there is room |
| ConcurrentQueues.ConcurrentProcessQueue.Begin | packages/process-queue/src/concurrent.ts:55-59 | the found item is marked, its tries grow by one, it is handed to the processor and counted |
| ConcurrentQueues.ConcurrentProcessQueue.ProcessorSettled | packages/process-queue/src/concurrent.ts:81-91 | that call leaves the in-flight list; a truthy reason keeps the stack and calls `onError`; anything else removes exactly that item and calls `onFinish` |
| ConcurrentQueues.ConcurrentProcessQueue.Unmark | packages/process-queue/src/concurrent.ts:82-83 | the settled call leaves the in-flight list and the count, its item is unmarked with its tries kept, and nothing else changes; the queue's invariant holds apart from the wait group, which still counts that call |
| ConcurrentQueues.ConcurrentProcessQueue.SkipCurrentTask | packages/process-queue/src/concurrent.ts:45-48 | removes exactly the bound item from the stack |
| ConcurrentQueues.ConcurrentProcessQueue.HookReturned | packages/process-queue/src/concurrent.ts:86-101 | settles the item's promise, awaits `onDrained` iff the stack is empty; otherwise queues a new callback exactly when the queue is running, no callback is queued and fewer than `maxProcessing` tasks are in flight, and leaves the timer alone when the hook threw; the wait group is marked done once per finished call; a throwing hook leaves the item's promise unsettled, and a throwing or drained call leaves every wait-group waiter as it was |
| ConcurrentQueues.ConcurrentProcessQueue.Resume | packages/process-queue/src/concurrent.ts:95-101 | the tail of `handleProcessorResult` after an awaited hook: drained iff the stack is empty and the hook was not `onDrained`; when not drained and not after `onDrained`, queues a callback exactly when running, idle and below the cap; otherwise the timer is unchanged; when drained, the wait group and its waiters are left as they were |
| ConcurrentQueues.ConcurrentProcessQueue.SettleResult | packages/process-queue/src/concurrent.ts:88-92 | rejects after `onError`, fulfils with the task after `onFinish` |
| ConcurrentQueues.ConcurrentProcessQueue.MarkDone | packages/process-queue/src/concurrent.ts:101 | the wait group's counter goes down by one, releasing its waiters at zero |
| ConcurrentQueues.StopWhileScheduledFreezes | packages/process-queue/src/concurrent.ts:38-43 | after stop with a callback queued, restart and push queue nothing: the processor is never called |
| ConcurrentQueues.CapStopsScheduling | packages/process-queue/src/concurrent.ts:50-68 | with a cap of one, the callback starts the first task and queues no further callback |
| ConcurrentQueues.CapResumesAfterFinish | packages/process-queue/src/concurrent.ts:81-101 | with a cap of one, after 'a' is fulfilled and its `onFinish` returns, 'b' is still queued, so the queue is not drained and a new callback is queued |
| PartitionedQueues.JsRemainder | packages/process-queue/src/partitioned.ts:27 | JavaScript `%`: the dividend minus the truncated quotient times the divisor, with the dividend's sign and smaller than the divisor |
| PartitionedQueues.JsRemainderUnique | packages/process-queue/src/partitioned.ts:27 | these properties determine the remainder and quotient uniquely |
| PartitionedQueues.Partition | packages/process-queue/src/partitioned.ts:27 | a queue is found iff there are partitions and the remainder is not negative, and its key is below the number of partitions |
| PartitionedQueues.NonNegativeKeysAreRouted | packages/process-queue/src/partitioned.ts:27 | a non-negative value always finds the queue at its remainder |
| PartitionedQueues.NegativeKeysRoutedOnlyWhenMultiple | packages/process-queue/src/partitioned.ts:27 | a negative value finds a queue iff it is a multiple of the partition count, and then it is queue 0 |
| PartitionedQueues.RoutingIsPeriodic | packages/process-queue/src/partitioned.ts:27 | on non-negative values routing repeats with period equal to the partition count |
| PartitionedQueues.SinglePartitionTakesEverything | packages/process-queue/src/partitioned.ts:27 | with one partition every value goes to queue 0 |
| PartitionedQueues.PartitionedProcessQueue.constructor | packages/process-queue/src/partitioned.ts:8-16 | one fresh, distinct queue per key below the partition count; none when it is not positive |
| PartitionedQueues.PartitionedProcessQueue.Push | packages/process-queue/src/partitioned.ts:26-28 | the routed queue's whole new state is that of its own push (a fresh item with no tries at the tail, scheduling iff it was empty and running) and no other queue changes; with no such queue, a TypeError |
| PartitionedQueues.PartitionedProcessQueue.Start | packages/process-queue/src/partitioned.ts:30-34 | every queue's whole new state is that of its own start (`StartStep`): it runs, and only a queue that was not running queues a callback |
| PartitionedQueues.PartitionedProcessQueue.Stop | packages/process-queue/src/partitioned.ts:36-43 | every queue's whole new state is that of its own stop (`StopStep`): not running, its live callback cancelled; the result lists what each stop waits on |
| PartitionedQueues.PartitionedProcessQueue.Purge | packages/process-queue/src/partitioned.ts:17-24 | every queue starts its purge, which is a stop (`StopStep`): not running, its live callback cancelled; the result lists what each waits on |
| PartitionedQueues.RoutingScenario | packages/process-queue/src/partitioned.ts:26-28 | with two partitions, 3 goes to queue 1, 4 and -2 to queue 0, and -3 throws |
| LinearBackoff.BackOff | packages/backoff/src/linear.ts:7-9 | never throws; the delay is zero exactly when the attempt or the increment is |
| LinearBackoff.EachAttemptAddsIncrement | packages/backoff/src/linear.ts:8 | each further attempt waits exactly one increment longer |
| LinearBackoff.BackOffIsAccumulated | packages/backoff/src/linear.ts:7-9 | the delay equals the increment added once per attempt |
| LinearBackoff.NonDecreasing | packages/backoff/src/linear.ts:7-9 | with a non-negative increment delays never decrease and are not negative |
| LinearBackoff.IncrementOfHundred | packages/backoff/src/linear.test.ts:4-18 | increment 100 gives 100 to 700 for attempts 1 to 7 |
| ExponentialBackoff.NewExponentialBackoff | packages/backoff/src/exponential.ts:4-10 | the defaults are a 2500000 ms cap and base 2 |
| ExponentialBackoff.PowerStep | packages/backoff/src/exponential.ts:19 | raising the exponent by one multiplies by the base |
| ExponentialBackoff.PowerAtLeastOne | packages/backoff/src/exponential.ts:19 | a base of at least one to a natural power is at least one |
| ExponentialBackoff.PowerMonotone | packages/backoff/src/exponential.ts:19 | with a base of at least one, powers grow with the exponent |
| ExponentialBackoff.Uncapped | packages/backoff/src/exponential.ts:19 | with a base of at least one and a non-negative initial delay, no try waits less than the initial delay before capping |
| ExponentialBackoff.UncappedStep | packages/backoff/src/exponential.ts:19 | the uncapped delay of the next try is `base` times that of this one, for every integer attempt |
| ExponentialBackoff.BackOff | packages/backoff/src/exponential.ts:12-21 | throws for the attempt iff `maxAttempts` is not -1 and is exceeded; otherwise the minimum of the cap and `initialDelayMs * base ** (attempt - 1)` |
| ExponentialBackoff.UncappedMonotone | packages/backoff/src/exponential.ts:19 | with base at least one and a non-negative initial delay, the uncapped delay never decreases from one try to a later one |
| ExponentialBackoff.FirstAttemptWaitsInitialDelay | packages/backoff/src/exponential.ts:17-20 | the first attempt waits the initial delay when it is below the cap |
| ExponentialBackoff.GrowsByBase | packages/backoff/src/exponential.ts:17-20 | below the cap each delay is `base` times the previous one |
| ExponentialBackoff.NonDecreasing | packages/backoff/src/exponential.ts:17-20 | with base at least one and a non-negative initial delay, later attempts never wait less |
| ExponentialBackoff.UnlimitedNeverThrows | packages/backoff/src/exponential.ts:13 | with `maxAttempts` -1 no attempt throws |
| ExponentialBackoff.TestTables | packages/backoff/src/exponential.test.ts:4-70 | the doubling, capped, max-attempts and fractional-base tables |

## Left out

- QueueItems.OrDefault: an option the caller passes explicitly as `undefined` still overrides the default, because the options are merged by object spread; the model's `Option` cannot express such a value, so it is not modelled. Under JavaScript, `maxProcessing: undefined` makes the `processing < maxProcessing` test false, and the concurrent queue then never schedules; `autoStart: undefined` leaves a queue stopped.
- JavaScript numbers are modelled as unbounded integers (counters, timeouts, attempts, partition keys) or exact reals (delays, bases). Floating-point rounding, NaN, Infinity and non-integer attempts, keys or partition counts are not modelled.
- ExponentialBackoff.BackOff: requires `attempt >= 1` or a non-zero base, because JavaScript's `0 ** negative` is Infinity, which the real-valued model cannot represent.
- ExponentialBackoff.Uncapped: the same requirement, for the same reason.
- LockOptions.ReasonOf: signals are snapshots without a time order. When the caller's signal and the timeout both abort after they are combined, `AbortSignal.any` keeps the reason of whichever aborted first in time; the model gives the caller's reason, so `TimeoutCombinesWithCallerSignal` states the reason only when one part has aborted.
- The event loop is not modelled. `setImmediate`, `setTimeout`, promise continuations and abort listeners are separate methods that the environment may call in any order their preconditions allow.
- The processor, the `onError`/`onFinish`/`onDrained` hooks and the multi mutex's sub-mutexes are caller code. Their outcomes are inputs: a rejection reason, whether a hook threw, a sub-mutex's reply.
- A processor that throws synchronously inside `processNextTask` is not modelled.
- Resolving a promise with a thenable is not modelled; resolve takes a plain value.
- `skipCurrentTask`'s `promise.catch(() => {})` only marks a rejection as handled and has no observable state, so it is not modelled.
- Waiters are rejected with the bare error kind. `UnableToAcquireLock.becauseOfError(err)`, error messages, codes and the error classes (packages/mutex/src/index.ts, packages/backoff/src/index.ts, packages/error-standard) are datatype constructors only.
- The partitioned queue's factory always builds a sequential queue with the given `autoStart`; partitions that are concurrent queues are not modelled.
- The multi mutex records the timeout it passes to each sub-mutex's `lock` but not the other options, which pass through unchanged.
- The monotonic clock behind `process.hrtime` is an input: the elapsed nanoseconds after each acquisition.
- A wait group timer's duration is not modelled, only whether a timer was armed. Its firing is `TimeoutFired`.
- Which `setImmediate` callback a sequential queue's `timer` refers to is modelled by `pendingTicks` and `timerLive`. Callback identities are not modelled.
- packages/pg-connection-provider is not part of this model.
