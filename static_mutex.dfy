/** packages/mutex/src/static-memory-mutex.ts: a mutex without a key space;
    every call is the memory mutex's call on the one key `true`. With a
    single key the shared waiter queue cannot pass the lock across keys, and
    `Valid` states the resulting exclusion: while the key is held exactly one
    caller holds it, and otherwise none. */
module StaticMutexes {
  import opened Wrappers
  import opened ExposedPromises
  import opened LockOptions
  import opened MemoryMutexes

  class StaticMutexUsingMemory {
    const mutex: MutexUsingMemory<bool>

    ghost predicate Valid()
      reads this, mutex
    {
      && mutex.Valid()
      && mutex.locks <= {true}
      && (forall i :: 0 <= i < |mutex.waitingFor| ==> mutex.waitingFor[i])
      && mutex.holders == (if true in mutex.locks then multiset{true} else multiset{})
    }

    predicate Locked()
      reads this, mutex
    {
      true in mutex.locks
    }

    constructor ()
      ensures Valid() && fresh(mutex)
      ensures !Locked() && mutex.waiters == []
    {
      mutex := new MutexUsingMemory<bool>();
    }

    /** `tryLock(options)` = the memory mutex's `tryLock(true, options)`. */
    method TryLock(options: Options) returns (r: Result<bool, LockError>)
      requires Valid()
      modifies mutex
      ensures Valid()
      ensures mutex.holders[true] <= 1
      ensures MaybeAbort(options.abortSignal).Some? ==>
        r == Err(OptionsFailed(MaybeAbort(options.abortSignal).value)) && Locked() == old(Locked())
      ensures MaybeAbort(options.abortSignal).None? ==> r == Ok(!old(Locked())) && Locked()
      ensures mutex.waiters == old(mutex.waiters)
    {
      r := mutex.TryLock(true, options);
    }

    /** `lock(options)` = the memory mutex's `lock(true, options)`. */
    method Lock(options: Options) returns (r: LockStart)
      requires Valid()
      modifies mutex
      ensures Valid()
      ensures mutex.holders[true] <= 1
      ensures ResolveOptions(options).Err? ==>
        r == Failed(OptionsFailed(ResolveOptions(options).error))
        && Locked() == old(Locked()) && mutex.waiters == old(mutex.waiters)
      ensures ResolveOptions(options).Ok? && !old(Locked()) ==>
        r == Acquired && Locked() && mutex.waiters == old(mutex.waiters)
      ensures ResolveOptions(options).Ok? && old(Locked()) ==>
        && r.Waiting? && fresh(r.waiter) && r.waiter.state == Unsettled
        && Locked() && mutex.waiters == old(mutex.waiters) + [r.waiter]
    {
      r := mutex.Lock(true, options);
    }

    /** `unlock()` = the memory mutex's `unlock(true)`: fails when not held;
        otherwise the lock passes to the first pending waiter, or is
        released. Either way at most one caller holds it afterwards. */
    method Unlock() returns (r: Result<(), LockError>, ghost k: nat)
      requires Valid()
      modifies mutex, mutex.waiters
      ensures Valid()
      ensures mutex.holders[true] <= 1
      ensures k == FirstPending(old(StatusesOf(mutex.waiters)))
      ensures !old(Locked()) ==> r == Err(UnableToReleaseLock) && !Locked() && mutex.waiters == old(mutex.waiters)
      ensures old(Locked()) ==> r == Ok(())
      ensures old(Locked()) && k < old(|mutex.waiters|) ==>
        && Locked()
        && old(mutex.waiters)[k].state == Value(())
        && mutex.waiters == old(mutex.waiters)[k + 1..]
      ensures old(Locked()) && k == old(|mutex.waiters|) ==> !Locked() && mutex.waiters == []
      ensures forall w :: w in old(mutex.waiters) && (!old(Locked()) || k == old(|mutex.waiters|) || w != old(mutex.waiters)[k]) ==>
        w.state == old(w.state)
    {
      r, k := mutex.Unlock(true);
    }
  }

  /** The static mutex's test cases in one run: a fresh mutex is taken by
      `tryLock` and released by `unlock`; while it is held `tryLock` answers
      false and a short-timeout `lock` waits and is rejected with
      UnableToAcquireLock when its timer fires; `unlock` of a released mutex
      fails with UnableToReleaseLock; after `unlock` the mutex can be taken
      again. */
  method StaticMutexScenario()
    returns (firstTry: Result<bool, LockError>, firstUnlock: Result<(), LockError>,
             whileHeld: Result<bool, LockError>, timedOut: Status,
             unlockUnheld: Result<(), LockError>, retake: Result<bool, LockError>)
    ensures firstTry == Ok(true) && firstUnlock == Ok(())
    ensures whileHeld == Ok(false) && timedOut == Rejected
    ensures unlockUnheld == Err(UnableToReleaseLock)
    ensures retake == Ok(true)
  {
    var m := new StaticMutexUsingMemory();
    var timeout100 := Options(Some(100), None);
    firstTry := m.TryLock(timeout100);
    ghost var k;
    firstUnlock, k := m.Unlock();
    var held := m.Lock(timeout100);
    whileHeld := m.TryLock(timeout100);
    var waiting := m.Lock(Options(Some(1), None));
    m.mutex.AbortFired(waiting.waiter);
    timedOut := waiting.waiter.Status();
    assert StatusesOf(m.mutex.waiters) == [Rejected];
    var release;
    release, k := m.Unlock();
    unlockUnheld, k := m.Unlock();
    retake := m.TryLock(timeout100);
  }

  /** `unlock` passes the lock to the first of two queued callers only: it
      is resolved and leaves the queue, while the second stays pending and
      queued. */
  method HandOffWakesOnlyFirst() returns (first: Status, second: Status, queued: nat)
    ensures first == Fulfilled && second == Pending && queued == 1
  {
    var m := new StaticMutexUsingMemory();
    var noOptions := Options(None, None);
    var held := m.Lock(noOptions);
    var a := m.Lock(noOptions);
    var b := m.Lock(noOptions);
    assert StatusesOf(m.mutex.waiters) == [Pending, Pending];
    var r, k := m.Unlock();
    first := a.waiter.Status();
    second := b.waiter.Status();
    queued := |m.mutex.waiters|;
  }
}
