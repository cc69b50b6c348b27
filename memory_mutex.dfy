/** packages/mutex/src/memory-mutex.ts: an in-memory keyed mutex. It keeps
    the set of held keys and ONE first-in first-out queue of waiters shared
    by all keys; `unlock(id)` hands the lock to the first waiter that is
    still pending, whatever key that waiter asked for.

    Two ghost fields record what callers believe: `holders` counts, per key,
    the callers that were granted the key and have not released it, and
    `waitingFor` gives the key each queued waiter asked for. */
module MemoryMutexes {
  import opened Wrappers
  import opened ExposedPromises
  import opened LockOptions

  datatype LockError =
    | UnableToAcquireLock
    | UnableToReleaseLock
    | OptionsFailed(cause: OptionsError)

  type Waiter = ExposedPromise<(), LockError>

  /** How a `lock` call goes on after its synchronous part: it failed, it
      holds the key, or it waits on a queued waiter (listening for the
      effective abort signal when there is one). */
  datatype LockStart = Failed(error: LockError) | Acquired | Waiting(waiter: Waiter, listening: bool)

  /** The statuses of a list of waiters, front first. */
  ghost function StatusesOf(ws: seq<Waiter>): (ss: seq<Status>)
    reads set w | w in ws
    ensures |ss| == |ws|
    ensures forall i :: 0 <= i < |ws| ==> ss[i] == ws[i].Status()
  {
    if ws == [] then [] else [ws[0].Status()] + StatusesOf(ws[1..])
  }

  /** The position of the first pending status, or the length when there is
      none: the waiter `unlock` wakes. */
  function FirstPending(ss: seq<Status>): (k: nat)
    ensures k <= |ss|
    ensures forall i :: 0 <= i < k ==> ss[i] != Pending
    ensures k < |ss| ==> ss[k] == Pending
  {
    if ss == [] then 0
    else if ss[0] == Pending then 0
    else 1 + FirstPending(ss[1..])
  }

  class MutexUsingMemory<K(==)> {
    var locks: set<K>
    var waiters: seq<Waiter>
    ghost var holders: multiset<K>
    ghost var waitingFor: seq<K>

    ghost predicate Valid()
      reads this
    {
      |waitingFor| == |waiters|
    }

    constructor ()
      ensures Valid()
      ensures locks == {} && waiters == [] && holders == multiset{} && waitingFor == []
    {
      locks := {};
      waiters := [];
      holders := multiset{};
      waitingFor := [];
    }

    /** `tryLockSync(id)`: takes the key iff nobody holds it. */
    method TryLockSync(id: K) returns (acquired: bool)
      requires Valid()
      modifies this
      ensures Valid()
      ensures acquired <==> id !in old(locks)
      ensures locks == old(locks) + {id}
      ensures holders == if acquired then old(holders) + multiset{id} else old(holders)
      ensures waiters == old(waiters) && waitingFor == old(waitingFor)
    {
      if id in locks {
        return false;
      }
      locks := locks + {id};
      holders := holders + multiset{id};
      acquired := true;
    }

    /** `tryLock(id, options)`: throws the reason of an already-aborted
        caller signal before touching anything; otherwise `tryLockSync`. */
    method TryLock(id: K, options: Options) returns (r: Result<bool, LockError>)
      requires Valid()
      modifies this
      ensures Valid()
      ensures MaybeAbort(options.abortSignal).Some? ==>
        && r == Err(OptionsFailed(MaybeAbort(options.abortSignal).value))
        && locks == old(locks) && holders == old(holders)
      ensures MaybeAbort(options.abortSignal).None? ==>
        && r == Ok(id !in old(locks))
        && locks == old(locks) + {id}
        && holders == if id in old(locks) then old(holders) else old(holders) + multiset{id}
      ensures waiters == old(waiters) && waitingFor == old(waitingFor)
    {
      var abort := MaybeAbort(options.abortSignal);
      if abort.Some? {
        return Err(OptionsFailed(abort.value));
      }
      var acquired := TryLockSync(id);
      r := Ok(acquired);
    }

    /** The synchronous part of `lock(id, options)`: resolve the options
        (throwing when that fails), take a free key at once, or else queue one
        fresh pending waiter at the tail of the shared queue. */
    method Lock(id: K, options: Options) returns (r: LockStart)
      requires Valid()
      modifies this
      ensures Valid()
      ensures ResolveOptions(options).Err? ==>
        && r == Failed(OptionsFailed(ResolveOptions(options).error))
        && locks == old(locks) && holders == old(holders)
        && waiters == old(waiters) && waitingFor == old(waitingFor)
      ensures ResolveOptions(options).Ok? && id !in old(locks) ==>
        && r == Acquired
        && locks == old(locks) + {id} && holders == old(holders) + multiset{id}
        && waiters == old(waiters) && waitingFor == old(waitingFor)
      ensures ResolveOptions(options).Ok? && id in old(locks) ==>
        && r.Waiting? && fresh(r.waiter) && r.waiter.state == Unsettled
        && r.listening == ResolveOptions(options).value.abortSignal.Some?
        && locks == old(locks) && holders == old(holders)
        && waiters == old(waiters) + [r.waiter] && waitingFor == old(waitingFor) + [id]
    {
      var opt := ResolveOptions(options);
      if opt.Err? {
        return Failed(OptionsFailed(opt.error));
      }
      var acquired := TryLockSync(id);
      if acquired {
        return Acquired;
      }
      var waiter := new ExposedPromise<(), LockError>();
      waiters := waiters + [waiter];
      waitingFor := waitingFor + [id];
      r := Waiting(waiter, opt.value.abortSignal.Some?);
    }

    /** The abort listener of a waiting `lock`: rejects that waiter with
        UnableToAcquireLock; the waiter stays queued (it is dropped by a later
        `unlock`) and the held keys do not change. */
    method AbortFired(w: Waiter)
      modifies w
      ensures w.state == Apply(old(w.state), Settle.Reject(UnableToAcquireLock))
      ensures locks == old(locks) && waiters == old(waiters) && holders == old(holders)
    {
      w.Reject(UnableToAcquireLock);
    }

    /** `waiters.shift()`. */
    method Shift() returns (w: Option<Waiter>)
      requires Valid()
      modifies this
      ensures Valid()
      ensures old(waiters) == [] ==> w == None && waiters == [] && waitingFor == old(waitingFor)
      ensures old(waiters) != [] ==>
        w == Some(old(waiters)[0]) && waiters == old(waiters)[1..] && waitingFor == old(waitingFor)[1..]
      ensures locks == old(locks) && holders == old(holders)
    {
      if waiters == [] {
        return None;
      }
      w := Some(waiters[0]);
      waiters := waiters[1..];
      waitingFor := waitingFor[1..];
    }

    /** The scan at the start of `unlock`: shifts waiters off the front
        until one is still pending, and returns that one (already shifted),
        or nothing when the queue runs out. `k` is its position. */
    method DropSettled() returns (waiter: Option<Waiter>, ghost k: nat)
      requires Valid()
      modifies this
      ensures Valid()
      ensures k == FirstPending(old(StatusesOf(waiters)))
      ensures k < old(|waiters|) ==>
        && waiter == Some(old(waiters)[k]) && waiter.value.Status() == Pending
        && waiters == old(waiters)[k + 1..] && waitingFor == old(waitingFor)[k + 1..]
      ensures k == old(|waiters|) ==> waiter == None && waiters == [] && waitingFor == []
      ensures locks == old(locks) && holders == old(holders)
    {
      ghost var ss := StatusesOf(waiters);
      ghost var ws0, keys0 := waiters, waitingFor;
      waiter := Shift();
      ghost var taken := if waiter.Some? then 1 else 0;
      while waiter.Some? && waiter.value.Status() != Pending
        invariant Valid()
        invariant 0 <= taken <= |ws0|
        invariant waiters == ws0[taken..] && waitingFor == keys0[taken..]
        invariant locks == old(locks) && holders == old(holders)
        invariant waiter.Some? ==> taken >= 1 && waiter.value == ws0[taken - 1]
        invariant waiter.None? ==> taken == |ws0|
        invariant forall i :: 0 <= i < taken - 1 ==> ss[i] != Pending
        invariant waiter.None? && taken > 0 ==> ss[taken - 1] != Pending
        decreases |waiters|, waiter.Some?
      {
        waiter := Shift();
        taken := if waiter.Some? then taken + 1 else taken;
      }
      k := if waiter.Some? then taken - 1 else taken;
      assert FirstPending(ss) == k;
    }

    /** `unlock(id)`: fails for a key nobody holds. Otherwise drops the
        waiters at the front that are no longer pending, then either resolves
        the first pending waiter, keeping `id` held (the lock passes to that
        waiter, whatever key it asked for), or, with no pending waiter left,
        releases `id`. */
    method Unlock(id: K) returns (r: Result<(), LockError>, ghost k: nat)
      requires Valid()
      modifies this, waiters
      ensures Valid()
      ensures k == FirstPending(old(StatusesOf(waiters)))
      ensures id !in old(locks) ==>
        && r == Err(UnableToReleaseLock)
        && locks == old(locks) && holders == old(holders)
        && waiters == old(waiters) && waitingFor == old(waitingFor)
      ensures id in old(locks) ==> r == Ok(())
      ensures id in old(locks) && k < old(|waiters|) ==>
        && old(waiters)[k].state == Value(())
        && waiters == old(waiters)[k + 1..] && waitingFor == old(waitingFor)[k + 1..]
        && locks == old(locks)
        && holders == old(holders) - multiset{id} + multiset{old(waitingFor)[k]}
      ensures id in old(locks) && k == old(|waiters|) ==>
        && waiters == [] && waitingFor == []
        && locks == old(locks) - {id}
        && holders == old(holders) - multiset{id}
      ensures forall w :: w in old(waiters) && (id !in old(locks) || k == old(|waiters|) || w != old(waiters)[k]) ==>
        w.state == old(w.state)
    {
      if id !in locks {
        k := FirstPending(StatusesOf(waiters));
        return Err(UnableToReleaseLock), k;
      }
      ghost var keys0 := waitingFor;
      var waiter;
      waiter, k := DropSettled();
      if waiter.Some? {
        waiter.value.Resolve(());
        holders := holders - multiset{id} + multiset{keys0[k]};
      } else {
        locks := locks - {id};
        holders := holders - multiset{id};
      }
      r := Ok(());
    }
  }

  /** Keys A and B held, and one caller queued for B. */
  method HoldBothAndQueueForB() returns (m: MutexUsingMemory<char>, w: Waiter)
    ensures fresh(m) && fresh(w) && m.Valid()
    ensures m.locks == {'A', 'B'} && m.holders == multiset{'A', 'B'}
    ensures m.waiters == [w] && m.waitingFor == ['B'] && w.state == Unsettled
  {
    m := new MutexUsingMemory<char>();
    var noOptions := Options(None, None);
    var a := m.Lock('A', noOptions);
    var b := m.Lock('B', noOptions);
    var waiting := m.Lock('B', noOptions);
    w := waiting.waiter;
  }

  /** The shared queue lets `unlock(A)` wake a waiter that asked for key B:
      with A and B both held and one caller waiting for B, unlocking A
      resolves that waiter while B is still held by its first holder, so two
      callers hold B and nobody holds A although A stays locked. */
  method CrossKeyHandOff() returns (woken: Status, locks: set<char>, ghost holdersOfB: nat, ghost holdersOfA: nat)
    ensures woken == Fulfilled
    ensures locks == {'A', 'B'}
    ensures holdersOfB == 2 && holdersOfA == 0
  {
    var m, w := HoldBothAndQueueForB();
    assert StatusesOf(m.waiters) == [Pending];
    var u, k := m.Unlock('A');
    assert k == 0;
    woken := w.Status();
    locks := m.locks;
    holdersOfB := m.holders['B'];
    holdersOfA := m.holders['A'];
  }
}
