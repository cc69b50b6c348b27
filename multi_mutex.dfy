/** packages/mutex/src/multi-mutex.ts: a mutex made of an ordered list of
    sub-mutexes. The sub-mutexes are opaque here: what each of them answers
    to a call is an input (a function from the sub-mutex's position to its
    reply), and each operation returns the list of calls it makes on them,
    in order, with its own outcome. Every call is made with the same key. */
module MultiMutexes {
  import opened Wrappers
  import opened LockOptions

  /** One call on the sub-mutex at position `index`. */
  datatype SubCall =
    | LockCall(index: nat, timeout: Option<int>)
    | TryLockCall(index: nat)
    | UnlockCall(index: nat)

  /** A sub-mutex's answer to `tryLock`: true, false, or a thrown error. */
  datatype Probe<E> = Locked | NotLocked | Threw(error: E)

  /** The calls made by a release loop and the error that ended it early. */
  datatype Release<E> = Release(calls: seq<SubCall>, error: Option<E>)

  /** `hrTimeToMs(ns)`: whole milliseconds in a nanosecond duration. */
  function HrTimeToMs(ns: nat): (ms: nat)
    ensures ms * 1000000 <= ns < ms * 1000000 + 1000000
  {
    ns / 1000000
  }

  /** The timeout passed to the sub-mutex at position `i` by `lock`: the
      caller's own for the first; for later ones, when the caller gave a
      timeout, the caller's timeout minus the whole milliseconds elapsed when
      the previous sub-mutex was acquired (`elapsedNs(i - 1)`); otherwise
      none. */
  function TimeLeft(timeout: Option<int>, elapsedNs: nat -> nat, i: nat): (t: Option<int>)
    ensures i == 0 ==> t == timeout
    ensures i > 0 ==> (t.Some? <==> timeout.Some? && timeout.value != 0)
    ensures i > 0 && t.Some? ==> t.value <= timeout.value
  {
    if i == 0 then timeout
    else if timeout.Some? && timeout.value != 0 then Some(timeout.value - HrTimeToMs(elapsedNs(i - 1)))
    else None
  }

  /** The positions `k - 1, k - 2, ..., 0`: the order of `lockedMutexes`
      after `k` acquisitions, each put at the front. */
  function Descending(k: nat): (d: seq<nat>)
    ensures |d| == k
    ensures forall j :: 0 <= j < k ==> d[j] == k - 1 - j
  {
    seq(k, j requires 0 <= j < k => k - 1 - j)
  }

  /** The first position at or after `from` whose `lock` threw, or `n`. */
  function FirstLockFailure<E>(n: nat, lockReply: nat -> Option<E>, from: nat): (k: nat)
    requires from <= n
    ensures from <= k <= n
    ensures forall i :: from <= i < k ==> lockReply(i).None?
    ensures k < n ==> lockReply(k).Some?
    decreases n - from
  {
    if from == n then n
    else if lockReply(from).Some? then from
    else FirstLockFailure(n, lockReply, from + 1)
  }

  /** The first position at or after `from` whose `tryLock` did not answer
      true, or `n`. */
  function FirstProbeFailure<E>(n: nat, probe: nat -> Probe<E>, from: nat): (k: nat)
    requires from <= n
    ensures from <= k <= n
    ensures forall i :: from <= i < k ==> probe(i).Locked?
    ensures k < n ==> !probe(k).Locked?
    decreases n - from
  {
    if from == n then n
    else if !probe(from).Locked? then from
    else FirstProbeFailure(n, probe, from + 1)
  }

  /** Unlocks the sub-mutexes in `order`, one by one, stopping at the first
      that throws; that error is what the loop throws. */
  function ReleaseInOrder<E>(order: seq<nat>, unlockReply: nat -> Option<E>): (r: Release<E>)
    ensures |r.calls| <= |order|
    ensures r.error.None? ==> |r.calls| == |order|
    ensures r.error.Some? ==> |r.calls| >= 1
    decreases |order|
  {
    if order == [] then Release([], None)
    else if unlockReply(order[0]).Some? then Release([UnlockCall(order[0])], unlockReply(order[0]))
    else
      var rest := ReleaseInOrder(order[1..], unlockReply);
      Release([UnlockCall(order[0])] + rest.calls, rest.error)
  }

  /** The `lock` calls on the first `k` sub-mutexes, in list order. */
  function LockCalls(k: nat, timeout: Option<int>, elapsedNs: nat -> nat): (calls: seq<SubCall>)
    ensures |calls| == k
    ensures forall i :: 0 <= i < k ==> calls[i] == LockCall(i, TimeLeft(timeout, elapsedNs, i))
  {
    seq(k, i requires 0 <= i < k => LockCall(i, TimeLeft(timeout, elapsedNs, i)))
  }

  /** The `tryLock` calls on the first `k` sub-mutexes, in list order. */
  function TryLockCalls(k: nat): (calls: seq<SubCall>)
    ensures |calls| == k
    ensures forall i :: 0 <= i < k ==> calls[i] == TryLockCall(i)
  {
    seq(k, i requires 0 <= i < k => TryLockCall(i))
  }

  /** What `lock` does with `n` sub-mutexes: lock them in order; when the one
      at position `k` throws, release positions `k - 1` down to 0 and throw
      its error, or the error of a release that throws in turn. */
  function LockRun<E>(n: nat, timeout: Option<int>, lockReply: nat -> Option<E>,
                      unlockReply: nat -> Option<E>, elapsedNs: nat -> nat): (r: (seq<SubCall>, Option<E>))
    ensures |r.0| <= 2 * n
    ensures n == 0 ==> r == ([], None)
  {
    var k := FirstLockFailure(n, lockReply, 0);
    if k == n then (LockCalls(n, timeout, elapsedNs), None)
    else
      var rollback := ReleaseInOrder(Descending(k), unlockReply);
      (LockCalls(k + 1, timeout, elapsedNs) + rollback.calls,
       Some(if rollback.error.Some? then rollback.error.value else lockReply(k).value))
  }

  /** What `tryLock` does with `n` sub-mutexes: probe them in order, a thrown
      probe counting as false; at the first false, release the ones taken in
      reverse order and answer false, or throw when a release throws. */
  function TryLockRun<E>(n: nat, probe: nat -> Probe<E>, unlockReply: nat -> Option<E>): (r: (seq<SubCall>, Result<bool, E>))
    ensures |r.0| <= 2 * n
    ensures n == 0 ==> r == ([], Ok(true))
  {
    var k := FirstProbeFailure(n, probe, 0);
    if k == n then (TryLockCalls(n), Ok(true))
    else
      var rollback := ReleaseInOrder(Descending(k), unlockReply);
      (TryLockCalls(k + 1) + rollback.calls,
       if rollback.error.Some? then Err(rollback.error.value) else Ok(false))
  }

  /** A release loop calls `unlock` on a prefix of its order, one call per
      position; it runs to the end iff no release throws, and otherwise stops
      right after the first that throws, with that error. */
  lemma {:induction false} ReleaseShape<E>(order: seq<nat>, unlockReply: nat -> Option<E>)
    ensures var r := ReleaseInOrder(order, unlockReply);
      && |r.calls| <= |order|
      && (forall j :: 0 <= j < |r.calls| ==> r.calls[j] == UnlockCall(order[j]))
      && (r.error.None? <==> |r.calls| == |order| && forall j :: 0 <= j < |order| ==> unlockReply(order[j]).None?)
      && (r.error.Some? ==>
            && |r.calls| >= 1
            && r.error == unlockReply(order[|r.calls| - 1])
            && forall j :: 0 <= j < |r.calls| - 1 ==> unlockReply(order[j]).None?)
    decreases |order|
  {
    if order != [] && unlockReply(order[0]).None? {
      ReleaseShape(order[1..], unlockReply);
      var rest := ReleaseInOrder(order[1..], unlockReply);
      var r := ReleaseInOrder(order, unlockReply);
      assert r.calls == [UnlockCall(order[0])] + rest.calls;
      forall j | 0 <= j < |r.calls| ensures r.calls[j] == UnlockCall(order[j]) {
        if j > 0 {
          assert r.calls[j] == rest.calls[j - 1];
        }
      }
      if r.error.None? {
        forall j | 0 <= j < |order| ensures unlockReply(order[j]).None? {
          if j > 0 {
            assert order[j] == order[1..][j - 1];
          }
        }
      }
      if r.error.Some? {
        assert order[|r.calls| - 1] == order[1..][|rest.calls| - 1];
        forall j | 0 <= j < |r.calls| - 1 ensures unlockReply(order[j]).None? {
          if j > 0 {
            assert order[j] == order[1..][j - 1];
          }
        }
      }
    }
  }

  /** `lock` succeeds iff every sub-mutex's `lock` succeeds, and then it has
      called `lock` on every sub-mutex exactly once, in list order, and
      nothing else. */
  lemma LockSucceedsInOrder<E>(n: nat, timeout: Option<int>, lockReply: nat -> Option<E>,
                               unlockReply: nat -> Option<E>, elapsedNs: nat -> nat)
    ensures var (calls, error) := LockRun(n, timeout, lockReply, unlockReply, elapsedNs);
      && (error.None? <==> forall i :: 0 <= i < n ==> lockReply(i).None?)
      && (error.None? ==> |calls| == n && forall i :: 0 <= i < n ==> calls[i].LockCall? && calls[i].index == i)
  {
    var k := FirstLockFailure(n, lockReply, 0);
    if k < n {
      assert lockReply(k).Some?;
    }
  }

  /** When the sub-mutex at position `k` is the first whose `lock` throws:
      the calls are `lock` on 0..k, then `unlock` on k-1, k-2, ... in
      strictly descending order; no sub-mutex after `k` is ever called; and
      the error thrown is `k`'s own unless a release throws, in which case
      the release stops there and its error is thrown. */
  lemma {:induction false} LockFailureRollsBack<E>(n: nat, timeout: Option<int>, lockReply: nat -> Option<E>,
                                                   unlockReply: nat -> Option<E>, elapsedNs: nat -> nat, k: nat)
    requires k < n && lockReply(k).Some?
    requires forall i :: 0 <= i < k ==> lockReply(i).None?
    ensures var (calls, error) := LockRun(n, timeout, lockReply, unlockReply, elapsedNs);
      && error.Some?
      && |calls| >= k + 1
      && calls[..k + 1] == LockCalls(k + 1, timeout, elapsedNs)
      && (forall j :: k + 1 <= j < |calls| ==> calls[j].UnlockCall? && calls[j].index + j == 2 * k)
      && (forall j :: 0 <= j < |calls| ==> calls[j].index <= k)
      && (forall j :: k + 1 <= j < |calls| - 1 ==> calls[j].index > calls[j + 1].index)
      && ((forall i :: 0 <= i < k ==> unlockReply(i).None?) ==>
            |calls| == 2 * k + 1 && error == lockReply(k))
  {
    var kk := FirstLockFailure(n, lockReply, 0);
    assert kk == k;
    var rollback := ReleaseInOrder(Descending(k), unlockReply);
    ReleaseShape(Descending(k), unlockReply);
    var calls := LockCalls(k + 1, timeout, elapsedNs) + rollback.calls;
    assert calls[..k + 1] == LockCalls(k + 1, timeout, elapsedNs);
    forall j | k + 1 <= j < |calls| ensures calls[j].UnlockCall? && calls[j].index + j == 2 * k {
      assert calls[j] == rollback.calls[j - k - 1];
    }
  }

  /** `tryLock` answers true iff every probe answered true; a probe that
      throws counts as false. Then it has probed every sub-mutex once, in
      order. */
  lemma TryLockTrueIffAllProbesTrue<E>(n: nat, probe: nat -> Probe<E>, unlockReply: nat -> Option<E>)
    ensures var (calls, r) := TryLockRun(n, probe, unlockReply);
      && (r == Ok(true) <==> forall i :: 0 <= i < n ==> probe(i) == Locked)
      && (r == Ok(true) ==> calls == TryLockCalls(n))
  {
    var k := FirstProbeFailure(n, probe, 0);
    if k < n {
      assert !probe(k).Locked?;
    }
  }

  /** When probe `k` is the first that is not true (false or thrown):
      nothing after `k` is probed, the ones taken are released in reverse
      order, and the answer is false unless a release throws. */
  lemma {:induction false} TryLockFailureRollsBack<E>(n: nat, probe: nat -> Probe<E>, unlockReply: nat -> Option<E>, k: nat)
    requires k < n && !probe(k).Locked?
    requires forall i :: 0 <= i < k ==> probe(i).Locked?
    ensures var (calls, r) := TryLockRun(n, probe, unlockReply);
      && r != Ok(true)
      && calls[..k + 1] == TryLockCalls(k + 1)
      && (forall j :: k + 1 <= j < |calls| ==> calls[j].UnlockCall? && calls[j].index + j == 2 * k)
      && (r == Ok(false) <==> forall i :: 0 <= i < k ==> unlockReply(i).None?)
      && (r == Ok(false) ==> |calls| == 2 * k + 1)
  {
    var kk := FirstProbeFailure(n, probe, 0);
    assert kk == k;
    var rollback := ReleaseInOrder(Descending(k), unlockReply);
    ReleaseShape(Descending(k), unlockReply);
    var calls := TryLockCalls(k + 1) + rollback.calls;
    assert calls[..k + 1] == TryLockCalls(k + 1);
    forall j | k + 1 <= j < |calls| ensures calls[j].UnlockCall? && calls[j].index + j == 2 * k {
      assert calls[j] == rollback.calls[j - k - 1];
    }
    if rollback.error.None? {
      forall i | 0 <= i < k ensures unlockReply(i).None? {
        assert Descending(k)[k - 1 - i] == i;
      }
    } else {
      var m := |rollback.calls| - 1;
      assert unlockReply(Descending(k)[m]).Some?;
    }
  }

  /** With a caller's timeout, every later sub-mutex gets no more time than
      the caller gave, and with a monotonic clock each gets no more than the
      one before. */
  lemma BudgetShrinks(timeout: Option<int>, elapsedNs: nat -> nat, i: nat)
    requires timeout.Some? && timeout.value != 0
    requires i > 0 ==> elapsedNs(i - 1) <= elapsedNs(i)
    ensures TimeLeft(timeout, elapsedNs, i + 1).Some?
    ensures TimeLeft(timeout, elapsedNs, i + 1).value <= timeout.value
    ensures TimeLeft(timeout, elapsedNs, i + 1).value <= TimeLeft(timeout, elapsedNs, i).value
  {
  }

  class MultiMutex {
    /** The number of sub-mutexes. */
    const size: nat

    constructor (size: nat)
      ensures this.size == size
    {
      this.size := size;
    }

    /** `lock(id, options)`. `lockReply(i)` is what the `lock` of
        sub-mutex `i` throws, if anything; `unlockReply` likewise for
        `unlock`; `elapsedNs(i)` is the time since the start, read just after
        sub-mutex `i` was acquired. */
    method Lock<E>(options: Options, lockReply: nat -> Option<E>, unlockReply: nat -> Option<E>,
                   elapsedNs: nat -> nat) returns (calls: seq<SubCall>, error: Option<E>)
      ensures (calls, error) == LockRun(size, options.timeout, lockReply, unlockReply, elapsedNs)
    {
      var timeLeft := options.timeout;
      var lockedMutexes: seq<nat> := [];
      calls := [];
      for i := 0 to size
        invariant forall j :: 0 <= j < i ==> lockReply(j).None?
        invariant calls == LockCalls(i, options.timeout, elapsedNs)
        invariant lockedMutexes == Descending(i)
        invariant timeLeft == TimeLeft(options.timeout, elapsedNs, i)
      {
        calls := calls + [LockCall(i, timeLeft)];
        assert calls == LockCalls(i + 1, options.timeout, elapsedNs);
        var reply := lockReply(i);
        if reply.Some? {
          assert FirstLockFailure(size, lockReply, 0) == i;
          var rollback, rollbackError := ReleaseAll(lockedMutexes, unlockReply);
          calls := calls + rollback;
          error := if rollbackError.Some? then rollbackError else reply;
          return;
        }
        lockedMutexes := [i] + lockedMutexes;
        timeLeft := if options.timeout.Some? && options.timeout.value != 0
          then Some(options.timeout.value - HrTimeToMs(elapsedNs(i)))
          else None;
      }
      error := None;
    }

    /** `tryLock(id, options)`: `probe(i)` is what sub-mutex `i`'s `tryLock`
        answers. */
    method TryLock<E>(probe: nat -> Probe<E>, unlockReply: nat -> Option<E>)
      returns (calls: seq<SubCall>, r: Result<bool, E>)
      ensures (calls, r) == TryLockRun(size, probe, unlockReply)
    {
      var locked := true;
      var lockedMutexes: seq<nat> := [];
      calls := [];
      var i := 0;
      while i < size
        invariant 0 <= i <= size
        invariant locked
        invariant forall j :: 0 <= j < i ==> probe(j).Locked?
        invariant calls == TryLockCalls(i)
        invariant lockedMutexes == Descending(i)
      {
        calls := calls + [TryLockCall(i)];
        assert calls == TryLockCalls(i + 1);
        if probe(i).Locked? {
          lockedMutexes := [i] + lockedMutexes;
          i := i + 1;
          continue;
        }
        locked := false;
        assert FirstProbeFailure(size, probe, 0) == i;
        break;
      }
      if locked {
        return calls, Ok(true);
      }
      var rollback, rollbackError := ReleaseAll(lockedMutexes, unlockReply);
      calls := calls + rollback;
      r := if rollbackError.Some? then Err(rollbackError.value) else Ok(false);
    }

    /** `unlock(id)`: unlocks the sub-mutexes from the last to the first,
        stopping at the first that throws. */
    method Unlock<E>(unlockReply: nat -> Option<E>) returns (calls: seq<SubCall>, error: Option<E>)
      ensures Release(calls, error) == ReleaseInOrder(Descending(size), unlockReply)
    {
      calls := [];
      var i := size as int - 1;
      while i >= 0
        invariant -1 <= i < size
        invariant ReleaseInOrder(Descending(size), unlockReply)
               == var rest := ReleaseInOrder(Descending(i + 1), unlockReply);
                  Release(calls + rest.calls, rest.error)
      {
        assert Descending(i + 1)[1..] == Descending(i);
        calls := calls + [UnlockCall(i)];
        var reply := unlockReply(i);
        if reply.Some? {
          return calls, reply;
        }
        i := i - 1;
      }
      error := None;
    }

    /** The loop `for (const m of lockedMutexes) await m.unlock(id)`. */
    static method ReleaseAll<E>(order: seq<nat>, unlockReply: nat -> Option<E>)
      returns (calls: seq<SubCall>, error: Option<E>)
      ensures Release(calls, error) == ReleaseInOrder(order, unlockReply)
    {
      calls := [];
      for j := 0 to |order|
        invariant ReleaseInOrder(order, unlockReply)
               == var rest := ReleaseInOrder(order[j..], unlockReply);
                  Release(calls + rest.calls, rest.error)
      {
        assert order[j..][1..] == order[j + 1..];
        calls := calls + [UnlockCall(order[j])];
        var reply := unlockReply(order[j]);
        if reply.Some? {
          return calls, reply;
        }
      }
      assert order[|order|..] == [];
      error := None;
    }
  }
}
