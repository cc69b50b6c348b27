/** packages/process-queue/src/partitioned.ts: `numberOfPartitions`
    independent queues, keyed 0 .. numberOfPartitions - 1, and a partitioner
    that sends each task to the queue whose key is the partitioner's value
    modulo the number of partitions. Every partition here is a sequential
    queue built with the same `autoStart` option. */
module PartitionedQueues {
  import opened Wrappers
  import opened ExposedPromises
  import opened QueueItems
  import opened SequentialQueues

  /** `queues.get(...)` found no queue, so `.push` is called on `undefined`
      and throws. */
  datatype PushError = TypeError

  function Abs(n: int): (a: int)
    ensures a >= 0 && (a == n || a == -n)
  {
    if n < 0 then -n else n
  }

  /** JavaScript's division of integers followed by `Math.trunc`: the
      quotient rounded toward zero. */
  function TruncatedQuotient(a: int, n: int): int
    requires n != 0
  {
    var q := if a >= 0 then a / Abs(n) else -((-a) / Abs(n));
    if n > 0 then q else -q
  }

  /** JavaScript's `a % n` on integers: what is left of `a` after taking
      away the quotient rounded toward zero, so it has the sign of `a` and
      is smaller than `|n|`. (With `n == 0` JavaScript gives NaN, which
      `Partition` handles.) */
  function JsRemainder(a: int, n: int): (r: int)
    requires n != 0
    ensures a == TruncatedQuotient(a, n) * n + r
    ensures 0 <= a ==> 0 <= r < Abs(n)
    ensures a < 0 ==> -Abs(n) < r <= 0
  {
    var m := Abs(n);
    var r := if a >= 0 then a % m else -((-a) % m);
    assert a >= 0 ==> a == (a / m) * m + r;
    assert a < 0 ==> -a == ((-a) / m) * m - r;
    r
  }

  /** A non-zero multiple of `m` is at least `m` away from zero. */
  lemma {:induction false} MultiplesAreSpread(x: int, m: int)
    requires m > 0 && x != 0
    ensures x * m >= m || x * m <= -m
    decreases if x > 0 then x else -x
  {
    if x > 1 {
      MultiplesAreSpread(x - 1, m);
      assert x * m == (x - 1) * m + m;
    } else if x < -1 {
      MultiplesAreSpread(x + 1, m);
      assert x * m == (x + 1) * m - m;
    }
  }

  /** The contract of `JsRemainder` pins it down: a value with the sign of
      `a`, smaller than `|n|`, that `a` exceeds by a multiple of `n`, is
      `JsRemainder(a, n)`, and the multiple is the truncated quotient. */
  lemma JsRemainderUnique(a: int, n: int, q': int, r': int)
    requires n != 0
    requires a == q' * n + r'
    requires 0 <= a ==> 0 <= r' < Abs(n)
    requires a < 0 ==> -Abs(n) < r' <= 0
    ensures r' == JsRemainder(a, n) && q' == TruncatedQuotient(a, n)
  {
    var q, r := TruncatedQuotient(a, n), JsRemainder(a, n);
    var m := Abs(n);
    var d := if n > 0 then q - q' else q' - q;
    assert d * m == r' - r by {
      assert q * n + r == q' * n + r';
      assert (q - q') * n == q * n - q' * n;
      assert (q' - q) * (-n) == (q - q') * n;
    }
    if d != 0 {
      MultiplesAreSpread(d, m);
    }
  }

  /** The key of the queue a task with partitioner value `key` goes to, or
      None when `queues.get` finds nothing: there are no queues at all
      (`numberOfPartitions <= 0`; with 0 the remainder is NaN), or the
      remainder is negative. A remainder of -0 finds queue 0, since a `Map`
      compares keys so that -0 equals 0. */
  function Partition(key: int, numberOfPartitions: int): (p: Option<nat>)
    ensures p.Some? <==> numberOfPartitions > 0 && JsRemainder(key, numberOfPartitions) >= 0
    ensures p.Some? ==> p.value < numberOfPartitions && p.value == JsRemainder(key, numberOfPartitions)
  {
    if numberOfPartitions <= 0 then None
    else
      var r := JsRemainder(key, numberOfPartitions);
      if r >= 0 then Some(r) else None
  }

  /** A non-negative partitioner value always finds a queue, and the one it
      finds is its Euclidean remainder. */
  lemma NonNegativeKeysAreRouted(key: int, n: int)
    requires n > 0 && key >= 0
    ensures Partition(key, n) == Some(key % n)
  {
  }

  /** A negative partitioner value finds a queue exactly when it is a
      multiple of the number of partitions, and then it is queue 0. */
  lemma NegativeKeysRoutedOnlyWhenMultiple(key: int, n: int)
    requires n > 0 && key < 0
    ensures Partition(key, n).Some? <==> key % n == 0
    ensures Partition(key, n).Some? ==> Partition(key, n) == Some(0)
  {
    if key % n == 0 {
      JsRemainderUnique(key, n, key / n, 0);
    } else if JsRemainder(key, n) == 0 {
      var q, e := TruncatedQuotient(key, n), key / n;
      assert (q - e) * n == key % n by {
        assert key == q * n && key == e * n + key % n;
        assert (q - e) * n == q * n - e * n;
      }
      MultiplesAreSpread(q - e, n);
    }
  }

  /** Routing repeats with period `n` on the non-negative values. */
  lemma RoutingIsPeriodic(key: int, n: int)
    requires n > 0 && key >= 0
    ensures Partition(key + n, n) == Partition(key, n)
  {
    JsRemainderUnique(key + n, n, TruncatedQuotient(key, n) + 1, JsRemainder(key, n));
  }

  /** With one partition every value, negative ones included, goes to
      queue 0. */
  lemma SinglePartitionTakesEverything(key: int)
    ensures Partition(key, 1) == Some(0)
  {
    JsRemainderUnique(key, 1, key, 0);
  }

  class PartitionedProcessQueue<T> {
    /** The map from key to queue: queue `i` is `queues[i]`. */
    const queues: seq<SequentialProcessQueue<T>>
    const partitioner: T -> int
    const numberOfPartitions: int

    /** One queue per key below `numberOfPartitions`, no queue shared
        between keys, every queue valid. */
    ghost predicate Valid()
      reads this, queues
    {
      && |queues| == (if numberOfPartitions > 0 then numberOfPartitions else 0)
      && (forall i, j :: 0 <= i < j < |queues| ==> queues[i] != queues[j])
      && (forall i :: 0 <= i < |queues| ==> queues[i].Valid())
    }

    /** The constructor calls the factory once per key from 0 up to
        `numberOfPartitions` (none when that is not positive); here the
        factory makes an empty sequential queue. */
    constructor (autoStart: Option<bool>, partitioner: T -> int, numberOfPartitions: int)
      ensures Valid()
      ensures this.partitioner == partitioner && this.numberOfPartitions == numberOfPartitions
      ensures forall i :: 0 <= i < |queues| ==>
        && fresh(queues[i]) && queues[i].tasks == []
        && queues[i].running == OrDefault(autoStart, DefaultAutoStart)
        && !queues[i].processing && queues[i].pendingTicks == 0
    {
      var qs: seq<SequentialProcessQueue<T>> := [];
      var i := 0;
      while i < numberOfPartitions
        invariant 0 <= i == |qs|
        invariant numberOfPartitions > 0 ==> i <= numberOfPartitions
        invariant numberOfPartitions <= 0 ==> i == 0
        invariant forall a, b :: 0 <= a < b < |qs| ==> qs[a] != qs[b]
        invariant forall k :: 0 <= k < |qs| ==>
          && fresh(qs[k]) && qs[k].Valid() && qs[k].tasks == []
          && qs[k].running == OrDefault(autoStart, DefaultAutoStart)
          && !qs[k].processing && qs[k].pendingTicks == 0
      {
        var q := new SequentialProcessQueue<T>(autoStart);
        qs := qs + [q];
        i := i + 1;
      }
      queues := qs;
      this.partitioner := partitioner;
      this.numberOfPartitions := numberOfPartitions;
    }

    /** `push(task)`: the queue under the task's partition key takes the
        task exactly as its own `push` does, and no other queue changes;
        without such a queue the call throws a TypeError. */
    method Push(task: T) returns (r: Result<ExposedPromise<T, Reason>, PushError>)
      requires Valid()
      modifies if Partition(partitioner(task), numberOfPartitions).Some?
        then {queues[Partition(partitioner(task), numberOfPartitions).value]} else {}
      ensures Valid()
      ensures Partition(partitioner(task), numberOfPartitions).None? ==> r == Err(TypeError)
      ensures Partition(partitioner(task), numberOfPartitions).Some? ==>
        var q := queues[Partition(partitioner(task), numberOfPartitions).value];
        && r.Ok? && fresh(r.value) && r.value.state == Unsettled
        && |q.tasks| == old(|q.tasks|) + 1 && q.tasks[..old(|q.tasks|)] == old(q.tasks)
        && fresh(q.tasks[|q.tasks| - 1]) && q.tasks[|q.tasks| - 1].task == task
        && q.tasks[|q.tasks| - 1].tries == 0 && q.tasks[|q.tasks| - 1].result == r.value
        && (old(q.tasks) == [] && q.running ==> q.pendingTicks == old(q.pendingTicks) + 1 && q.timerLive)
        && (!(old(q.tasks) == [] && q.running) ==>
              q.pendingTicks == old(q.pendingTicks) && q.timerLive == old(q.timerLive))
        && q.running == old(q.running) && q.processing == old(q.processing) && q.nextTick == old(q.nextTick)
        && q.inFlight == old(q.inFlight) && q.hooks == old(q.hooks) && q.invoked == old(q.invoked)
    {
      var p := Partition(partitioner(task), numberOfPartitions);
      if p.None? {
        return Err(TypeError);
      }
      var result := queues[p.value].Push(task);
      r := Ok(result);
    }

    /** `start()`: starts every queue, in key order. */
    method Start()
      requires Valid()
      modifies queues
      ensures Valid()
      ensures forall i :: 0 <= i < |queues| ==> queues[i].StartStep()
    {
      var i := 0;
      while i < |queues|
        invariant 0 <= i <= |queues|
        invariant Valid()
        invariant forall k :: 0 <= k < i ==> queues[k].StartStep()
        invariant forall k :: i <= k < |queues| ==> unchanged(queues[k])
      {
        queues[i].Start();
        i := i + 1;
      }
    }

    /** `stop()`: stops every queue, in key order; the promise it returns
        settles once all of theirs have, so the result lists theirs. */
    method Stop() returns (rs: seq<StopResult>)
      requires Valid()
      modifies queues
      ensures Valid()
      ensures |rs| == |queues|
      ensures forall i :: 0 <= i < |queues| ==>
        && queues[i].StopStep()
        && (!queues[i].processing ==> rs[i] == StoppedNow)
        && (queues[i].processing ==>
              rs[i].StopWaits? && fresh(rs[i].done) && rs[i].done.state == Unsettled
              && queues[i].nextTick == Some(rs[i].done))
    {
      rs := [];
      var i := 0;
      while i < |queues|
        invariant 0 <= i <= |queues| && |rs| == i
        invariant Valid()
        invariant forall k :: 0 <= k < i ==>
          && queues[k].StopStep()
          && (!queues[k].processing ==> rs[k] == StoppedNow)
          && (queues[k].processing ==>
                rs[k].StopWaits? && fresh(rs[k].done) && rs[k].done.state == Unsettled
                && queues[k].nextTick == Some(rs[k].done))
        invariant forall k :: i <= k < |queues| ==> unchanged(queues[k])
      {
        var r := queues[i].Stop();
        rs := rs + [r];
        i := i + 1;
      }
    }

    /** `purge()`: purges every queue, in key order. Each queue's purge
        stops it now and empties it when its own stop has settled
        (`SequentialProcessQueue.PurgeAfterStop`); the result lists what
        each of those stops waits on. */
    method Purge() returns (rs: seq<StopResult>)
      requires Valid()
      modifies queues
      ensures Valid()
      ensures |rs| == |queues|
      ensures forall i :: 0 <= i < |queues| ==>
        && queues[i].StopStep()
        && (!queues[i].processing ==> rs[i] == StoppedNow)
        && (queues[i].processing ==>
              rs[i].StopWaits? && fresh(rs[i].done) && rs[i].done.state == Unsettled
              && queues[i].nextTick == Some(rs[i].done))
    {
      rs := [];
      var i := 0;
      while i < |queues|
        invariant 0 <= i <= |queues| && |rs| == i
        invariant Valid()
        invariant forall k :: 0 <= k < i ==>
          && queues[k].StopStep()
          && (!queues[k].processing ==> rs[k] == StoppedNow)
          && (queues[k].processing ==>
                rs[k].StopWaits? && fresh(rs[k].done) && rs[k].done.state == Unsettled
                && queues[k].nextTick == Some(rs[k].done))
        invariant forall k :: i <= k < |queues| ==> unchanged(queues[k])
      {
        var r := queues[i].Purge();
        rs := rs + [r];
        i := i + 1;
      }
    }
  }

  /** Two partitions and the identity partitioner: 3 goes to queue 1, 4 to
      queue 0, -2 (remainder -0) to queue 0, and -3 (remainder -1) finds no
      queue and throws. */
  method RoutingScenario() returns (sizes: seq<nat>, rejected: bool)
    ensures sizes == [2, 1]
    ensures rejected
  {
    var q := new PartitionedProcessQueue<int>(Some(false), x => x, 2);
    var a := q.Push(3);
    var b := q.Push(4);
    var c := q.Push(-2);
    var d := q.Push(-3);
    sizes := [|q.queues[0].tasks|, |q.queues[1].tasks|];
    rejected := d == Err(TypeError);
  }
}
