/** packages/process-queue/src/concurrent.ts: a backlog whose tasks are
    processed up to `maxProcessing` at a time. At most one `setImmediate`
    callback is queued at any time (`timer`); when it runs it starts the
    first item that is not in flight and queues the next callback if there
    is room. A wait group counts the `handleProcessorResult` calls that have
    not finished, for `stop` to wait on.

    The asynchronous continuations are environment steps, as for the
    sequential queue: `TickFired`, `ProcessorSettled` (for in-flight call
    `j`), `HookReturned` (for suspended call `k`), `SkipCurrentTask` and
    `PurgeAfterStop`.

    `stop` cancels a queued callback but leaves `timer` holding its handle
    (`Cancelled`), and only a callback that runs resets it; so once a
    callback is cancelled no callback is ever queued again, by `start`,
    `push` or a finished task. Every step below keeps `Cancelled`. */
module ConcurrentQueues {
  import opened Wrappers
  import opened ExposedPromises
  import opened WaitGroups
  import opened QueueItems

  /** The `timer` field: `false`, the handle of the queued callback, or
      the handle of a callback `stop` cancelled. */
  datatype Timer = Idle | Armed | Cancelled

  /** A `handleProcessorResult` call suspended at an `await`: on `onError`
      for the item with a reason, on `onFinish` for the item, or on
      `onDrained`. */
  datatype Hook<T> = AfterError(item: StackItem<T>, reason: Reason) | AfterFinish(item: StackItem<T>) | AfterDrained

  /** What `stop` returns: an already-resolved promise, or the wait group's
      waiter. */
  datatype StopResult = StoppedNow | StopWaits(waiter: WaitGroups.Waiter)

  /** The `processing` flags of a list of items. */
  function Flags<T>(items: seq<StackItem<T>>): (flags: seq<bool>)
    reads set i | i in items
    ensures |flags| == |items|
    ensures forall i :: 0 <= i < |items| ==> flags[i] == items[i].processing
  {
    if items == [] then [] else [items[0].processing] + Flags(items[1..])
  }

  /** `stack.find(i => i.processing !== true)`, as a position: the first
      flag that is false, or the length when all are set. */
  function FirstIdle(flags: seq<bool>): (k: nat)
    ensures k <= |flags|
    ensures forall i :: 0 <= i < k ==> flags[i]
    ensures k < |flags| ==> !flags[k]
  {
    if flags == [] then 0
    else if !flags[0] then 0
    else 1 + FirstIdle(flags[1..])
  }

  class ConcurrentProcessQueue<T> {
    var stack: seq<StackItem<T>>
    var running: bool
    var processing: int
    var timer: Timer
    const maxProcessing: int
    const waitGroup: WaitGroup
    /** The items whose processor call has not settled, in start order. */
    var inFlight: seq<StackItem<T>>
    var hooks: seq<Hook<T>>
    /** `handleProcessorResult` calls ended by a throwing hook: they never
        reach `waitGroup.done()`. */
    ghost var abandoned: nat
    /** The tasks handed to the processor, in call order. */
    var invoked: seq<T>

    /** The queue's invariant:
        - the stack and the in-flight list hold distinct items;
        - `processing` counts the in-flight calls, and each in-flight item,
          and no other item of the stack, is marked processing;
        - a queued callback means the queue runs and has room, so the
          in-flight count never exceeds `maxProcessing`;
        - the wait group counts every `handleProcessorResult` not finished:
          in flight, suspended at a hook, or abandoned. */
    ghost predicate Valid()
      reads this, waitGroup, set i | i in stack, set i | i in inFlight
    {
      && ItemsValid()
      && waitGroup.counter == |inFlight| + |hooks| + abandoned
    }

    /** The part of `Valid` that does not involve the wait group. */
    ghost predicate ItemsValid()
      reads this, set i | i in stack, set i | i in inFlight
    {
      && (forall i, j :: 0 <= i < j < |stack| ==> stack[i] != stack[j])
      && (forall i, j :: 0 <= i < j < |inFlight| ==> inFlight[i] != inFlight[j])
      && processing == |inFlight|
      && (forall i :: 0 <= i < |inFlight| ==> inFlight[i].processing)
      && (forall i :: 0 <= i < |stack| && stack[i].processing ==> stack[i] in inFlight)
      && (timer == Armed ==> running && processing < maxProcessing)
      && (processing == 0 || processing <= maxProcessing)
    }

    constructor (maxProcessing: Option<int>, autoStart: Option<bool>)
      ensures Valid() && fresh(waitGroup) && waitGroup.waiters == []
      ensures this.maxProcessing == OrDefault(maxProcessing, DefaultMaxProcessing)
      ensures running == OrDefault(autoStart, DefaultAutoStart)
      ensures stack == [] && processing == 0 && timer == Idle
      ensures inFlight == [] && hooks == [] && invoked == []
    {
      stack := [];
      running := OrDefault(autoStart, DefaultAutoStart);
      processing := 0;
      timer := Idle;
      this.maxProcessing := OrDefault(maxProcessing, DefaultMaxProcessing);
      waitGroup := new WaitGroup();
      inFlight := [];
      hooks := [];
      abandoned := 0;
      invoked := [];
    }

    /** `scheduleNextTask()`: queues a callback only when the queue runs, no
        callback is queued or cancelled, and fewer than `maxProcessing`
        calls are in flight. */
    method ScheduleNextTask()
      modifies this
      ensures abandoned == old(abandoned)
      ensures timer == if running && old(timer) == Idle && processing < maxProcessing then Armed else old(timer)
      ensures stack == old(stack) && running == old(running) && processing == old(processing)
      ensures inFlight == old(inFlight) && hooks == old(hooks) && invoked == old(invoked)
    {
      if running && timer == Idle && processing < maxProcessing {
        timer := Armed;
      }
    }

    /** `push(task)`: appends a new item with no tries at the tail and tries
        to schedule only when the stack was empty and the queue runs. */
    method Push(task: T) returns (result: ExposedPromise<T, Reason>)
      requires Valid()
      modifies this
      ensures Valid()
      ensures |stack| == old(|stack|) + 1 && stack[..old(|stack|)] == old(stack)
      ensures fresh(stack[|stack| - 1]) && stack[|stack| - 1].task == task && stack[|stack| - 1].tries == 0
      ensures stack[|stack| - 1].result == result && fresh(result) && result.state == Unsettled
      ensures old(stack) == [] && running && old(timer) == Idle && processing < maxProcessing ==> timer == Armed
      ensures !(old(stack) == [] && running && old(timer) == Idle && processing < maxProcessing) ==> timer == old(timer)
      ensures running == old(running) && processing == old(processing)
      ensures inFlight == old(inFlight) && hooks == old(hooks) && invoked == old(invoked)
    {
      var item := new StackItem<T>(task);
      stack := stack + [item];
      result := item.result;
      if |stack| == 1 && running {
        ScheduleNextTask();
      }
    }

    /** `start()`: no effect on a running queue; otherwise sets it running
        and tries to schedule. */
    method Start()
      requires Valid()
      modifies this
      ensures Valid()
      ensures running
      ensures old(running) ==> timer == old(timer)
      ensures !old(running) ==> timer == if old(timer) == Idle && processing < maxProcessing then Armed else old(timer)
      ensures stack == old(stack) && processing == old(processing)
      ensures inFlight == old(inFlight) && hooks == old(hooks) && invoked == old(invoked)
    {
      if running {
        return;
      }
      running := true;
      ScheduleNextTask();
    }

    /** `stop()`: clears the running flag and cancels a queued callback,
        leaving its handle in `timer`. With nothing in flight it resolves at
        once; otherwise it waits on the wait group, whose counter is then
        positive, so a new waiter is registered. */
    method Stop() returns (r: StopResult)
      requires Valid()
      modifies this, waitGroup
      ensures Valid()
      ensures !running
      ensures timer == if old(timer) == Armed then Cancelled else old(timer)
      ensures processing == 0 ==> r == StoppedNow && waitGroup.waiters == old(waitGroup.waiters)
      ensures processing != 0 ==>
        && r.StopWaits? && fresh(r.waiter) && r.waiter.state == Unsettled
        && waitGroup.waiters == old(waitGroup.waiters) + [r.waiter]
      ensures waitGroup.counter == old(waitGroup.counter)
      ensures stack == old(stack) && processing == old(processing)
      ensures inFlight == old(inFlight) && hooks == old(hooks) && invoked == old(invoked)
    {
      running := false;
      if timer == Armed {
        timer := Cancelled;
      }
      if processing == 0 {
        return StoppedNow;
      }
      var w := waitGroup.Wait(-1);
      r := StopWaits(w.waiter);
    }

    /** `purge()` up to its `await`: it is `stop()`. */
    method Purge() returns (r: StopResult)
      requires Valid()
      modifies this, waitGroup
      ensures Valid()
      ensures !running
      ensures timer == if old(timer) == Armed then Cancelled else old(timer)
      ensures processing == 0 ==> r == StoppedNow && waitGroup.waiters == old(waitGroup.waiters)
      ensures processing != 0 ==>
        && r.StopWaits? && fresh(r.waiter) && r.waiter.state == Unsettled
        && waitGroup.waiters == old(waitGroup.waiters) + [r.waiter]
      ensures waitGroup.counter == old(waitGroup.counter)
      ensures stack == old(stack) && processing == old(processing)
      ensures inFlight == old(inFlight) && hooks == old(hooks) && invoked == old(invoked)
    {
      r := Stop();
    }

    /** The rest of `purge()`: the stack is emptied (in-flight calls go on). */
    method PurgeAfterStop()
      requires Valid()
      modifies this
      ensures Valid()
      ensures stack == []
      ensures running == old(running) && processing == old(processing) && timer == old(timer)
      ensures inFlight == old(inFlight) && hooks == old(hooks) && invoked == old(invoked)
    {
      stack := [];
    }

    /** `processNextTask()`, run by the queued callback: resets `timer`,
        then starts the first item not in flight, if there is one: the wait
        group and `processing` go up by one, the item is marked, its tries
        go up by one, it is handed to the processor, and the next callback
        is scheduled if there is room. Items in flight are never started
        twice, and no other item changes. */
    method TickFired() returns (ghost k: nat)
      requires Valid() && timer == Armed
      modifies this, waitGroup
      modifies if FirstIdle(Flags(stack)) < |stack| then {stack[FirstIdle(Flags(stack))]} else {}
      ensures Valid()
      ensures k == FirstIdle(old(Flags(stack)))
      ensures stack == old(stack) && running == old(running) && hooks == old(hooks)
      ensures k == |stack| ==>
        && timer == Idle && processing == old(processing) && inFlight == old(inFlight)
        && invoked == old(invoked) && waitGroup.counter == old(waitGroup.counter)
      ensures k < |stack| ==>
        && stack[k].processing && stack[k].tries == old(stack[k].tries) + 1
        && inFlight == old(inFlight) + [stack[k]] && processing == old(processing) + 1
        && invoked == old(invoked) + [stack[k].task]
        && waitGroup.counter == old(waitGroup.counter) + 1
        && timer == if running && processing < maxProcessing then Armed else Idle
      ensures waitGroup.waiters == old(waitGroup.waiters)
    {
      assert processing < maxProcessing;
      timer := Idle;
      var idle := FirstIdle(Flags(stack));
      k := idle;
      if idle < |stack| {
        Begin(stack[idle]);
        ScheduleNextTask();
      }
    }

    /** The body of `processNextTask` once `next` is found. */
    method Begin(next: StackItem<T>)
      requires Valid() && next in stack && !next.processing && timer == Idle && processing < maxProcessing
      modifies this, waitGroup, next
      ensures Valid()
      ensures next.processing && next.tries == old(next.tries) + 1
      ensures inFlight == old(inFlight) + [next] && processing == old(processing) + 1
      ensures invoked == old(invoked) + [next.task]
      ensures waitGroup.counter == old(waitGroup.counter) + 1 && waitGroup.waiters == old(waitGroup.waiters)
      ensures stack == old(stack) && running == old(running) && hooks == old(hooks) && timer == Idle
    {
      assert next !in inFlight;
      waitGroup.Add(1);
      next.processing := true;
      processing := processing + 1;
      next.tries := next.tries + 1;
      invoked := invoked + [next.task];
      inFlight := inFlight + [next];
    }

    /** In-flight call `j` settles, with `err` undefined on fulfilment or
        the rejection reason, and `handleProcessorResult` runs to its hook:
        the count goes down and the item is unmarked; a truthy `err` keeps
        the stack as it is and calls `onError`; anything else (a falsy
        rejection reason included) removes that item, and only it, from the
        stack and calls `onFinish`. */
    method ProcessorSettled(j: nat, err: Reason) returns (s: Settlement<T>)
      requires Valid() && j < |inFlight|
      modifies this, inFlight[j]
      ensures Valid()
      ensures inFlight == old(inFlight[..j] + inFlight[j + 1..]) && processing == old(processing) - 1
      ensures !old(inFlight[j]).processing && old(inFlight[j]).tries == old(inFlight[j].tries)
      ensures Truthy(err) ==>
        && s == ErrorReported(old(inFlight[j].task), err, old(inFlight[j].tries))
        && stack == old(stack)
        && hooks == old(hooks) + [AfterError(old(inFlight[j]), err)]
      ensures !Truthy(err) ==>
        && s == Finished(old(inFlight[j].task))
        && stack == Without(old(stack), old(inFlight[j]))
        && hooks == old(hooks) + [AfterFinish(old(inFlight[j]))]
      ensures running == old(running) && timer == old(timer) && invoked == old(invoked)
    {
      var item := Unmark(j);
      if Truthy(err) {
        hooks := hooks + [AfterError(item, err)];
        s := ErrorReported(item.task, err, item.tries);
      } else {
        hooks := hooks + [AfterFinish(item)];
        SkipCurrentTask(item);
        s := Finished(item.task);
      }
    }

    /** The first steps of `handleProcessorResult`: in-flight call `j` is
        taken out of the count and its item unmarked; the call it stands for
        is then not yet suspended at a hook. */
    method Unmark(j: nat) returns (item: StackItem<T>)
      requires Valid() && j < |inFlight|
      modifies this, inFlight[j]
      ensures ItemsValid() && waitGroup.counter == |inFlight| + |hooks| + abandoned + 1
      ensures item == old(inFlight[j]) && !item.processing && item.tries == old(item.tries)
      ensures inFlight == old(inFlight[..j] + inFlight[j + 1..]) && processing == old(processing) - 1
      ensures stack == old(stack) && hooks == old(hooks) && abandoned == old(abandoned)
      ensures running == old(running) && timer == old(timer) && invoked == old(invoked)
    {
      item := inFlight[j];
      inFlight := inFlight[..j] + inFlight[j + 1..];
      processing := processing - 1;
      item.processing := false;
    }

    /** `skipCurrentTask` as bound for `item`: removes that item, and only
        it, from the stack. */
    method SkipCurrentTask(item: StackItem<T>)
      requires Valid()
      modifies this
      ensures Valid()
      ensures stack == Without(old(stack), item)
      ensures running == old(running) && processing == old(processing) && timer == old(timer)
      ensures inFlight == old(inFlight) && hooks == old(hooks) && invoked == old(invoked)
    {
      WithoutDistinct(stack, item);
      stack := Without(stack, item);
      assert forall i :: 0 <= i < |stack| ==> stack[i] in old(stack);
    }

    /** The hook awaited by suspended call `k` returns (or throws, when
        `threw`, which ends that call: it never reaches `waitGroup.done()`).
        After `onError` the item's promise is rejected with the reason, after
        `onFinish` it is fulfilled with its task; then, with an empty stack,
        the call awaits `onDrained` (`drained`); otherwise it schedules if
        the queue runs, and marks itself done on the wait group. After
        `onDrained` it marks itself done. */
    method HookReturned(k: nat, threw: bool) returns (drained: bool)
      requires Valid() && k < |hooks|
      modifies this, waitGroup, waitGroup.waiters
      modifies if hooks[k].AfterDrained? then {} else {hooks[k].item.result}
      ensures Valid()
      ensures stack == old(stack) && running == old(running) && processing == old(processing)
      ensures inFlight == old(inFlight) && invoked == old(invoked)
      ensures old(timer) != Idle ==> timer == old(timer)
      ensures threw ==>
        && !drained && hooks == old(hooks[..k] + hooks[k + 1..])
        && waitGroup.counter == old(waitGroup.counter) && waitGroup.waiters == old(waitGroup.waiters)
        && (!old(hooks[k]).AfterDrained? ==> unchanged(old(hooks[k].item.result)))
      ensures threw || drained ==> forall w :: w in old(waitGroup.waiters) ==> w.state == old(w.state)
      ensures !threw && old(hooks[k]).AfterError? ==>
        old(hooks[k].item.result).state == Apply(old(hooks[k].item.result.state), Settle.Reject(old(hooks[k].reason)))
      ensures !threw && old(hooks[k]).AfterFinish? ==>
        old(hooks[k].item.result).state == Apply(old(hooks[k].item.result.state), Settle.Resolve(old(hooks[k].item.task)))
      ensures !threw && !old(hooks[k]).AfterDrained? ==> (drained <==> stack == [])
      ensures !threw && old(hooks[k]).AfterDrained? ==> !drained
      ensures threw ==> timer == old(timer)
      ensures !threw && !drained && !old(hooks[k]).AfterDrained? ==>
        timer == if running && old(timer) == Idle && processing < maxProcessing then Armed else old(timer)
      ensures !threw && (drained || old(hooks[k]).AfterDrained?) ==> timer == old(timer)
      ensures !threw && drained ==>
        && hooks == old(hooks[..k] + hooks[k + 1..]) + [AfterDrained]
        && waitGroup.counter == old(waitGroup.counter) && waitGroup.waiters == old(waitGroup.waiters)
      ensures !threw && !drained ==>
        && hooks == old(hooks[..k] + hooks[k + 1..])
        && waitGroup.counter == old(waitGroup.counter) - 1
        && (old(waitGroup.counter) == 1 ==> waitGroup.waiters == [])
        && (old(waitGroup.counter) != 1 ==> waitGroup.waiters == old(waitGroup.waiters))
      ensures !threw && !drained ==> forall w :: w in old(waitGroup.waiters) ==>
        w.state == if old(waitGroup.counter) == 1 then Apply(old(w.state), Settle.Resolve(())) else old(w.state)
    {
      var h := hooks[k];
      hooks := hooks[..k] + hooks[k + 1..];
      if threw {
        abandoned := abandoned + 1;
        return false;
      }
      SettleResult(h);
      drained := Resume(h.AfterDrained?);
    }

    /** The rest of `handleProcessorResult` once its hook `h` has returned
        (`afterDrained` when that hook was `onDrained`); the call is no
        longer counted among the suspended ones. */
    method Resume(afterDrained: bool) returns (drained: bool)
      requires ItemsValid() && waitGroup.counter == |inFlight| + |hooks| + abandoned + 1
      modifies this, waitGroup, waitGroup.waiters
      ensures Valid()
      ensures stack == old(stack) && running == old(running) && processing == old(processing)
      ensures inFlight == old(inFlight) && invoked == old(invoked)
      ensures old(timer) != Idle ==> timer == old(timer)
      ensures drained <==> !afterDrained && stack == []
      ensures !drained && !afterDrained ==>
        timer == if running && old(timer) == Idle && processing < maxProcessing then Armed else old(timer)
      ensures drained || afterDrained ==> timer == old(timer)
      ensures drained ==>
        && hooks == old(hooks) + [AfterDrained]
        && waitGroup.counter == old(waitGroup.counter) && waitGroup.waiters == old(waitGroup.waiters)
        && (forall w :: w in old(waitGroup.waiters) ==> w.state == old(w.state))
      ensures !drained ==>
        && hooks == old(hooks)
        && waitGroup.counter == old(waitGroup.counter) - 1
        && (old(waitGroup.counter) == 1 ==> waitGroup.waiters == [])
        && (old(waitGroup.counter) != 1 ==> waitGroup.waiters == old(waitGroup.waiters))
      ensures !drained ==> forall w :: w in old(waitGroup.waiters) ==>
        w.state == if old(waitGroup.counter) == 1 then Apply(old(w.state), Settle.Resolve(())) else old(w.state)
    {
      if !afterDrained && stack == [] {
        hooks := hooks + [AfterDrained];
        return true;
      }
      if !afterDrained && running {
        ScheduleNextTask();
      }
      MarkDone();
      drained := false;
    }

    /** `reject(err)` after `onError`, `resolve(task)` after `onFinish`. */
    static method SettleResult(h: Hook<T>)
      modifies if h.AfterDrained? then {} else {h.item.result}
      ensures h.AfterError? ==> h.item.result.state == Apply(old(h.item.result.state), Settle.Reject(h.reason))
      ensures h.AfterFinish? ==> h.item.result.state == Apply(old(h.item.result.state), Settle.Resolve(h.item.task))
    {
      if h.AfterError? {
        h.item.result.Reject(h.reason);
      } else if h.AfterFinish? {
        h.item.result.Resolve(h.item.task);
      }
    }

    /** `this.waitGroup.done()` at the end of a `handleProcessorResult`
        that is no longer counted among the in-flight or suspended calls. */
    method MarkDone()
      requires ItemsValid() && waitGroup.counter == |inFlight| + |hooks| + abandoned + 1
      modifies waitGroup, waitGroup.waiters
      ensures Valid()
      ensures waitGroup.counter == old(waitGroup.counter) - 1
      ensures old(waitGroup.counter) == 1 ==> waitGroup.waiters == []
      ensures old(waitGroup.counter) != 1 ==> waitGroup.waiters == old(waitGroup.waiters)
      ensures forall w :: w in old(waitGroup.waiters) ==>
        w.state == if old(waitGroup.counter) == 1 then Apply(old(w.state), Settle.Resolve(())) else old(w.state)
    {
      var done := waitGroup.Done();
    }
  }

  /** `stop` while a callback is queued leaves the queue unable to queue
      another: after a restart and a second push the timer is still the
      cancelled handle and the processor has not been called. */
  method StopWhileScheduledFreezes() returns (timer: Timer, processed: seq<char>)
    ensures timer == Cancelled && processed == ""
  {
    var q := new ConcurrentProcessQueue<char>(None, None);
    var pa := q.Push('a');
    var stopped := q.Stop();
    q.Start();
    var pb := q.Push('b');
    timer, processed := q.timer, q.invoked;
  }

  /** With `maxProcessing` 1 and two tasks, the callback starts 'a' and
      queues no further callback although 'b' waits: the cap is reached. */
  method CapStopsScheduling() returns (processed: seq<char>, inFlight: int, timer: Timer)
    ensures processed == "a" && inFlight == 1 && timer == Idle
  {
    var q := new ConcurrentProcessQueue<char>(Some(1), None);
    var pa := q.Push('a');
    var pb := q.Push('b');
    ghost var f := Flags(q.stack);
    assert !f[0];
    ghost var k := q.TickFired();
    assert k == 0;
    processed, inFlight, timer := q.invoked, q.processing, q.timer;
  }

  /** Continuing the capped queue: once the processor fulfils 'a' and
      `onFinish` returns, 'b' is still waiting, so the callback is queued
      again and the queue goes on below its cap. */
  method CapResumesAfterFinish() returns (drained: bool, timer: Timer, processed: seq<char>)
    ensures !drained && timer == Armed && processed == "a"
  {
    var q := new ConcurrentProcessQueue<char>(Some(1), None);
    var pa := q.Push('a');
    var pb := q.Push('b');
    ghost var f := Flags(q.stack);
    assert !f[0];
    ghost var k := q.TickFired();
    assert k == 0 && q.inFlight == [q.stack[0]] && q.stack[1] != q.stack[0];
    ghost var b := q.stack[1];
    WithoutKeepsOthers(q.stack, q.stack[0]);
    var s := q.ProcessorSettled(0, Undefined);
    assert b in q.stack;
    drained := q.HookReturned(0, false);
    timer, processed := q.timer, q.invoked;
  }
}
