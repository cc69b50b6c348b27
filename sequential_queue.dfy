/** packages/process-queue/src/sequential.ts: a backlog processed one task
    at a time, always the head. Each asynchronous continuation of the source
    is its own step here, called by the environment:

    - `TickFired`: a callback scheduled by `setImmediate` runs
      (`processNextTask`);
    - `ProcessorSettled`: a processor call settles and `handleProcessorResult`
      runs up to its first `await` (the `onError` or `onFinish` hook);
    - `HookReturned`: such a hook returns or throws, and the rest of
      `handleProcessorResult` runs;
    - `SkipCurrentTask`: the error hook calls `skipCurrentTask`;
    - `PurgeAfterStop`: the `await this.stop()` in `purge` resumes.

    Scheduling is counted rather than dropped: `pendingTicks` callbacks are
    queued and not yet run, and `timerLive` says whether the latest of them,
    the one the `timer` field refers to, is among those (only that one can
    be cancelled by `stop`). */
module SequentialQueues {
  import opened Wrappers
  import opened ExposedPromises
  import opened QueueItems

  /** A `handleProcessorResult` call suspended at its hook: `onError` for
      the item with a reason, or `onFinish` for the item. */
  datatype Hook<T> = AfterError(item: StackItem<T>, reason: Reason) | AfterFinish(item: StackItem<T>)

  /** What `stop` returns: an already-resolved promise, or a promise that
      the next `handleProcessorResult` resolves through `nextTick`. */
  datatype StopResult = StoppedNow | StopWaits(done: ExposedPromise<(), ()>)

  class SequentialProcessQueue<T> {
    var tasks: seq<StackItem<T>>
    var running: bool
    var processing: bool
    var pendingTicks: nat
    var timerLive: bool
    var nextTick: Option<ExposedPromise<(), ()>>
    /** Processor calls that have not settled yet. */
    var inFlight: nat
    var hooks: seq<Hook<T>>
    /** The tasks handed to the processor, in call order. */
    var invoked: seq<T>

    /** Every pushed item is a new record, the `timer` handle can only
        refer to a queued callback, and while the queue is processing some
        processor call is still to settle (so a waiting `stop` can be
        released). */
    ghost predicate Valid()
      reads this
    {
      && (forall i, j :: 0 <= i < j < |tasks| ==> tasks[i] != tasks[j])
      && (timerLive ==> pendingTicks > 0)
      && (processing ==> inFlight > 0)
    }

    /** A new queue is empty and idle; it is running unless `autoStart` is
        false. */
    constructor (autoStart: Option<bool>)
      ensures Valid()
      ensures running == OrDefault(autoStart, DefaultAutoStart)
      ensures tasks == [] && !processing && pendingTicks == 0 && !timerLive
      ensures nextTick == None && inFlight == 0 && hooks == [] && invoked == []
    {
      tasks := [];
      running := OrDefault(autoStart, DefaultAutoStart);
      processing := false;
      pendingTicks := 0;
      timerLive := false;
      nextTick := None;
      inFlight := 0;
      hooks := [];
      invoked := [];
    }

    /** `scheduleNextTask`: queue one more callback; `timer` now refers to
        it. */
    method ScheduleNextTask()
      requires Valid()
      modifies this
      ensures Valid()
      ensures pendingTicks == old(pendingTicks) + 1 && timerLive
      ensures tasks == old(tasks) && running == old(running) && processing == old(processing)
      ensures nextTick == old(nextTick) && inFlight == old(inFlight) && hooks == old(hooks)
      ensures invoked == old(invoked)
    {
      pendingTicks := pendingTicks + 1;
      timerLive := true;
    }

    /** `push(task)`: appends a new item with no tries at the tail, leaving
        the earlier items as they were, and schedules a callback only when
        the backlog was empty and the queue is running. */
    method Push(task: T) returns (result: ExposedPromise<T, Reason>)
      requires Valid()
      modifies this
      ensures Valid()
      ensures |tasks| == old(|tasks|) + 1 && tasks[..old(|tasks|)] == old(tasks)
      ensures fresh(tasks[|tasks| - 1]) && tasks[|tasks| - 1].task == task && tasks[|tasks| - 1].tries == 0
      ensures tasks[|tasks| - 1].result == result && fresh(result) && result.state == Unsettled
      ensures old(tasks) == [] && running ==> pendingTicks == old(pendingTicks) + 1 && timerLive
      ensures !(old(tasks) == [] && running) ==> pendingTicks == old(pendingTicks) && timerLive == old(timerLive)
      ensures running == old(running) && processing == old(processing) && nextTick == old(nextTick)
      ensures inFlight == old(inFlight) && hooks == old(hooks) && invoked == old(invoked)
    {
      var item := new StackItem<T>(task);
      tasks := tasks + [item];
      result := item.result;
      if |tasks| == 1 && running {
        ScheduleNextTask();
      }
    }

    /** The change `start()` makes: the queue runs; a queue that was not
        running queues one callback, which `timer` refers to; nothing else
        changes. */
    twostate predicate StartStep()
      reads this
    {
      && running
      && (old(running) ==> pendingTicks == old(pendingTicks) && timerLive == old(timerLive))
      && (!old(running) ==> pendingTicks == old(pendingTicks) + 1 && timerLive)
      && tasks == old(tasks) && processing == old(processing) && nextTick == old(nextTick)
      && inFlight == old(inFlight) && hooks == old(hooks) && invoked == old(invoked)
    }

    /** The change `stop()` makes to the queue, apart from the promise it
        may install: the queue no longer runs, the callback `timer` refers
        to is cancelled if it has not run, and nothing else changes. */
    twostate predicate StopStep()
      reads this
    {
      && !running && !timerLive
      && pendingTicks == (if old(timerLive) then old(pendingTicks) - 1 else old(pendingTicks))
      && (!processing ==> nextTick == old(nextTick))
      && tasks == old(tasks) && processing == old(processing)
      && inFlight == old(inFlight) && hooks == old(hooks) && invoked == old(invoked)
    }

    /** `start()`: no effect on a running queue; otherwise sets it running
        and schedules a callback. */
    method Start()
      requires Valid()
      modifies this
      ensures Valid()
      ensures StartStep()
    {
      if running {
        return;
      }
      running := true;
      ScheduleNextTask();
    }

    /** `stop()`: clears the running flag and cancels the callback `timer`
        refers to if it has not run. With no processor call in flight it
        resolves at once; otherwise it installs a new `nextTick` (replacing
        any earlier one, whose promise then never resolves). */
    method Stop() returns (r: StopResult)
      requires Valid()
      modifies this
      ensures Valid()
      ensures StopStep()
      ensures !processing ==> r == StoppedNow
      ensures processing ==> r.StopWaits? && fresh(r.done) && r.done.state == Unsettled && nextTick == Some(r.done)
    {
      running := false;
      if timerLive {
        pendingTicks := pendingTicks - 1;
        timerLive := false;
      }
      if !processing {
        return StoppedNow;
      }
      var done := new ExposedPromise<(), ()>();
      nextTick := Some(done);
      r := StopWaits(done);
    }

    /** `purge()` up to its `await`: it is `stop()`. */
    method Purge() returns (r: StopResult)
      requires Valid()
      modifies this
      ensures Valid()
      ensures StopStep()
      ensures !processing ==> r == StoppedNow
      ensures processing ==> r.StopWaits? && fresh(r.done) && r.done.state == Unsettled && nextTick == Some(r.done)
    {
      r := Stop();
    }

    /** The rest of `purge()`: the backlog is emptied; nothing else changes. */
    method PurgeAfterStop()
      requires Valid()
      modifies this
      ensures Valid()
      ensures tasks == []
      ensures running == old(running) && processing == old(processing)
      ensures pendingTicks == old(pendingTicks) && timerLive == old(timerLive) && nextTick == old(nextTick)
      ensures inFlight == old(inFlight) && hooks == old(hooks) && invoked == old(invoked)
    {
      tasks := [];
    }

    /** `processNextTask()`, run by one queued callback: on an empty backlog
        nothing else happens; otherwise the head, and only the head, is
        handed to the processor, its tries go up by one and the queue is
        processing. It does not look at `processing` or `running`. */
    method TickFired()
      requires Valid() && pendingTicks > 0
      modifies this, if tasks == [] then {} else {tasks[0]}
      ensures Valid()
      ensures pendingTicks == old(pendingTicks) - 1
      ensures timerLive == (old(timerLive) && pendingTicks > 0)
      ensures tasks == old(tasks)
      ensures old(tasks) == [] ==>
        processing == old(processing) && inFlight == old(inFlight) && invoked == old(invoked)
      ensures old(tasks) != [] ==>
        && processing && inFlight == old(inFlight) + 1
        && tasks[0].tries == old(tasks[0].tries) + 1 && tasks[0].processing == old(tasks[0].processing)
        && invoked == old(invoked) + [old(tasks[0].task)]
      ensures running == old(running) && nextTick == old(nextTick) && hooks == old(hooks)
    {
      pendingTicks := pendingTicks - 1;
      timerLive := timerLive && pendingTicks > 0;
      if tasks != [] {
        processing := true;
        tasks[0].tries := tasks[0].tries + 1;
        invoked := invoked + [tasks[0].task];
        inFlight := inFlight + 1;
      }
    }

    /** A processor call settles, with `err` undefined on fulfilment or the
        rejection reason; `handleProcessorResult(err)` runs to its hook. It
        always reports on the current head, whichever call settled. A truthy
        `err` keeps the backlog as it is and calls `onError` with the
        head's task, `err` and tries; anything else (a falsy rejection
        reason included) removes the head and calls `onFinish`. With an
        empty backlog, reading the head throws and nothing more happens. */
    method ProcessorSettled(err: Reason) returns (s: Settlement<T>)
      requires Valid() && inFlight > 0
      modifies this
      ensures Valid()
      ensures inFlight == old(inFlight) - 1 && !processing
      ensures old(tasks) == [] ==> s == NoHead && tasks == [] && hooks == old(hooks)
      ensures old(tasks) != [] && Truthy(err) ==>
        && s == ErrorReported(old(tasks[0].task), err, old(tasks[0].tries))
        && tasks == old(tasks)
        && hooks == old(hooks) + [AfterError(old(tasks[0]), err)]
      ensures old(tasks) != [] && !Truthy(err) ==>
        && s == Finished(old(tasks[0].task))
        && tasks == old(tasks[1..])
        && hooks == old(hooks) + [AfterFinish(old(tasks[0]))]
      ensures running == old(running) && pendingTicks == old(pendingTicks) && timerLive == old(timerLive)
      ensures nextTick == old(nextTick) && invoked == old(invoked)
    {
      inFlight := inFlight - 1;
      processing := false;
      if tasks == [] {
        return NoHead;
      }
      var item := tasks[0];
      if Truthy(err) {
        hooks := hooks + [AfterError(item, err)];
        s := ErrorReported(item.task, err, item.tries);
      } else {
        tasks := tasks[1..];
        hooks := hooks + [AfterFinish(item)];
        s := Finished(item.task);
      }
    }

    /** `skipCurrentTask()`: removes the current head, whatever it is; no
        effect on an empty backlog. */
    method SkipCurrentTask()
      requires Valid()
      modifies this
      ensures Valid()
      ensures old(tasks) == [] ==> tasks == []
      ensures old(tasks) != [] ==> tasks == old(tasks[1..])
      ensures running == old(running) && processing == old(processing)
      ensures pendingTicks == old(pendingTicks) && timerLive == old(timerLive) && nextTick == old(nextTick)
      ensures inFlight == old(inFlight) && hooks == old(hooks) && invoked == old(invoked)
    {
      if tasks != [] {
        tasks := tasks[1..];
      }
    }

    /** The hook awaited by suspended call `k` returns (or throws, when
        `threw`), and that `handleProcessorResult` finishes: a throwing hook
        ends it there. Otherwise the item's promise is rejected with the
        reason or fulfilled with its task, a pending `stop` is resolved,
        and then `onDrained` is called (`drained`) if the backlog is empty,
        or else one more callback is scheduled if the queue is running. */
    method HookReturned(k: nat, threw: bool) returns (drained: bool)
      requires Valid() && k < |hooks|
      modifies this, hooks[k].item.result, if nextTick.Some? then {nextTick.value} else {}
      ensures Valid()
      ensures hooks == old(hooks[..k] + hooks[k + 1..])
      ensures tasks == old(tasks) && running == old(running) && processing == old(processing)
      ensures inFlight == old(inFlight) && invoked == old(invoked)
      ensures threw ==>
        && !drained && pendingTicks == old(pendingTicks) && timerLive == old(timerLive)
        && nextTick == old(nextTick) && unchanged(old(hooks[k].item.result))
        && (old(nextTick).Some? ==> unchanged(old(nextTick).value))
      ensures !threw && old(hooks[k]).AfterError? ==>
        old(hooks[k].item.result).state == Apply(old(hooks[k].item.result.state), Settle.Reject(old(hooks[k].reason)))
      ensures !threw && old(hooks[k]).AfterFinish? ==>
        old(hooks[k].item.result).state == Apply(old(hooks[k].item.result.state), Settle.Resolve(old(hooks[k].item.task)))
      ensures !threw ==> nextTick == None
      ensures !threw && old(nextTick).Some? ==>
        old(nextTick).value.state == Apply(old(nextTick.value.state), Settle.Resolve(()))
      ensures !threw ==> (drained <==> tasks == [])
      ensures !threw && tasks != [] && running ==> pendingTicks == old(pendingTicks) + 1 && timerLive
      ensures !threw && !(tasks != [] && running) ==> pendingTicks == old(pendingTicks) && timerLive == old(timerLive)
    {
      var h := hooks[k];
      hooks := hooks[..k] + hooks[k + 1..];
      if threw {
        return false;
      }
      match h {
        case AfterError(item, reason) => item.result.Reject(reason);
        case AfterFinish(item) => item.result.Resolve(item.task);
      }
      if nextTick.Some? {
        nextTick.value.Resolve(());
        nextTick := None;
      }
      drained := tasks == [];
      if !drained && running {
        ScheduleNextTask();
      }
    }
  }

  /** One round on a running, idle queue with one callback queued: the
      callback runs, the processor fulfils, `onFinish` returns. The head
      leaves the backlog fulfilled with its task, and a callback is queued
      again unless the backlog ran dry. */
  method SucceedHead<T>(q: SequentialProcessQueue<T>)
    requires q.Valid() && q.tasks != [] && q.running
    requires q.pendingTicks == 1 && q.timerLive && q.inFlight == 0 && q.hooks == [] && q.nextTick == None
    requires q.tasks[0].result.state == Unsettled
    modifies q, q.tasks[0], q.tasks[0].result
    ensures q.Valid() && q.running && q.inFlight == 0 && q.hooks == [] && q.nextTick == None
    ensures q.tasks == old(q.tasks[1..])
    ensures q.invoked == old(q.invoked) + [old(q.tasks[0].task)]
    ensures old(q.tasks[0].result).state == Value(old(q.tasks[0].task))
    ensures q.tasks != [] ==> q.pendingTicks == 1 && q.timerLive
  {
    ghost var head := q.tasks[0];
    q.TickFired();
    var s := q.ProcessorSettled(Undefined);
    assert q.hooks == [AfterFinish(head)];
    var drained := q.HookReturned(0, false);
  }

  /** The queue's FIFO test: a running queue given 'a', 'b' and 'c' hands
      them to the processor in that order, one at a time, and fulfils each
      result with its task. */
  method FifoOrder() returns (processed: seq<char>, a: State<char, Reason>, b: State<char, Reason>, c: State<char, Reason>)
    ensures processed == "abc"
    ensures a == Value('a') && b == Value('b') && c == Value('c')
  {
    var q := new SequentialProcessQueue<char>(None);
    var pa := q.Push('a');
    var pb := q.Push('b');
    var pc := q.Push('c');
    SucceedHead(q);
    SucceedHead(q);
    SucceedHead(q);
    processed := q.invoked;
    a, b, c := pa.state, pb.state, pc.state;
  }

  /** `processNextTask` never looks at `processing`: stopping and restarting
      a queue while its head is with the processor queues a callback that
      hands the same head to the processor a second time, with two calls on
      it in flight. */
  method RestartWhileProcessing() returns (processed: seq<char>, tries: nat, inFlight: nat)
    ensures processed == "aa" && tries == 2 && inFlight == 2
  {
    var q := new SequentialProcessQueue<char>(None);
    var pa := q.Push('a');
    q.TickFired();
    var stopped := q.Stop();
    q.Start();
    q.TickFired();
    processed, tries, inFlight := q.invoked, q.tasks[0].tries, q.inFlight;
  }
}
