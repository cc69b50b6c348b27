/** What the process queues share (packages/process-queue/src/internals.ts
    and api.ts): the record kept per pushed task, the JavaScript values a
    processor can reject with, and the option defaults. */
module QueueItems {
  import opened Wrappers
  import opened ExposedPromises

  /** A JavaScript value handed to `handleProcessorResult` as `err`:
      `undefined` when the processor's promise fulfilled, otherwise the
      reason it was rejected with. Only its truthiness is ever inspected. */
  datatype Reason =
    | Undefined
    | Null
    | Bool(b: bool)
    | Number(n: int)
    | Text(s: string)
    | Object(id: nat)

  /** JavaScript truthiness (`if (err)`). */
  predicate Truthy(v: Reason) {
    match v
    case Undefined => false
    case Null => false
    case Bool(b) => b
    case Number(n) => n != 0
    case Text(s) => s != ""
    case Object(_) => true
  }

  /** `ProcessQueueDefaults`: at most 100 tasks in flight, started at
      construction. */
  const DefaultMaxProcessing: int := 100
  const DefaultAutoStart: bool := true

  /** An option given by the caller overrides the default (`{...defaults,
      ...options}`). */
  function OrDefault<X>(given: Option<X>, default: X): X
  {
    if given.Some? then given.value else default
  }

  /** What a settled processor call led to: no head to report on (the
      destructuring of `tasks[0]` throws), the error hook called with the
      task, reason and attempt count, or the task finished. */
  datatype Settlement<T> =
    | NoHead
    | ErrorReported(task: T, reason: Reason, tries: nat)
    | Finished(task: T)

  /** `ProcessStackItem`: the task, how often it was handed to the
      processor, whether a processor call on it is in flight (used by the
      concurrent queue only) and the promise `push` returned for it. */
  class StackItem<T> {
    const task: T
    var tries: nat
    var processing: bool
    const result: ExposedPromise<T, Reason>

    constructor (task: T)
      ensures this.task == task && tries == 0 && !processing
      ensures fresh(result) && result.state == Unsettled
    {
      this.task := task;
      tries := 0;
      processing := false;
      result := new ExposedPromise<T, Reason>();
    }
  }
}
