/** packages/mutex/src/abort-signal-options.ts: the options of a lock call
    and how a timeout and a caller's abort signal combine into the one
    signal the lock attempt listens to. A signal is modelled by its current
    aborted flag and the reason it carries once aborted. */
module LockOptions {
  import opened Wrappers

  /** The reason an aborted signal throws. */
  datatype AbortReason = TimeoutError | CallerReason(tag: nat)

  datatype Signal =
    | Caller(aborted: bool, reason: AbortReason)  // the `abortSignal` a caller passes
    | Timeout(ms: nat, fired: bool)               // `AbortSignal.timeout(ms)`
    | AnyOf(first: Signal, second: Signal)        // `AbortSignal.any([first, second])`

  predicate Aborted(s: Signal) {
    match s
    case Caller(a, _) => a
    case Timeout(_, f) => f
    case AnyOf(a, b) => Aborted(a) || Aborted(b)
  }

  /** The reason an aborted signal carries. A combined signal that is
      aborted when it is built takes the reason of the first of its signals
      that is aborted, as `AbortSignal.any` does; the reason is always that
      of an aborted part. */
  function ReasonOf(s: Signal): (r: AbortReason)
    requires Aborted(s)
    ensures s.Caller? ==> r == s.reason
    ensures s.Timeout? ==> r == TimeoutError
    ensures s.AnyOf? ==>
      || (Aborted(s.first) && r == ReasonOf(s.first))
      || (Aborted(s.second) && r == ReasonOf(s.second))
  {
    match s
    case Caller(_, r) => r
    case Timeout(_, _) => TimeoutError
    case AnyOf(a, b) => if Aborted(a) then ReasonOf(a) else ReasonOf(b)
  }

  /** `{timeout?, abortSignal?}`; the timeout is in milliseconds. */
  datatype Options = Options(timeout: Option<int>, abortSignal: Option<Signal>)

  /** What resolving options or checking a signal throws: the signal's
      reason, or the TypeError of `AbortSignal.timeout` for a negative
      duration. */
  datatype OptionsError = AbortedBecause(reason: AbortReason) | InvalidTimeout(ms: int)

  /** JavaScript truthiness of `options.timeout`: undefined and 0 are falsy. */
  predicate HasTimeout(o: Options) {
    o.timeout.Some? && o.timeout.value != 0
  }

  /** `maybeAbort(signal)`: throws the reason iff a signal is present and
      already aborted. */
  function MaybeAbort(signal: Option<Signal>): (r: Option<OptionsError>)
    ensures r.Some? <==> signal.Some? && Aborted(signal.value)
    ensures r.Some? ==> r.value == AbortedBecause(ReasonOf(signal.value))
  {
    if signal.Some? && Aborted(signal.value) then Some(AbortedBecause(ReasonOf(signal.value)))
    else None
  }

  /** The signal a lock attempt listens to: the caller's signal alone when
      there is no timeout; otherwise a fresh timeout signal, combined with
      the caller's signal when there is one. A negative timeout makes
      `AbortSignal.timeout` throw. */
  function EffectiveSignal(o: Options): (r: Result<Option<Signal>, OptionsError>)
    ensures r.Err? <==> HasTimeout(o) && o.timeout.value < 0
    ensures r.Err? ==> r.error == InvalidTimeout(o.timeout.value)
    ensures r.Ok? ==> (r.value.Some? <==> HasTimeout(o) || o.abortSignal.Some?)
    ensures r.Ok? && !HasTimeout(o) ==> r.value == o.abortSignal
    ensures r.Ok? && r.value.Some? ==>
      (Aborted(r.value.value) <==> o.abortSignal.Some? && Aborted(o.abortSignal.value))
    ensures r.Ok? && o.abortSignal.Some? && Aborted(o.abortSignal.value) ==>
      ReasonOf(r.value.value) == ReasonOf(o.abortSignal.value)
  {
    if !HasTimeout(o) then Ok(o.abortSignal)
    else if o.timeout.value < 0 then Err(InvalidTimeout(o.timeout.value))
    else if o.abortSignal.Some? then Ok(Some(AnyOf(o.abortSignal.value, Timeout(o.timeout.value, false))))
    else Ok(Some(Timeout(o.timeout.value, false)))
  }

  /** `resolveOptions(options)`: fails when the effective signal cannot be
      built or is already aborted; otherwise returns the options with only
      `abortSignal` replaced by the effective signal. */
  function ResolveOptions(o: Options): (r: Result<Options, OptionsError>)
    ensures EffectiveSignal(o).Err? ==> r == Err(EffectiveSignal(o).error)
    ensures EffectiveSignal(o).Ok? ==>
      var s := EffectiveSignal(o).value;
      && (r.Err? <==> s.Some? && Aborted(s.value))
      && (r.Err? ==> r.error == AbortedBecause(ReasonOf(s.value)))
      && (r.Ok? ==> r.value.timeout == o.timeout && r.value.abortSignal == s)
  {
    match EffectiveSignal(o)
    case Err(e) => Err(e)
    case Ok(s) =>
      match MaybeAbort(s)
      case Some(e) => Err(e)
      case None => Ok(o.(abortSignal := s))
  }

  /** With no timeout, or a zero one, the effective signal is exactly the
      caller's signal, and resolving fails iff that signal is aborted. */
  lemma NoTimeoutKeepsSignal(o: Options)
    requires !HasTimeout(o)
    ensures ResolveOptions(o).Ok? <==> !(o.abortSignal.Some? && Aborted(o.abortSignal.value))
    ensures ResolveOptions(o).Ok? ==> ResolveOptions(o).value == o
  {
  }

  /** With a positive timeout and a caller's signal, the effective signal
      combines the caller's signal with a fresh timeout signal. When built,
      it is aborted iff the caller's signal is, with the caller's reason.
      At any later moment it is aborted iff the caller's signal or the
      timeout signal is; when only one of them has aborted, the reason is
      that one's. */
  lemma TimeoutCombinesWithCallerSignal(o: Options, callerLater: Signal, timerFired: bool)
    requires HasTimeout(o) && o.timeout.value > 0 && o.abortSignal.Some?
    ensures EffectiveSignal(o).Ok?
    ensures var s := EffectiveSignal(o).value.value;
      var later := s.(first := callerLater, second := Timeout(o.timeout.value, timerFired));
      && s == AnyOf(o.abortSignal.value, Timeout(o.timeout.value, false))
      && (Aborted(s) <==> Aborted(o.abortSignal.value))
      && (Aborted(s) ==> ReasonOf(s) == ReasonOf(o.abortSignal.value))
      && (Aborted(later) <==> Aborted(callerLater) || timerFired)
      && (Aborted(callerLater) && !timerFired ==> ReasonOf(later) == ReasonOf(callerLater))
      && (!Aborted(callerLater) && timerFired ==> ReasonOf(later) == TimeoutError)
  {
  }

  /** With a positive timeout and no caller's signal, the effective signal is
      the timeout signal alone, not yet fired, so resolving succeeds. */
  lemma TimeoutAlone(o: Options)
    requires HasTimeout(o) && o.timeout.value > 0 && o.abortSignal.None?
    ensures ResolveOptions(o) == Ok(o.(abortSignal := Some(Timeout(o.timeout.value, false))))
  {
  }

  /** An absent signal never makes `maybeAbort` throw. */
  lemma AbsentSignalNeverAborts()
    ensures MaybeAbort(None) == None
  {
  }
}
