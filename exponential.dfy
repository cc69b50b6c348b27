/** packages/backoff/src/exponential.ts: the delay before try `attempt` is
    `initialDelayMs * base ** (attempt - 1)`, capped at `maxDelay`, and
    asking for a try beyond `maxAttempts` throws (unless `maxAttempts` is
    -1, meaning unlimited). JavaScript numbers are taken as exact reals and
    attempts as integers. */
module ExponentialBackoff {
  import opened Wrappers

  /** `MaxAttemptsExceeded.atAttempt(attempt)`: the error records the
      attempt that was refused. */
  datatype MaxAttemptsExceeded = MaxAttemptsExceeded(attempt: int)

  const DefaultMaxDelay: real := 2500000.0
  const DefaultBase: real := 2.0

  datatype ExponentialBackoffStrategy =
    ExponentialBackoffStrategy(initialDelayMs: real, maxAttempts: int, maxDelay: real, base: real)

  /** The constructor: an omitted `maxDelay` is 2500000 ms and an omitted
      `base` is 2. */
  function NewExponentialBackoff(initialDelayMs: real, maxAttempts: int, maxDelay: Option<real>, base: Option<real>)
    : (s: ExponentialBackoffStrategy)
    ensures s.initialDelayMs == initialDelayMs && s.maxAttempts == maxAttempts
    ensures maxDelay.None? ==> s.maxDelay == 2500000.0
    ensures maxDelay.Some? ==> s.maxDelay == maxDelay.value
    ensures base.None? ==> s.base == 2.0
    ensures base.Some? ==> s.base == base.value
  {
    ExponentialBackoffStrategy(
      initialDelayMs, maxAttempts,
      if maxDelay.Some? then maxDelay.value else DefaultMaxDelay,
      if base.Some? then base.value else DefaultBase)
  }

  /** `b ** e` for an integer exponent; a negative exponent divides. */
  function Power(b: real, e: int): (p: real)
    requires e >= 0 || b != 0.0
    decreases if e >= 0 then e else -e
  {
    if e == 0 then 1.0
    else if e > 0 then b * Power(b, e - 1)
    else Power(b, e + 1) / b
  }

  /** Raising the exponent by one multiplies by the base, on both sides of
      zero. */
  lemma PowerStep(b: real, e: int)
    requires e >= 0 || b != 0.0
    ensures Power(b, e + 1) == b * Power(b, e)
  {
  }

  /** A base of at least one raised to a natural exponent is at least one. */
  lemma {:induction false} PowerAtLeastOne(b: real, e: nat)
    requires b >= 1.0
    ensures Power(b, e) >= 1.0
  {
    if e > 0 {
      PowerAtLeastOne(b, e - 1);
    }
  }

  /** With a base of at least one, a larger natural exponent never gives
      less. */
  lemma {:induction false} PowerMonotone(b: real, e1: nat, e2: nat)
    requires b >= 1.0 && e1 <= e2
    ensures Power(b, e1) <= Power(b, e2)
    decreases e2 - e1
  {
    if e1 < e2 {
      PowerMonotone(b, e1, e2 - 1);
      PowerAtLeastOne(b, e2 - 1);
      assert Power(b, e2) == b * Power(b, e2 - 1);
      assert b * Power(b, e2 - 1) - Power(b, e2 - 1) == (b - 1.0) * Power(b, e2 - 1);
    }
  }

  /** The uncapped delay: `initialDelayMs * base ** (attempt - 1)`. */
  function Uncapped(s: ExponentialBackoffStrategy, attempt: int): (d: real)
    requires attempt >= 1 || s.base != 0.0
    ensures attempt >= 1 && s.base >= 1.0 && s.initialDelayMs >= 0.0 ==> d >= s.initialDelayMs
  {
    var d := s.initialDelayMs * Power(s.base, attempt - 1);
    if attempt >= 1 && s.base >= 1.0 && s.initialDelayMs >= 0.0 then
      PowerAtLeastOne(s.base, attempt - 1);
      ScaleOrdered(s.initialDelayMs, 1.0, Power(s.base, attempt - 1));
      d
    else
      d
  }

  /** `backOff(attempt)`: throws MaxAttemptsExceeded for the attempt exactly
      when `maxAttempts` is not -1 and the attempt exceeds it; otherwise the
      smaller of `maxDelay` and the uncapped delay. */
  function BackOff(s: ExponentialBackoffStrategy, attempt: int): (r: Result<real, MaxAttemptsExceeded>)
    requires attempt >= 1 || s.base != 0.0
    ensures r.Err? <==> s.maxAttempts != -1 && attempt > s.maxAttempts
    ensures r.Err? ==> r.error == MaxAttemptsExceeded(attempt)
    ensures r.Ok? ==> r.value <= s.maxDelay && r.value <= Uncapped(s, attempt)
    ensures r.Ok? ==> r.value == s.maxDelay || r.value == Uncapped(s, attempt)
  {
    if s.maxAttempts != -1 && attempt > s.maxAttempts then
      Err(MaxAttemptsExceeded(attempt))
    else
      var uncapped := s.initialDelayMs * Power(s.base, attempt - 1);
      Ok(if s.maxDelay <= uncapped then s.maxDelay else uncapped)
  }

  /** The first try waits the initial delay, unless the cap is lower. */
  lemma FirstAttemptWaitsInitialDelay(s: ExponentialBackoffStrategy)
    requires s.maxAttempts == -1 || s.maxAttempts >= 1
    requires s.initialDelayMs <= s.maxDelay
    ensures BackOff(s, 1) == Ok(s.initialDelayMs)
  {
  }

  /** `x * (y * z) == y * (x * z)` on reals, kept apart so that the
      proofs below never ask the solver to rearrange a product. */
  lemma Swap(x: real, y: real, z: real)
    ensures x * (y * z) == y * (x * z)
  {
  }

  /** Multiplying by a non-negative factor keeps an order. */
  lemma ScaleOrdered(c: real, lo: real, hi: real)
    requires c >= 0.0 && lo <= hi
    ensures c * lo <= c * hi
  {
    var gap := hi - lo;
    assert c * gap >= 0.0;
    assert c * hi == c * lo + c * gap;
  }

  /** The uncapped delay grows by `base` from one try to the next. */
  lemma UncappedStep(s: ExponentialBackoffStrategy, attempt: int)
    requires attempt >= 1 || s.base != 0.0
    ensures Uncapped(s, attempt + 1) == s.base * Uncapped(s, attempt)
  {
    var p := Power(s.base, attempt - 1);
    PowerStep(s.base, attempt - 1);
    Swap(s.initialDelayMs, s.base, p);
  }

  /** Below the cap each further try waits `base` times as long as the one
      before it. */
  lemma GrowsByBase(s: ExponentialBackoffStrategy, attempt: int)
    requires attempt >= 1 || s.base != 0.0
    requires s.maxAttempts == -1 || attempt + 1 <= s.maxAttempts
    requires Uncapped(s, attempt) <= s.maxDelay && Uncapped(s, attempt + 1) <= s.maxDelay
    ensures BackOff(s, attempt + 1).Ok? && BackOff(s, attempt).Ok?
    ensures BackOff(s, attempt + 1).value == s.base * BackOff(s, attempt).value
  {
    UncappedStep(s, attempt);
  }

  /** With a base of at least one and a non-negative initial delay, a later
      try never waits less than an earlier one. */
  lemma NonDecreasing(s: ExponentialBackoffStrategy, a1: int, a2: int)
    requires s.base >= 1.0 && s.initialDelayMs >= 0.0 && 1 <= a1 <= a2
    requires BackOff(s, a2).Ok?
    ensures BackOff(s, a1).Ok? && BackOff(s, a1).value <= BackOff(s, a2).value
  {
    UncappedMonotone(s, a1, a2);
  }

  /** The uncapped delay never decreases from one try to a later one. */
  lemma UncappedMonotone(s: ExponentialBackoffStrategy, a1: int, a2: int)
    requires s.base >= 1.0 && s.initialDelayMs >= 0.0 && 1 <= a1 <= a2
    ensures Uncapped(s, a1) <= Uncapped(s, a2)
  {
    var p1, p2 := Power(s.base, a1 - 1), Power(s.base, a2 - 1);
    PowerMonotone(s.base, a1 - 1, a2 - 1);
    ScaleOrdered(s.initialDelayMs, p1, p2);
  }

  /** The test tables: initial delay 100 doubled on every try, first with a
      cap of 250000 that is never reached and then with a cap of 600; tries
      beyond 10 or 100 allowed throw; bases 1.5 and 2.5. */
  lemma TestTables()
    ensures forall a :: 1 <= a <= 7 ==>
      BackOff(ExponentialBackoffStrategy(100.0, 25, 250000.0, 2.0), a)
        == Ok([100.0, 200.0, 400.0, 800.0, 1600.0, 3200.0, 6400.0][a - 1])
    ensures forall a :: 1 <= a <= 7 ==>
      BackOff(ExponentialBackoffStrategy(100.0, 25, 600.0, 2.0), a)
        == Ok([100.0, 200.0, 400.0, 600.0, 600.0, 600.0, 600.0][a - 1])
    ensures BackOff(NewExponentialBackoff(0.0, 10, None, None), 11).Err?
    ensures BackOff(NewExponentialBackoff(0.0, 10, None, None), 15).Err?
    ensures BackOff(NewExponentialBackoff(0.0, 100, None, None), 101).Err?
    ensures BackOff(NewExponentialBackoff(0.0, 100, None, None), 150).Err?
    ensures BackOff(ExponentialBackoffStrategy(100.0, 100, 1000.0, 1.5), 2) == Ok(150.0)
    ensures BackOff(ExponentialBackoffStrategy(100.0, 100, 1000.0, 1.5), 3) == Ok(225.0)
    ensures BackOff(ExponentialBackoffStrategy(100.0, 100, 1000.0, 2.5), 2) == Ok(250.0)
    ensures BackOff(ExponentialBackoffStrategy(100.0, 100, 1000.0, 2.5), 3) == Ok(625.0)
  {
  }

  /** With `maxAttempts` -1 no attempt, however large, throws. */
  lemma UnlimitedNeverThrows(s: ExponentialBackoffStrategy, attempt: int)
    requires s.maxAttempts == -1 && (attempt >= 1 || s.base != 0.0)
    ensures BackOff(s, attempt).Ok?
  {
  }
}
