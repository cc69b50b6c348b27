/** packages/backoff/src/linear.ts: the delay before try `attempt` is
    `attempt` times a fixed increment. JavaScript numbers are taken as exact
    reals and attempts as integers. */
module LinearBackoff {
  datatype LinearBackoffStrategy = LinearBackoffStrategy(increment: real)

  /** `backOff(attempt)`: never throws; the delay is zero exactly when the
      attempt or the increment is. */
  function BackOff(s: LinearBackoffStrategy, attempt: int): (delay: real)
    ensures delay == 0.0 <==> attempt == 0 || s.increment == 0.0
  {
    attempt as real * s.increment
  }

  /** The delay after `n` tries, built by adding the increment once per
      try: the reference that "linear" names. */
  function Accumulated(increment: real, n: nat): real
  {
    if n == 0 then 0.0 else Accumulated(increment, n - 1) + increment
  }

  /** Each further attempt waits exactly one increment longer. */
  lemma EachAttemptAddsIncrement(s: LinearBackoffStrategy, attempt: int)
    ensures BackOff(s, attempt + 1) == BackOff(s, attempt) + s.increment
  {
  }

  /** For every non-negative attempt the product equals the increment added
      `attempt` times. */
  lemma {:induction false} BackOffIsAccumulated(s: LinearBackoffStrategy, attempt: nat)
    ensures BackOff(s, attempt) == Accumulated(s.increment, attempt)
  {
    if attempt > 0 {
      BackOffIsAccumulated(s, attempt - 1);
      EachAttemptAddsIncrement(s, attempt - 1);
    }
  }

  /** With a non-negative increment a later attempt never waits less, and
      no delay of a non-negative attempt is negative. */
  lemma {:induction false} NonDecreasing(s: LinearBackoffStrategy, a1: int, a2: int)
    requires s.increment >= 0.0 && a1 <= a2
    ensures BackOff(s, a1) <= BackOff(s, a2)
    ensures a1 >= 0 ==> BackOff(s, a1) >= 0.0
    decreases a2 - a1
  {
    if a1 < a2 {
      NonDecreasing(s, a1, a2 - 1);
      EachAttemptAddsIncrement(s, a2 - 1);
    }
  }

  /** The test table: with increment 100, attempts 1 to 7 wait 100 to 700. */
  lemma IncrementOfHundred()
    ensures forall a :: 1 <= a <= 7 ==>
      BackOff(LinearBackoffStrategy(100.0), a) == [100.0, 200.0, 300.0, 400.0, 500.0, 600.0, 700.0][a - 1]
  {
  }
}
