/**
 * The retry rule that every outbound handler's `retry_message` applies: a failed job whose
 * `retry_count` is below `max_retries` is re-queued with `retry_count + 1` after sleeping
 * `initial_delay * 2 ** retry_count`; any other failed job is dropped.
 */
module Retry {
  import opened Wrappers
  import opened Powers

  const DefaultMaxRetries := 3
  const DefaultInitialDelay := 10

  /** The `retry_settings` section of the configuration; a field is None when its key is absent. */
  datatype RetrySettings = RetrySettings(maxRetries: Option<int>, initialDelay: Option<int>)

  /** The delay before re-queueing, or None when the job is dropped. */
  function RetryDelay(maxRetries: int, initialDelay: int, retryCount: nat): (r: Option<int>)
    ensures r.Some? <==> retryCount < maxRetries
  {
    if retryCount < maxRetries then Some(initialDelay * Pow2(retryCount)) else None
  }

  /** Every queued job is fresh or has used no more retries than allowed. */
  predicate WithinBudget(retryCount: nat, maxRetries: int) {
    retryCount == 0 || retryCount <= maxRetries
  }

  /** A re-queued job stays within the budget. */
  lemma RequeueWithinBudget(maxRetries: int, initialDelay: int, retryCount: nat)
    requires RetryDelay(maxRetries, initialDelay, retryCount).Some?
    ensures WithinBudget(retryCount + 1, maxRetries)
  {
  }

  /** Each backoff is twice the one before it. */
  lemma BackoffDoubles(maxRetries: int, initialDelay: int, retryCount: nat)
    requires retryCount + 1 < maxRetries
    ensures RetryDelay(maxRetries, initialDelay, retryCount + 1).value
         == 2 * RetryDelay(maxRetries, initialDelay, retryCount).value
  {
  }

  /** The attempts made on a job and the total time slept for it, when every attempt fails. */
  datatype Run = Run(attempts: nat, waited: int)

  function FailingRun(maxRetries: int, initialDelay: int, retryCount: nat): Run
    decreases maxRetries - retryCount
  {
    match RetryDelay(maxRetries, initialDelay, retryCount)
    case None => Run(1, 0)
    case Some(d) =>
      var rest := FailingRun(maxRetries, initialDelay, retryCount + 1);
      Run(rest.attempts + 1, rest.waited + d)
  }

  /**
   * A job that fails every time, starting from `retryCount`, is attempted
   * `maxRetries - retryCount + 1` times and sleeps a geometric sum of backoffs in all.
   */
  lemma {:induction false} FailingRunTotals(maxRetries: int, initialDelay: int, retryCount: nat)
    ensures FailingRun(maxRetries, initialDelay, retryCount).attempts
         == (if retryCount < maxRetries then maxRetries - retryCount else 0) + 1
    ensures FailingRun(maxRetries, initialDelay, retryCount).waited
         == if retryCount < maxRetries then initialDelay * (Pow2(maxRetries) - Pow2(retryCount)) else 0
    decreases maxRetries - retryCount
  {
    if retryCount < maxRetries {
      FailingRunTotals(maxRetries, initialDelay, retryCount + 1);
      var p: int, top: int := Pow2(retryCount), Pow2(maxRetries);
      var rest := FailingRun(maxRetries, initialDelay, retryCount + 1).waited;
      assert Pow2(retryCount + 1) == 2 * p;
      assert rest == initialDelay * (top - 2 * p) by {
        if retryCount + 1 == maxRetries {
          Distribute(initialDelay, top, 2 * p);
        }
      }
      Distribute(initialDelay, top, 2 * p);
      Distribute(initialDelay, top, p);
      Distribute(initialDelay, 2 * p, p);
    }
  }

  lemma Distribute(d: int, a: int, b: int)
    ensures d * (a - b) == d * a - d * b
  {
  }

  /**
   * A new job (retry count 0) is attempted at most `max_retries + 1` times, and sleeps
   * `initial_delay * (2 ** max_retries - 1)` in all before it is dropped.
   */
  lemma FreshJobAttempts(maxRetries: int, initialDelay: int)
    ensures FailingRun(maxRetries, initialDelay, 0).attempts == (if maxRetries > 0 then maxRetries else 0) + 1
    ensures maxRetries > 0 ==> FailingRun(maxRetries, initialDelay, 0).waited == initialDelay * (Pow2(maxRetries) - 1)
  {
    FailingRunTotals(maxRetries, initialDelay, 0);
  }
}
