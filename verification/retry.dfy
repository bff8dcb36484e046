/**
 * The query retry policy of the connected application
 * (`exponentialBackoff` and the query client defaults): three retries,
 * with a delay that doubles per attempt from the second one and is capped
 * at thirty seconds.
 */
module Retry {

  /** `retry: 3`. */
  const RETRY_COUNT: nat := 3

  const BASE_DELAY_MS: int := 1000
  const MAX_DELAY_MS: int := 30 * 1000

  function Pow2(n: nat): (r: nat)
    ensures r >= 1
  {
    if n == 0 then 1 else 2 * Pow2(n - 1)
  }

  /**
   * `Math.min(attempt > 1 ? 2 ** attempt * 1000 : 1000, 30 * 1000)`: the
   * delay is always between one and thirty seconds, and one second up to
   * the first attempt.
   */
  function ExponentialBackoff(attempt: nat): (r: int)
    ensures BASE_DELAY_MS <= r <= MAX_DELAY_MS
    ensures attempt <= 1 ==> r == BASE_DELAY_MS
  {
    var raw := if attempt > 1 then Pow2(attempt) * BASE_DELAY_MS else BASE_DELAY_MS;
    if raw < MAX_DELAY_MS then raw else MAX_DELAY_MS
  }

  lemma {:induction false} Pow2Monotone(a: nat, b: nat)
    requires a <= b
    ensures Pow2(a) <= Pow2(b)
    decreases b
  {
    if a < b {
      Pow2Monotone(a, b - 1);
    }
  }

  /** A later attempt never waits less than an earlier one. */
  lemma BackoffMonotone(a: nat, b: nat)
    requires a <= b
    ensures ExponentialBackoff(a) <= ExponentialBackoff(b)
  {
    if a > 1 {
      Pow2Monotone(a, b);
    } else if b > 1 {
      Pow2Monotone(1, b);
    }
  }

  /**
   * The schedule: one second up to the first attempt, then 4, 8 and 16
   * seconds, and the cap from the fifth attempt on.
   */
  lemma {:induction false} BackoffSchedule(attempt: nat)
    ensures attempt <= 1 ==> ExponentialBackoff(attempt) == 1000
    ensures 2 <= attempt <= 4 ==> ExponentialBackoff(attempt) == Pow2(attempt) * 1000 < MAX_DELAY_MS
    ensures attempt >= 5 ==> ExponentialBackoff(attempt) == MAX_DELAY_MS
  {
    if attempt >= 5 {
      Pow2Monotone(5, attempt);
      assert Pow2(5) == 32;
    } else if attempt >= 2 {
      assert Pow2(4) == 16;
      Pow2Monotone(attempt, 4);
    }
  }

  /** Whether the query client retries after `failureCount` failures: after each of the first three. */
  function ShouldRetry(failureCount: nat): (r: bool)
    ensures r <==> failureCount in {0, 1, 2}
  {
    failureCount < RETRY_COUNT
  }

  /**
   * The number of attempts a query makes when `outcomes[i]` tells whether
   * attempt `i` succeeds: it stops at the first success or once the
   * retries are used up, and the time spent waiting between attempts, each
   * wait given by `delay` for the failures so far.
   */
  function Attempts(outcomes: seq<bool>, failures: nat, delay: nat -> int): (r: (nat, int))
    ensures failures <= RETRY_COUNT ==> r.0 <= RETRY_COUNT + 1 - failures
    ensures failures > RETRY_COUNT ==> r.0 <= 1
    ensures |outcomes| > 0 ==> r.0 >= 1
    ensures r.0 <= |outcomes|
    ensures |outcomes| > 0 && outcomes[0] ==> r == (1, 0)
    decreases |outcomes|
  {
    if |outcomes| == 0 then (0, 0)
    else if outcomes[0] || !ShouldRetry(failures) then (1, 0)
    else
      var next := Attempts(outcomes[1..], failures + 1, delay);
      (next.0 + 1, delay(failures) + next.1)
  }

  /**
   * With the backoff as the delay, a query makes at most four attempts and
   * waits at most three capped delays in total.
   */
  lemma {:induction false} AttemptsBounded(outcomes: seq<bool>, failures: nat)
    ensures var r := Attempts(outcomes, failures, ExponentialBackoff);
      r.0 <= RETRY_COUNT + 1 && 0 <= r.1
      && r.1 <= (if failures <= RETRY_COUNT then RETRY_COUNT - failures else 0) * MAX_DELAY_MS
    decreases |outcomes|
  {
    if |outcomes| > 0 && !outcomes[0] && ShouldRetry(failures) {
      AttemptsBounded(outcomes[1..], failures + 1);
    }
  }
}
