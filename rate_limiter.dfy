/**
 * The retry-with-backoff wrapper of APIRateLimiter (rate_limiter.py).
 *
 * The wrapped coroutine is abstracted as a script `op`: `op(i)` is what its
 * i-th invocation (counting from 0) returns or raises.  The random jitter is
 * abstracted as `jitter`: `jitter(r)` is the value random.uniform drew before
 * retry number r.  A run of the wrapper is recorded as the list of its
 * invocations, each noting whether it happened inside the semaphore, the
 * backoff sleep (with its warning) that followed it, and whether the
 * "max retries exceeded" error was logged on it.
 */
module RateLimiter {
  import opened Wrappers

  /** The configuration stored by APIRateLimiter.__init__, with its defaults. */
  datatype Limiter = Limiter(maxRetries: int := 3, initialDelay: real := 1.0, maxConcurrentRequests: int := 10)

  /** The module-level limiter that main.py builds. */
  const MainLimiter := Limiter(maxRetries := 3, initialDelay := 5.0)

  /** What a failed invocation raises. */
  datatype Failure =
    | ResponseError(status: int)  // asyncprawcore ResponseException, with the response's HTTP status
    | RequestError                // requests RequestException: a transport failure, no status
    | OtherError                  // any other exception; the wrapper does not catch it

  datatype Outcome<T> = Returned(value: T) | Raised(failure: Failure)

  /** The failures the wrapper retries: a 429 response, or any transport failure.
      Only response errors are checked for their status; exceptions of other
      kinds are not caught at all. */
  predicate Retryable(f: Failure)
    ensures f.RequestError? ==> Retryable(f)
    ensures f.ResponseError? ==> (Retryable(f) <==> f.status == 429)
    ensures f.OtherError? ==> !Retryable(f)
  {
    f.RequestError? || (f.ResponseError? && f.status == 429)
  }

  predicate RetryableOutcome<T>(o: Outcome<T>) {
    o.Raised? && Retryable(o.failure)
  }

  // ---------------------------------------------------------------------------
  // Backoff arithmetic (wait_with_jitter)

  function Pow2(n: nat): (p: nat)
    ensures p >= 1
  {
    if n == 0 then 1 else 2 * Pow2(n - 1)
  }

  /** The delay before jitter for retry number `retry`: initial_delay * 2^(retry - 1). */
  function BaseDelay(initialDelay: real, retry: nat): (delay: real)
    requires retry >= 1
    ensures retry == 1 ==> delay == initialDelay
    ensures initialDelay >= 0.0 ==> delay >= initialDelay
  {
    initialDelay * Pow2(retry - 1) as real
  }

  /** `x` lies between `a` and `b`, whichever of the two is the smaller
      (random.uniform(a, b) accepts either order). */
  predicate Between(x: real, a: real, b: real) {
    (a <= x <= b) || (b <= x <= a)
  }

  /** The time slept: the delay plus a jitter drawn from uniform(0, delay * 0.1). */
  function WaitTime(delay: real, jitter: real): (w: real)
    requires Between(jitter, 0.0, delay * 0.1)
    ensures Between(w, delay, delay * 1.1)
    ensures delay >= 0.0 ==> delay <= w <= delay * 1.1
    ensures jitter == 0.0 <==> w == delay
  {
    delay + jitter
  }

  /** Every jitter the script can supply is one random.uniform(0, delay * 0.1) can return. */
  ghost predicate JitterInRange(initialDelay: real, jitter: nat -> real) {
    forall retry: nat {:trigger jitter(retry)} ::
      retry >= 1 ==> Between(jitter(retry), 0.0, BaseDelay(initialDelay, retry) * 0.1)
  }

  /** The first backoff uses exactly the initial delay and each later one doubles it. */
  lemma BaseDelaySchedule(initialDelay: real, retry: nat)
    requires retry >= 1
    ensures BaseDelay(initialDelay, 1) == initialDelay
    ensures BaseDelay(initialDelay, retry + 1) == 2.0 * BaseDelay(initialDelay, retry)
  {
  }

  /** Base delays grow with the retry number when the initial delay is not negative. */
  lemma {:induction false} BaseDelayMonotonic(initialDelay: real, r: nat, s: nat)
    requires initialDelay >= 0.0 && 1 <= r <= s
    ensures BaseDelay(initialDelay, r) <= BaseDelay(initialDelay, s)
  {
    if r < s {
      BaseDelayMonotonic(initialDelay, r, s - 1);
      BaseDelaySchedule(initialDelay, s - 1);
    }
  }

  /** The defaults of __init__, and the limiter main.py builds. */
  lemma LimiterDefaults()
    ensures Limiter().maxRetries == 3 && Limiter().initialDelay == 1.0 && Limiter().maxConcurrentRequests == 10
    ensures MainLimiter.maxRetries == 3 && MainLimiter.initialDelay == 5.0 && MainLimiter.maxConcurrentRequests == 10
    ensures BaseDelay(MainLimiter.initialDelay, 1) == 5.0
    ensures BaseDelay(MainLimiter.initialDelay, 2) == 10.0
    ensures BaseDelay(MainLimiter.initialDelay, 3) == 20.0
  {
  }

  // ---------------------------------------------------------------------------
  // Runs of the wrapper

  /** A backoff sleep, and the warning logged before it. */
  datatype Backoff = Backoff(retry: nat, waitTime: real)

  /** One invocation of the wrapped coroutine. */
  datatype Attempt = Attempt(holdsSlot: bool, backoff: Option<Backoff>, errorLogged: bool)

  datatype Run<T> = Run(result: Outcome<T>, attempts: seq<Attempt>)

  /** The number of leading retryable failures among the first `n` invocations. */
  function FailStreak<T>(op: nat -> Outcome<T>, n: nat): (k: nat)
    ensures k <= n
    ensures forall i :: 0 <= i < k ==> RetryableOutcome(op(i))
    ensures k < n ==> !RetryableOutcome(op(k))
  {
    if n == 0 then 0
    else
      var k' := FailStreak(op, n - 1);
      if k' < n - 1 || !RetryableOutcome(op(n - 1)) then k' else n
  }

  /** The first `n` invocations of a run in which each one failed retryably and
      was followed, inside the slot, by the backoff for retry number i + 1. */
  function RetriedAttempts(initialDelay: real, jitter: nat -> real, n: nat): seq<Attempt>
    requires JitterInRange(initialDelay, jitter)
  {
    if n == 0 then []
    else
      var w := WaitTime(BaseDelay(initialDelay, n), jitter(n));
      RetriedAttempts(initialDelay, jitter, n - 1) + [Attempt(true, Some(Backoff(n, w)), false)]
  }

  /** What the wrapper does, in closed form: with a negative retry budget only the
      unguarded fallback call runs; otherwise the run stops at the first invocation
      that does not fail retryably, or after maxRetries + 1 retryable failures,
      in which case the last failure is logged and re-raised. */
  function RetrySpec<T>(lim: Limiter, op: nat -> Outcome<T>, jitter: nat -> real): Run<T>
    requires JitterInRange(lim.initialDelay, jitter)
  {
    if lim.maxRetries < 0 then
      Run(op(0), [Attempt(false, None, false)])
    else
      var n: nat := lim.maxRetries + 1;
      var k := FailStreak(op, n);
      if k == n then
        Run(op(n - 1), RetriedAttempts(lim.initialDelay, jitter, n - 1) + [Attempt(true, None, true)])
      else
        Run(op(k), RetriedAttempts(lim.initialDelay, jitter, k) + [Attempt(true, None, false)])
  }

  /** rate_limit's wrapper, applied to the script `op`. */
  method Wrapper<T>(lim: Limiter, op: nat -> Outcome<T>, jitter: nat -> real)
    returns (result: Outcome<T>, attempts: seq<Attempt>)
    requires JitterInRange(lim.initialDelay, jitter)
    ensures Run(result, attempts) == RetrySpec(lim, op, jitter)
    ensures lim.maxRetries >= 0 ==> forall a :: a in attempts ==> a.holdsSlot
  {
    var retries: nat := 0;
    attempts := [];
    while retries <= lim.maxRetries
      invariant retries == 0 || retries <= lim.maxRetries
      invariant forall i :: 0 <= i < retries ==> RetryableOutcome(op(i))
      invariant attempts == RetriedAttempts(lim.initialDelay, jitter, retries)
      invariant forall a :: a in attempts ==> a.holdsSlot
      decreases lim.maxRetries - retries
    {
      // Inside `async with self.semaphore`; this is invocation number `retries`.
      var outcome := op(retries);
      if !RetryableOutcome(outcome) {
        // A returned value, a non-429 response error or an uncaught exception.
        attempts := attempts + [Attempt(true, None, false)];
        return outcome, attempts;
      }
      retries := retries + 1;
      if retries > lim.maxRetries {
        attempts := attempts + [Attempt(true, None, true)];
        return outcome, attempts;
      }
      // The backoff sleep happens before the semaphore slot is released.
      var w := WaitTime(BaseDelay(lim.initialDelay, retries), jitter(retries));
      attempts := attempts + [Attempt(true, Some(Backoff(retries, w)), false)];
    }
    // The fallback call after the loop, outside the semaphore.
    result := op(retries);
    attempts := attempts + [Attempt(false, None, false)];
  }

  // ---------------------------------------------------------------------------
  // Observations on a run

  /** The backoff sleeps of a run, in order. */
  function Waits(attempts: seq<Attempt>): seq<Backoff>
  {
    if attempts == [] then []
    else
      var last := attempts[|attempts| - 1];
      Waits(attempts[..|attempts| - 1]) + (if last.backoff.Some? then [last.backoff.value] else [])
  }

  /** The number of "max retries exceeded" errors logged in a run. */
  function ErrorLogs(attempts: seq<Attempt>): nat
  {
    if attempts == [] then 0
    else ErrorLogs(attempts[..|attempts| - 1]) + (if attempts[|attempts| - 1].errorLogged then 1 else 0)
  }

  lemma WaitsSnoc(attempts: seq<Attempt>, a: Attempt)
    ensures Waits(attempts + [a]) == Waits(attempts) + (if a.backoff.Some? then [a.backoff.value] else [])
    ensures ErrorLogs(attempts + [a]) == ErrorLogs(attempts) + (if a.errorLogged then 1 else 0)
  {
    assert (attempts + [a])[..|attempts|] == attempts;
  }

  /** The retried prefix of a run: n invocations inside the slot, the k-th of them
      followed by the backoff for retry k whose wait is the jittered base delay,
      and no error logged. */
  lemma {:induction false} RetriedAttemptsShape(initialDelay: real, jitter: nat -> real, n: nat)
    requires JitterInRange(initialDelay, jitter)
    ensures var s := RetriedAttempts(initialDelay, jitter, n);
      && |s| == n
      && (forall a :: a in s ==> a.holdsSlot)
      && |Waits(s)| == n
      && ErrorLogs(s) == 0
      && forall i :: 0 <= i < n ==>
           Waits(s)[i] == Backoff(i + 1, WaitTime(BaseDelay(initialDelay, i + 1), jitter(i + 1)))
  {
    if n > 0 {
      RetriedAttemptsShape(initialDelay, jitter, n - 1);
      var s' := RetriedAttempts(initialDelay, jitter, n - 1);
      var w := WaitTime(BaseDelay(initialDelay, n), jitter(n));
      WaitsSnoc(s', Attempt(true, Some(Backoff(n, w)), false));
    }
  }

  /** An operation that fails retryably on every invocation is invoked
      maxRetries + 1 times, with maxRetries backoffs and one error log, and the
      last failure is what the caller sees. */
  lemma AlwaysRetryableExhausts<T>(lim: Limiter, op: nat -> Outcome<T>, jitter: nat -> real)
    requires JitterInRange(lim.initialDelay, jitter)
    requires lim.maxRetries >= 0
    requires forall i :: 0 <= i <= lim.maxRetries ==> RetryableOutcome(op(i))
    ensures var run := RetrySpec(lim, op, jitter);
      && |run.attempts| == lim.maxRetries + 1
      && |Waits(run.attempts)| == lim.maxRetries
      && ErrorLogs(run.attempts) == 1
      && run.result == op(lim.maxRetries)
      && run.result.Raised?
  {
    var n: nat := lim.maxRetries + 1;
    var prefix := RetriedAttempts(lim.initialDelay, jitter, n - 1);
    RetriedAttemptsShape(lim.initialDelay, jitter, n - 1);
    WaitsSnoc(prefix, Attempt(true, None, true));
  }

  /** Transport failures are always retried: an operation whose every invocation
      fails in transport exhausts the retries. */
  lemma TransportFailuresExhaust<T>(lim: Limiter, op: nat -> Outcome<T>, jitter: nat -> real)
    requires JitterInRange(lim.initialDelay, jitter)
    requires lim.maxRetries >= 0
    requires forall i: nat :: op(i) == Raised(RequestError)
    ensures var run := RetrySpec(lim, op, jitter);
      && |run.attempts| == lim.maxRetries + 1
      && |Waits(run.attempts)| == lim.maxRetries
      && ErrorLogs(run.attempts) == 1
      && run.result == Raised(RequestError)
  {
    AlwaysRetryableExhausts(lim, op, jitter);
  }

  /** If the first k <= maxRetries invocations fail retryably and the next one
      does not (it returns, or raises something the wrapper does not retry),
      the wrapper makes k + 1 invocations and k backoffs, logs no error, and
      hands back that invocation's outcome unchanged. */
  lemma StopsAtFirstNonRetryable<T>(lim: Limiter, op: nat -> Outcome<T>, jitter: nat -> real, k: nat)
    requires JitterInRange(lim.initialDelay, jitter)
    requires k <= lim.maxRetries
    requires forall i :: 0 <= i < k ==> RetryableOutcome(op(i))
    requires !RetryableOutcome(op(k))
    ensures var run := RetrySpec(lim, op, jitter);
      && |run.attempts| == k + 1
      && |Waits(run.attempts)| == k
      && ErrorLogs(run.attempts) == 0
      && run.result == op(k)
  {
    var prefix := RetriedAttempts(lim.initialDelay, jitter, k);
    RetriedAttemptsShape(lim.initialDelay, jitter, k);
    WaitsSnoc(prefix, Attempt(true, None, false));
  }

  /** A response error whose status is not 429 on the first invocation is
      re-raised at once, whatever max_retries is: one invocation, no backoff.
      With a negative budget that invocation is the unguarded one after the loop. */
  lemma NonRateLimitErrorPropagates<T>(lim: Limiter, op: nat -> Outcome<T>, jitter: nat -> real, status: int)
    requires JitterInRange(lim.initialDelay, jitter)
    requires status != 429 && op(0) == Raised(ResponseError(status))
    ensures var run := RetrySpec(lim, op, jitter);
      && |run.attempts| == 1
      && Waits(run.attempts) == []
      && run.result == Raised(ResponseError(status))
  {
    if lim.maxRetries >= 0 {
      StopsAtFirstNonRetryable(lim, op, jitter, 0);
    } else {
      // Only the fallback call runs; it raises the same error.
      WaitsSnoc([], Attempt(false, None, false));
      assert RetrySpec(lim, op, jitter).attempts == [] + [Attempt(false, None, false)];
    }
  }

  /** The backoffs of a run are those of its retried prefix. */
  lemma RunWaits<T>(lim: Limiter, op: nat -> Outcome<T>, jitter: nat -> real) returns (m: nat)
    requires JitterInRange(lim.initialDelay, jitter)
    ensures Waits(RetrySpec(lim, op, jitter).attempts) == Waits(RetriedAttempts(lim.initialDelay, jitter, m))
    ensures lim.maxRetries >= 0 ==> m <= lim.maxRetries
    ensures lim.maxRetries < 0 ==> m == 0
  {
    var run := RetrySpec(lim, op, jitter);
    if lim.maxRetries < 0 {
      m := 0;
      WaitsSnoc([], Attempt(false, None, false));
      assert run.attempts == [] + [Attempt(false, None, false)];
    } else {
      var n: nat := lim.maxRetries + 1;
      var k := FailStreak(op, n);
      m := if k == n then n - 1 else k;
      var last := Attempt(true, None, k == n);
      assert run.attempts == RetriedAttempts(lim.initialDelay, jitter, m) + [last];
      WaitsSnoc(RetriedAttempts(lim.initialDelay, jitter, m), last);
    }
  }

  /** Backoff k is for retry k, sleeps the jittered initial_delay * 2^(k - 1),
      and there are never more backoffs than maxRetries. */
  lemma BackoffSchedule<T>(lim: Limiter, op: nat -> Outcome<T>, jitter: nat -> real)
    requires JitterInRange(lim.initialDelay, jitter)
    ensures var w := Waits(RetrySpec(lim, op, jitter).attempts);
      && (lim.maxRetries >= 0 ==> |w| <= lim.maxRetries)
      && (lim.maxRetries < 0 ==> w == [])
      && forall i :: 0 <= i < |w| ==>
           && w[i].retry == i + 1
           && Between(w[i].waitTime, BaseDelay(lim.initialDelay, i + 1), BaseDelay(lim.initialDelay, i + 1) * 1.1)
  {
    var m := RunWaits(lim, op, jitter);
    RetriedAttemptsShape(lim.initialDelay, jitter, m);
    var w := Waits(RetrySpec(lim, op, jitter).attempts);
    forall i | 0 <= i < |w|
      ensures Between(w[i].waitTime, BaseDelay(lim.initialDelay, i + 1), BaseDelay(lim.initialDelay, i + 1) * 1.1)
    {
      var d := BaseDelay(lim.initialDelay, i + 1);
      assert Between(jitter(i + 1), 0.0, d * 0.1);
      assert w[i].waitTime == WaitTime(d, jitter(i + 1));
    }
  }

  /** The fallback call after the loop is reached exactly when the retry budget
      is negative; with maxRetries >= 0 every invocation holds the slot. */
  lemma FallbackReachedIffNegativeBudget<T>(lim: Limiter, op: nat -> Outcome<T>, jitter: nat -> real)
    requires JitterInRange(lim.initialDelay, jitter)
    ensures var run := RetrySpec(lim, op, jitter);
      (exists a :: a in run.attempts && !a.holdsSlot) <==> lim.maxRetries < 0
  {
    var run := RetrySpec(lim, op, jitter);
    if lim.maxRetries < 0 {
      assert run.attempts[0] in run.attempts;
    } else {
      var n: nat := lim.maxRetries + 1;
      var k := FailStreak(op, n);
      var m := if k == n then n - 1 else k;
      RetriedAttemptsShape(lim.initialDelay, jitter, m);
    }
  }
}
