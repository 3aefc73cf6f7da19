/**
 The latency and retry budget of one class of request, and the decisions the retry
 loop takes from it. `RequestLoop` and `Protocol` share these.
 */
module RequestPolicy {
  import opened Numbers
  import opened Wrappers
  import RateLimiter

  type Duration = d: real | d >= 0.0 witness 0.0

  datatype Policy = Policy(maxAttempts: int, attemptTimeout: real, totalTimeout: real, queueTimeout: real,
                           retryBase: real, retryCap: real) {
    predicate Valid() {
      attemptTimeout > 0.0 && totalTimeout > 0.0 && queueTimeout > 0.0 && retryBase > 0.0 && retryCap > 0.0
    }
  }

  /** What one caller passes: its policy, whether it may be retried, and its rate-limit retries. */
  datatype Terms = Terms(policy: Policy, mayRetry: bool, rateLimitRetries: int) {
    function MaxAttempts(): (n: int)
      ensures policy.maxAttempts <= n && rateLimitRetries + 1 <= n && (n == policy.maxAttempts || n == rateLimitRetries + 1)
    {
      if policy.maxAttempts >= rateLimitRetries + 1 then policy.maxAttempts else rateLimitRetries + 1
    }

    function Deadline(start: real): real {
      start + policy.totalTimeout
    }

    /** After a transport failure or a transient status in the zero-based `attempt`. */
    predicate WillRetry(attempt: nat) {
      mayRetry && attempt + 1 < MaxAttempts()
    }

    /** After the `rejections`-th rate-limit rejection of this call. */
    predicate WillRetryRejection(attempt: nat, rejections: nat) {
      mayRetry && rejections <= rateLimitRetries && attempt + 1 < MaxAttempts()
    }

    function QueueTimeout(remaining: real): real {
      Min(policy.queueTimeout, remaining)
    }

    function AttemptTimeout(remaining: real): real {
      Min(policy.attemptTimeout, remaining)
    }

    /** The largest backoff the jitter may draw before retry number `attempt`. */
    function BackoffCap(attempt: nat): real {
      Min(policy.retryCap, RateLimiter.Doubled(policy.retryBase, attempt))
    }
  }

  /** A backoff that would reach the deadline is refused before it starts. */
  predicate MaySleep(delay: real, now: real, deadline: real) {
    deadline - now > 0.0 && delay < deadline - now
  }

  datatype Reply = Good | RateLimited(retryAfter: Option<real>) | TransientStatus

  datatype Outcome =
    | Response(at: real)
    | DeadlineExceeded
    | CircuitOpen
    | BulkheadRejected
    | TransientError
    | RateLimitError
    | Exhausted
}
