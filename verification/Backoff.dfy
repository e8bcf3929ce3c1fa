/** The exponential back-off of the scheduler: the doubling loop of retryDelay and its closed form. */
module Backoff {
  import opened Text

  /** time.Duration: a signed 64-bit count of nanoseconds. Dafny checks every operation for overflow. */
  newtype duration = d: int | -0x8000_0000_0000_0000 <= d < 0x8000_0000_0000_0000

  const SECOND: duration := 1_000_000_000
  const DEFAULT_BASE_SECONDS: int32 := 60
  const DEFAULT_MAX_SECONDS: int32 := 900

  function Pow2(n: nat): (r: int)
    ensures r >= 1
  {
    if n == 0 then 1 else 2 * Pow2(n - 1)
  }

  /** The base delay in nanoseconds, after defaulting. */
  function Base(baseSeconds: int32): (r: int)
    ensures r > 0
  {
    (if baseSeconds <= 0 then DEFAULT_BASE_SECONDS else baseSeconds) * 1_000_000_000
  }

  /** The ceiling in nanoseconds, after defaulting. It may lie below the base. */
  function Ceiling(baseSeconds: int32, maxSeconds: int32): (r: int)
    ensures r > 0
  {
    if maxSeconds * 1_000_000_000 < Base(baseSeconds) then DEFAULT_MAX_SECONDS * 1_000_000_000
    else maxSeconds * 1_000_000_000
  }

  /** The closed form: base doubled attempt - 1 times, cut at the ceiling. */
  function RetryDelay(baseSeconds: int32, maxSeconds: int32, attempt: int32): int {
    var delay := Base(baseSeconds) * Pow2(if attempt < 1 then 0 else attempt - 1);
    if delay > Ceiling(baseSeconds, maxSeconds) then Ceiling(baseSeconds, maxSeconds) else delay
  }

  /** b doubled n times, one step at a time as the loop does it. */
  function Doubled(b: int, n: nat): int {
    if n == 0 then b else 2 * Doubled(b, n - 1)
  }

  lemma {:induction false} DoubledIsPow2(b: int, n: nat)
    ensures Doubled(b, n) == b * Pow2(n)
  {
    if n > 0 {
      DoubledIsPow2(b, n - 1);
    }
  }

  lemma {:induction false} DoubledMonotone(b: int, m: nat, n: nat)
    requires b > 0 && m <= n
    ensures b <= Doubled(b, m) <= Doubled(b, n)
    decreases n
  {
    if n > 0 {
      DoubledMonotone(b, if m == n then m - 1 else m, n - 1);
    }
  }

  /** retryDelay: the loop meets the closed form, and no intermediate value leaves int64. */
  method ComputeRetryDelay(baseSeconds: int32, maxSeconds: int32, attempt: int32) returns (delay: duration)
    ensures delay as int == RetryDelay(baseSeconds, maxSeconds, attempt)
  {
    var base: duration := baseSeconds as duration * SECOND;
    var maxDelay: duration := maxSeconds as duration * SECOND;
    if base <= 0 {
      base := DEFAULT_BASE_SECONDS as duration * SECOND;
    }
    if maxDelay < base {
      maxDelay := DEFAULT_MAX_SECONDS as duration * SECOND;
    }
    delay := base;
    var step: int32 := 1;
    while step < attempt
      invariant 1 <= step && (step <= attempt || step == 1)
      invariant delay as int == Doubled(base as int, step - 1)
      invariant step == 1 || delay < maxDelay
      invariant 0 < delay <= 0x7fff_ffff * SECOND
    {
      delay := delay * 2;
      if delay >= maxDelay {
        DoubledMonotone(base as int, step, attempt - 1);
        DoubledIsPow2(base as int, attempt - 1);
        return maxDelay;
      }
      step := step + 1;
    }
    DoubledIsPow2(base as int, step - 1);
    if delay > maxDelay {
      return maxDelay;
    }
  }

  /** A delay is positive and never above the ceiling, and it never shrinks as attempts grow. */
  lemma RetryDelayMonotone(baseSeconds: int32, maxSeconds: int32, a: int32, b: int32)
    requires a <= b
    ensures 0 < RetryDelay(baseSeconds, maxSeconds, a) <= RetryDelay(baseSeconds, maxSeconds, b)
    ensures RetryDelay(baseSeconds, maxSeconds, b) <= Ceiling(baseSeconds, maxSeconds)
  {
    var m, n := if a < 1 then 0 else a - 1, if b < 1 then 0 else b - 1;
    DoubledMonotone(Base(baseSeconds), m, n);
    DoubledIsPow2(Base(baseSeconds), m);
    DoubledIsPow2(Base(baseSeconds), n);
  }

  /** Each further attempt doubles the delay until the ceiling is met. */
  lemma RetryDelayDoubles(baseSeconds: int32, maxSeconds: int32, a: int32)
    requires 1 <= a < MAX_INT32
    ensures var d, top := RetryDelay(baseSeconds, maxSeconds, a), Ceiling(baseSeconds, maxSeconds);
            RetryDelay(baseSeconds, maxSeconds, a + 1) == if 2 * d > top then top else 2 * d
  {
    DoubledMonotone(Base(baseSeconds), a - 1, a);
    DoubledIsPow2(Base(baseSeconds), a - 1);
    DoubledIsPow2(Base(baseSeconds), a);
  }

  lemma {:induction false} DoubledScales(seconds: int, n: nat)
    ensures Doubled(seconds * 1_000_000_000, n) == Doubled(seconds, n) * 1_000_000_000
  {
    if n > 0 {
      DoubledScales(seconds, n - 1);
    }
  }

  /** Delays are whole seconds. */
  lemma RetryDelayIsWhole(baseSeconds: int32, maxSeconds: int32, attempt: int32)
    ensures RetryDelay(baseSeconds, maxSeconds, attempt) % 1_000_000_000 == 0
  {
    var n := if attempt < 1 then 0 else attempt - 1;
    var seconds := if baseSeconds <= 0 then DEFAULT_BASE_SECONDS else baseSeconds;
    DoubledScales(seconds, n);
    DoubledIsPow2(Base(baseSeconds), n);
  }
}
