/** Bounded retry with exponential backoff. */
module Retry {
  import opened Prelude

  /** The exceptions that reach the retry layer or leave it. */
  datatype Error =
    | Transient
    | Permanent
    | CircuitOpen
    | Exhausted(attempts: nat, last: Error)

  datatype Outcome<+T> = Returned(value: T) | Raised(error: Error)

  datatype RetryConfig = RetryConfig(maxAttempts: int, baseDelay: real, maxDelay: real, jitterFactor: real,
                                     retryable: set<Error>)
  {
    /** What `__post_init__` accepts. */
    predicate Valid() {
      && 1 <= maxAttempts <= 10 && 0.0 <= baseDelay <= maxDelay && 0.0 <= jitterFactor <= 1.0
    }
  }

  function Pow2(n: nat): nat {
    if n == 0 then 1 else 2 * Pow2(n - 1)
  }

  function MinReal(a: real, b: real): real { if a <= b then a else b }

  function CappedDelay(cfg: RetryConfig, attempt: nat): real
    requires attempt >= 1
  {
    MinReal(Pow2(attempt - 1) as real * cfg.baseDelay, cfg.maxDelay)
  }

  function WithJitter(delay: real, jitter: real): real { delay + jitter * delay }

  function ComputeDelay(cfg: RetryConfig, attempt: nat, jitter: real): real
    requires attempt >= 1
  {
    WithJitter(CappedDelay(cfg, attempt), jitter)
  }

  lemma JitterBounds(delay: real, jitter: real, factor: real, cap: real)
    requires 0.0 <= delay <= cap && 0.0 <= jitter <= factor
    ensures delay <= WithJitter(delay, jitter) <= WithJitter(cap, factor)
  {
    assert 0.0 <= jitter * delay <= factor * delay;
    assert factor * delay <= factor * cap;
  }

  lemma ProductNonNegative(a: real, b: real)
    requires 0.0 <= a && 0.0 <= b
    ensures 0.0 <= a * b
  {
  }

  /** Whatever the jitter, a delay is at least the doubled base below the cap, and at most one jitter above the cap. */
  lemma DelayBounds(cfg: RetryConfig, attempt: nat, jitter: real)
    requires cfg.Valid() && attempt >= 1 && 0.0 <= jitter <= cfg.jitterFactor
    ensures 0.0 <= CappedDelay(cfg, attempt) <= ComputeDelay(cfg, attempt, jitter)
    ensures ComputeDelay(cfg, attempt, jitter) <= WithJitter(cfg.maxDelay, cfg.jitterFactor)
    ensures CappedDelay(cfg, attempt) <= CappedDelay(cfg, attempt + 1)
  {
    ProductNonNegative(Pow2(attempt - 1) as real, cfg.baseDelay);
    JitterBounds(CappedDelay(cfg, attempt), jitter, cfg.jitterFactor, cfg.maxDelay);
    assert Pow2(attempt) == 2 * Pow2(attempt - 1);
  }

  /** `base`, doubled `n` times. */
  function Doubled(base: real, n: nat): real {
    if n == 0 then base else Doubled(base, n - 1) + Doubled(base, n - 1)
  }

  lemma {:induction false} Pow2Doubles(base: real, n: nat)
    ensures Pow2(n) as real * base == Doubled(base, n)
  {
    if n > 0 {
      Pow2Doubles(base, n - 1);
      assert Pow2(n) as real * base == Pow2(n - 1) as real * base + Pow2(n - 1) as real * base;
    }
  }

  /** The exact wait before retry `attempt`: the base doubled `attempt - 1` times, cut off at the maximum, lengthened by
      the jitter. */
  lemma DelayExactly(cfg: RetryConfig, attempt: nat, jitter: real)
    requires attempt >= 1
    ensures var doubled := Doubled(cfg.baseDelay, attempt - 1);
            ComputeDelay(cfg, attempt, jitter)
            == (1.0 + jitter) * (if doubled < cfg.maxDelay then doubled else cfg.maxDelay)
  {
    Pow2Doubles(cfg.baseDelay, attempt - 1);
    var doubled := Doubled(cfg.baseDelay, attempt - 1);
    var delay := if doubled < cfg.maxDelay then doubled else cfg.maxDelay;
    var raw := Pow2(attempt - 1) as real * cfg.baseDelay;
    assert raw == doubled && CappedDelay(cfg, attempt) == MinReal(raw, cfg.maxDelay);
    OnePlus(jitter, delay);
  }

  lemma OnePlus(jitter: real, delay: real)
    ensures WithJitter(delay, jitter) == (1.0 + jitter) * delay
  {
  }

  predicate Retries<T>(cfg: RetryConfig, o: Outcome<T>) {
    o.Raised? && o.error in cfg.retryable
  }

  /** The call that decides: the first one that is not retried, or the last one allowed. */
  predicate Decides<T>(cfg: RetryConfig, op: nat -> Outcome<T>, calls: nat) {
    && 1 <= calls <= cfg.maxAttempts
    && (forall k :: 1 <= k < calls ==> Retries(cfg, op(k)))
    && (Retries(cfg, op(calls)) ==> calls == cfg.maxAttempts)
  }

  function Verdict<T>(cfg: RetryConfig, decisive: Outcome<T>): Outcome<T>
    requires cfg.maxAttempts >= 0
  {
    if Retries(cfg, decisive) then Raised(Exhausted(cfg.maxAttempts, decisive.error)) else decisive
  }

  /** `op(k)` is the outcome of call `k`; `jitter(k)` the jitter drawn after it. */
  method RetryWithBackoff<T>(cfg: RetryConfig, op: nat -> Outcome<T>, jitter: nat -> real)
    returns (result: Outcome<T>, calls: nat, sleeps: seq<real>)
    requires cfg.Valid()
    ensures Decides(cfg, op, calls) && result == Verdict(cfg, op(calls))
    ensures |sleeps| == calls - 1
    ensures forall k :: 1 <= k < calls ==> sleeps[k - 1] == ComputeDelay(cfg, k, jitter(k))
  {
    calls, sleeps := 0, [];
    while true
      invariant 0 <= calls == |sleeps| < cfg.maxAttempts
      invariant forall k :: 1 <= k <= calls ==> Retries(cfg, op(k)) && sleeps[k - 1] == ComputeDelay(cfg, k, jitter(k))
      decreases cfg.maxAttempts - calls
    {
      calls := calls + 1;
      var o := op(calls);
      if !(o.Raised? && o.error in cfg.retryable) {
        return o, calls, sleeps;
      }
      if calls >= cfg.maxAttempts {
        return Raised(Exhausted(cfg.maxAttempts, o.error)), calls, sleeps;
      }
      sleeps := sleeps + [ComputeDelay(cfg, calls, jitter(calls))];
    }
  }

  /** There is exactly one deciding call. */
  lemma DecidesOnce<T>(cfg: RetryConfig, op: nat -> Outcome<T>, m: nat, n: nat)
    requires Decides(cfg, op, m) && Decides(cfg, op, n)
    ensures m == n
  {
    assert m < n ==> Retries(cfg, op(m));
    assert n < m ==> Retries(cfg, op(n));
  }

  /** A failure outside the retryable ones is raised as it is, at once. */
  lemma NotRetried<T>(cfg: RetryConfig, op: nat -> Outcome<T>, calls: nat)
    requires cfg.Valid() && Decides(cfg, op, calls) && op(1).Raised? && op(1).error !in cfg.retryable
    ensures calls == 1 && Verdict(cfg, op(calls)) == op(1)
  {
    if calls > 1 {
      assert false;
    }
  }

  /** The first call that returns after retryable failures only decides, and its value is returned. */
  lemma FirstSuccess<T>(cfg: RetryConfig, op: nat -> Outcome<T>, calls: nat, n: nat)
    requires cfg.Valid() && Decides(cfg, op, calls) && 1 <= n <= cfg.maxAttempts && op(n).Returned?
    requires forall k :: 1 <= k < n ==> op(k).Raised? && op(k).error in cfg.retryable
    ensures calls == n && Verdict(cfg, op(calls)) == op(n)
  {
    if calls < n {
      assert Retries(cfg, op(calls));
    } else if n < calls {
      assert false;
    }
  }

  /** Retryable failures only: all attempts are used, and the last failure is reported as exhausted. */
  lemma AllFail<T>(cfg: RetryConfig, op: nat -> Outcome<T>, calls: nat)
    requires cfg.Valid() && Decides(cfg, op, calls)
    requires forall k :: 1 <= k <= cfg.maxAttempts ==> op(k).Raised? && op(k).error in cfg.retryable
    ensures calls == cfg.maxAttempts
    ensures Verdict(cfg, op(calls)) == Raised(Exhausted(cfg.maxAttempts, op(cfg.maxAttempts).error))
  {
    assert Retries(cfg, op(calls));
  }
}
