/** Retry inside a breaker around one provider, and ordered failover over several. */
module Resilience {
  import opened Prelude
  import opened Retry
  import CB = CircuitBreaker

  /** The text of an LLM response. */
  type Response = string

  /** What a provider call can raise, before classification. */
  datatype RawError =
    | HttpStatus(code: int)
    | Timeout
    | Transport
    | AlreadyTransient
    | AlreadyPermanent
    | Other

  datatype RawOutcome = Answer(value: Response) | Failure(error: RawError)

  const RETRYABLE_STATUS_CODES := {408, 409, 429, 500, 502, 503, 504}

  function ClassifyLlmError(e: RawError): Error {
    match e
    case AlreadyTransient => Transient
    case AlreadyPermanent => Permanent
    case HttpStatus(code) => if code in RETRYABLE_STATUS_CODES then Transient else Permanent
    case Timeout => Transient
    case Transport => Transient
    case Other => Permanent
  }

  function Classified(raw: RawOutcome): Outcome<Response> {
    match raw
    case Answer(v) => Returned(v)
    case Failure(e) => Raised(ClassifyLlmError(e))
  }

  /** One logical call: what the provider would answer to each attempt, the jitters, and the instants at which
      the breaker is asked, told the outcome, and observed. */
  datatype Request = Request(op: nat -> RawOutcome, jitter: nat -> real, asked: real, done: real, seen: real)

  function Attempts(r: Request): nat -> Outcome<Response> {
    (k: nat) => Classified(r.op(k))
  }

  /** The meaning of `complete` on a breaker in state `b`. */
  ghost predicate Completes(b: CB.Breaker, cfg: CB.Config, retry: RetryConfig, r: Request,
                               result: Outcome<Response>, calls: nat, b': CB.Breaker)
    requires retry.Valid()
  {
    var (asked, allowed) := CB.AllowCall(b, cfg, r.asked);
    if !allowed then
      calls == 0 && result == Raised(CircuitOpen) && b' == CB.MaybeHalfOpen(asked, cfg, r.seen)
    else
      && Decides(retry, Attempts(r), calls)
      && result == Verdict(retry, Attempts(r)(calls))
      && b' == CB.MaybeHalfOpen(if result.Returned? then CB.RecordSuccess(asked) else CB.RecordFailure(asked, cfg, r.done),
                                cfg, r.seen)
  }

  class ResilientProvider {
    const retry: RetryConfig
    const breaker: CB.CircuitBreaker
    var wasOpen: bool

    constructor (retry: RetryConfig, breaker: CB.CircuitBreaker)
      requires retry.Valid()
      ensures this.retry == retry && this.breaker == breaker && !wasOpen
    {
      this.retry, this.breaker, wasOpen := retry, breaker, false;
    }

    method Complete(r: Request) returns (result: Outcome<Response>, calls: nat)
      requires retry.Valid()
      modifies this, breaker
      ensures Completes(old(breaker.View()), breaker.cfg, retry, r, result, calls, breaker.View())
      ensures calls <= retry.maxAttempts
      ensures wasOpen <==> breaker.state == CB.Open
    {
      var allowed := breaker.Allow(r.asked);
      if !allowed {
        result, calls := Raised(CircuitOpen), 0;
      } else {
        var sleeps;
        result, calls, sleeps := RetryWithBackoff(retry, Attempts(r), r.jitter);
        if result.Raised? {
          breaker.Failed(r.done);
        } else {
          breaker.Succeeded();
        }
      }
      var seen := breaker.Observe(r.seen);
      wasOpen := seen == CB.Open;
    }
  }

  /** A blip that some retry survives leaves no trace on a closed breaker but a cleared count; a failure
      counts once however many attempts it took. */
  lemma OneOutcomePerCall(b: CB.Breaker, cfg: CB.Config, retry: RetryConfig, r: Request,
                             result: Outcome<Response>, calls: nat, b': CB.Breaker)
    requires retry.Valid() && cfg.Valid() && Completes(b, cfg, retry, r, result, calls, b')
    requires b.state == CB.Closed
    ensures calls >= 1
    ensures result.Returned? ==> b' == b.(failureCount := 0)
    ensures result.Raised? ==> b'.failureCount == b.failureCount + 1
    ensures result.Raised? && b.failureCount + 1 < cfg.failureThreshold ==> b'.state == CB.Closed
  {
  }

  /** The provider errors worth another attempt. */
  predicate WorthRetrying(e: RawError) {
    || e == Timeout || e == Transport || e == AlreadyTransient
    || (e.HttpStatus?
        && (e.code == 408 || e.code == 409 || e.code == 429
            || e.code == 500 || e.code == 502 || e.code == 503 || e.code == 504))
  }

  lemma ClassifiedRight(e: RawError)
    ensures ClassifyLlmError(e) == if WorthRetrying(e) then Transient else Permanent
  {
  }

  /** How every provider is wrapped: the transient errors are retried, and no others. */
  predicate RetriesTransient(retry: RetryConfig) {
    retry.Valid() && retry.retryable == {Transient}
  }

  predicate FailsWith(r: Request, k: nat, worth: bool) {
    r.op(k).Failure? && WorthRetrying(r.op(k).error) == worth
  }

  /** A blip is survived: if the breaker admits the call and some attempt within the limit is answered after timeouts,
      503s and the like only, that answer is returned, with no call beyond it. */
  lemma BlipSurvived(b: CB.Breaker, cfg: CB.Config, retry: RetryConfig, r: Request, result: Outcome<Response>,
                     calls: nat, b': CB.Breaker, n: nat)
    requires RetriesTransient(retry) && Completes(b, cfg, retry, r, result, calls, b')
    requires CB.AllowCall(b, cfg, r.asked).1
    requires 1 <= n <= retry.maxAttempts && r.op(n).Answer? && forall k :: 1 <= k < n ==> FailsWith(r, k, true)
    ensures calls == n && result == Returned(r.op(n).value)
  {
    forall k | 1 <= k < n
      ensures Attempts(r)(k).Raised? && Attempts(r)(k).error in retry.retryable
    {
      assert FailsWith(r, k, true);
      ClassifiedRight(r.op(k).error);
    }
    FirstSuccess(retry, Attempts(r), calls, n);
  }

  /** A rejected request costs one call. */
  lemma RejectionCostsOneCall(b: CB.Breaker, cfg: CB.Config, retry: RetryConfig, r: Request,
                              result: Outcome<Response>, calls: nat, b': CB.Breaker)
    requires RetriesTransient(retry) && Completes(b, cfg, retry, r, result, calls, b')
    requires CB.AllowCall(b, cfg, r.asked).1 && FailsWith(r, 1, false)
    ensures calls == 1 && result == Raised(Permanent)
  {
    ClassifiedRight(r.op(1).error);
    NotRetried(retry, Attempts(r), calls);
  }

  /** An outage costs all attempts, once. */
  lemma OutageExhausts(b: CB.Breaker, cfg: CB.Config, retry: RetryConfig, r: Request,
                       result: Outcome<Response>, calls: nat, b': CB.Breaker)
    requires RetriesTransient(retry) && Completes(b, cfg, retry, r, result, calls, b')
    requires CB.AllowCall(b, cfg, r.asked).1 && forall k :: 1 <= k <= retry.maxAttempts ==> FailsWith(r, k, true)
    ensures calls == retry.maxAttempts && result == Raised(Exhausted(retry.maxAttempts, Transient))
  {
    forall k | 1 <= k <= retry.maxAttempts
      ensures Attempts(r)(k).Raised? && Attempts(r)(k).error == Transient
    {
      assert FailsWith(r, k, true);
      ClassifiedRight(r.op(k).error);
    }
    AllFail(retry, Attempts(r), calls);
  }

  /** A refused call costs none. */
  lemma RefusalCostsNothing(b: CB.Breaker, cfg: CB.Config, retry: RetryConfig, r: Request,
                            result: Outcome<Response>, calls: nat, b': CB.Breaker)
    requires retry.Valid() && Completes(b, cfg, retry, r, result, calls, b')
    ensures (calls == 0) == !CB.AllowCall(b, cfg, r.asked).1 == (result == Raised(CircuitOpen))
  {
    if CB.AllowCall(b, cfg, r.asked).1 {
      VerdictIsNotOpen(retry, r, calls);
    }
  }

  lemma VerdictIsNotOpen(retry: RetryConfig, r: Request, calls: nat)
    requires retry.Valid()
    ensures Verdict(retry, Attempts(r)(calls)) != Raised(CircuitOpen)
  {
    assert Attempts(r)(calls) == Classified(r.op(calls));
    if r.op(calls).Failure? {
      ClassifiedRight(r.op(calls).error);
    }
  }

  /** A trial of a half-open breaker decides: an answer closes it, a failure opens it as of that instant. */
  lemma TrialDecides(b: CB.Breaker, cfg: CB.Config, retry: RetryConfig, r: Request, result: Outcome<Response>,
                     calls: nat, b': CB.Breaker)
    requires retry.Valid() && cfg.Valid() && Completes(b, cfg, retry, r, result, calls, b')
    requires b.state != CB.Closed && calls > 0 && r.done <= r.seen < r.done + cfg.recoveryTimeout
    ensures result.Returned? ==> b'.state == CB.Closed && b'.failureCount == 0
    ensures result.Raised? ==> b'.state == CB.Open && b'.lastFailureTime == Some(r.done)
  {
  }

  // --- Failover ----------------------------------------------------------------------------

  class IntelligenceService {
    const candidates: seq<ResilientProvider>

    /** Every candidate is built with its own breaker. */
    ghost predicate Valid() {
      && |candidates| >= 1
      && (forall i :: 0 <= i < |candidates| ==> candidates[i].retry.Valid())
      && (forall i, j :: 0 <= i < j < |candidates| ==>
                           candidates[i] != candidates[j] && candidates[i].breaker != candidates[j].breaker)
    }

    constructor (primary: ResilientProvider, fallbacks: seq<ResilientProvider>)
      requires forall i :: 0 <= i < |[primary] + fallbacks| ==> ([primary] + fallbacks)[i].retry.Valid()
      requires forall i, j :: 0 <= i < j < |[primary] + fallbacks| ==>
                                && ([primary] + fallbacks)[i] != ([primary] + fallbacks)[j]
                                && ([primary] + fallbacks)[i].breaker != ([primary] + fallbacks)[j].breaker
      ensures Valid() && candidates == [primary] + fallbacks
    {
      candidates := [primary] + fallbacks;
    }

    /** `requests[i]` is how candidate `i` would fare.  `results` and `calls` are those of the candidates tried. */
    method Complete(requests: seq<Request>) returns (results: seq<Outcome<Response>>, calls: seq<nat>)
      requires Valid() && |requests| == |candidates|
      modifies set p | p in candidates
      modifies set p | p in candidates :: p.breaker
      ensures 1 <= |results| == |calls| <= |candidates|
      // Each candidate tried behaved as it would have alone, on its own breaker …
      ensures forall i :: 0 <= i < |results| ==>
                  Completes(old(candidates[i].breaker.View()), candidates[i].breaker.cfg, candidates[i].retry, requests[i],
                            results[i], calls[i], candidates[i].breaker.View())
      ensures forall i :: 0 <= i < |results| ==> calls[i] <= candidates[i].retry.maxAttempts
      // … so that all together make at most candidates × max_attempts provider calls …
      ensures forall m: nat :: MaxAttemptsWithin(m) ==> Sum(calls) <= |candidates| * m
      // … all but the last one tried failed, and the last one failed only if none was left …
      ensures forall i :: 0 <= i < |results| - 1 ==> results[i].Raised?
      ensures results[|results| - 1].Raised? ==> |results| == |candidates|
      // … and the rest were not touched.
      ensures forall i :: |results| <= i < |candidates| ==> candidates[i].breaker.View() == old(candidates[i].breaker.View())
    {
      results, calls := [], [];
      for k := 0 to |candidates|
        invariant |results| == |calls| == k
        invariant forall i :: 0 <= i < k ==>
                  Completes(old(candidates[i].breaker.View()), candidates[i].breaker.cfg, candidates[i].retry, requests[i],
                            results[i], calls[i], candidates[i].breaker.View())
        invariant forall i :: 0 <= i < k ==> calls[i] <= candidates[i].retry.maxAttempts && results[i].Raised?
        invariant forall i :: k <= i < |candidates| ==> candidates[i].breaker.View() == old(candidates[i].breaker.View())
      {
        assert candidates[k] in candidates;
        var result, n := candidates[k].Complete(requests[k]);
        results, calls := results + [result], calls + [n];
        if result.Returned? {
          TotalCalls(calls);
          return;
        }
      }
      TotalCalls(calls);
    }

    /** No candidate allows more than `m` attempts. */
    ghost predicate MaxAttemptsWithin(m: nat) {
      forall i :: 0 <= i < |candidates| ==> candidates[i].retry.maxAttempts <= m
    }

    lemma TotalCalls(calls: seq<nat>)
      requires |calls| <= |candidates|
      requires forall i :: 0 <= i < |calls| ==> calls[i] <= candidates[i].retry.maxAttempts
      ensures forall m: nat :: MaxAttemptsWithin(m) ==> Sum(calls) <= |candidates| * m
    {
      forall m: nat | MaxAttemptsWithin(m)
        ensures Sum(calls) <= |candidates| * m
      {
        ServiceCallBound(calls, m, |candidates|);
      }
    }
  }

  // --- Many calls to one failing provider --------------------------------------------------

  /** Sequential logical calls, each asked after the one before was observed, from the instant `from` on. */
  ghost predicate Sequential(requests: seq<Request>, from: real) {
    && (forall i :: 0 <= i < |requests| ==> from <= requests[i].asked <= requests[i].done <= requests[i].seen)
    && (forall i, j :: 0 <= i < j < |requests| ==> requests[i].seen <= requests[j].asked)
  }

  ghost predicate AlwaysFails(r: Request) {
    forall k: nat :: r.op(k).Failure?
  }

  ghost predicate Serves(b: CB.Breaker, cfg: CB.Config, retry: RetryConfig, r: Request, calls: nat, b': CB.Breaker)
    requires retry.Valid()
  {
    exists result: Outcome<Response> :: Completes(b, cfg, retry, r, result, calls, b')
  }

  /** The breaker's states before each logical call and after the last one. */
  ghost predicate Served(cfg: CB.Config, retry: RetryConfig, requests: seq<Request>, calls: seq<nat>, states: seq<CB.Breaker>)
    requires retry.Valid()
  {
    && |calls| == |requests| && |states| == |requests| + 1
    && forall i :: 0 <= i < |requests| ==> Serves(states[i], cfg, retry, requests[i], calls[i], states[i + 1])
  }

  /** A closed breaker, fresh or not: whatever it has been through, it has fewer failures counted than its threshold. */
  predicate StartsClosed(b: CB.Breaker, cfg: CB.Config) {
    b.state == CB.Closed && b.failureCount < cfg.failureThreshold
  }

  /** `admitted` failures are counted so far, those counted at the start included: up to the threshold they just
      count; from then on the breaker is open, and each further one has cost a whole recovery timeout. */
  predicate Tally(b: CB.Breaker, cfg: CB.Config, from: real, upTo: real, admitted: nat) {
    && (admitted < cfg.failureThreshold ==> b.state == CB.Closed && b.failureCount == admitted)
    && (admitted >= cfg.failureThreshold ==>
          && b.state != CB.Closed && b.lastFailureTime.Some?
          && b.lastFailureTime.value <= upTo
          && (b.state == CB.HalfOpen ==> b.lastFailureTime.value + cfg.recoveryTimeout <= upTo)
          && Times(admitted - cfg.failureThreshold, cfg.recoveryTimeout) <= b.lastFailureTime.value - from)
  }

  lemma FailingCall(b: CB.Breaker, cfg: CB.Config, retry: RetryConfig, r: Request, calls: nat, b': CB.Breaker,
                    from: real, admitted: nat) returns (admitted': nat)
    requires cfg.Valid() && retry.Valid() && AlwaysFails(r) && Serves(b, cfg, retry, r, calls, b')
    requires from <= r.asked <= r.done <= r.seen && Tally(b, cfg, from, r.asked, admitted)
    ensures Tally(b', cfg, from, r.seen, admitted')
    ensures (admitted' == admitted && calls == 0) || (admitted' == admitted + 1 && calls <= retry.maxAttempts)
    ensures admitted' > admitted && admitted >= cfg.failureThreshold ==>
              Times(admitted' - cfg.failureThreshold, cfg.recoveryTimeout) <= r.asked - from
  {
    var result: Outcome<Response> :| Completes(b, cfg, retry, r, result, calls, b');
    admitted' := if CB.AllowCall(b, cfg, r.asked).1 then admitted + 1 else admitted;
    if admitted' > admitted {
      assert r.op(calls).Failure?;
      assert result.Raised?;
    }
  }

  lemma TallyLasts(b: CB.Breaker, cfg: CB.Config, from: real, upTo: real, later: real, admitted: nat)
    requires Tally(b, cfg, from, upTo, admitted) && upTo <= later
    ensures Tally(b, cfg, from, later, admitted)
  {
  }

  /** The instant from which the `n`-th call can be asked. */
  function ReadyAt(requests: seq<Request>, from: real, n: nat): real
    requires n <= |requests|
  {
    if n == 0 then from else requests[n - 1].seen
  }

  /** The extra admissions counted so far fit into the time until the last question. */
  predicate Spaced(cfg: CB.Config, admitted: nat, span: real) {
    admitted > cfg.failureThreshold ==> Times(admitted - cfg.failureThreshold, cfg.recoveryTimeout) <= span
  }

  /** One more logical call, asked some time after the last one was observed. */
  lemma NextFailingCall(b: CB.Breaker, cfg: CB.Config, retry: RetryConfig, r: Request, calls: nat, b': CB.Breaker,
                        from: real, upTo: real, span: real, before: nat) returns (admitted: nat)
    requires cfg.Valid() && retry.Valid() && AlwaysFails(r) && Serves(b, cfg, retry, r, calls, b')
    requires from <= r.asked <= r.done <= r.seen && upTo <= r.asked <= from + span
    requires Tally(b, cfg, from, upTo, before) && Spaced(cfg, before, span)
    ensures Tally(b', cfg, from, r.seen, admitted) && Spaced(cfg, admitted, span)
    ensures (admitted == before && calls == 0) || (admitted == before + 1 && calls <= retry.maxAttempts)
  {
    TallyLasts(b, cfg, from, upTo, r.asked, before);
    admitted := FailingCall(b, cfg, retry, r, calls, b', from, before);
  }

  lemma {:induction false} FailingCalls(cfg: CB.Config, retry: RetryConfig, requests: seq<Request>, calls: seq<nat>,
                                        states: seq<CB.Breaker>, from: real, span: real, n: nat) returns (admitted: nat)
    requires cfg.Valid() && retry.Valid() && Sequential(requests, from) && Served(cfg, retry, requests, calls, states)
    requires StartsClosed(states[0], cfg)
    requires forall i :: 0 <= i < |requests| ==> AlwaysFails(requests[i]) && requests[i].asked <= from + span
    requires n <= |requests|
    ensures Tally(states[n], cfg, from, ReadyAt(requests, from, n), admitted)
    ensures Spaced(cfg, admitted, span) && states[0].failureCount <= admitted
    ensures Sum(calls[..n]) <= (admitted - states[0].failureCount) * retry.maxAttempts
  {
    if n == 0 {
      admitted := states[0].failureCount;
    } else {
      var before := FailingCalls(cfg, retry, requests, calls, states, from, span, n - 1);
      var r, upTo := requests[n - 1], ReadyAt(requests, from, n - 1);
      assert upTo <= r.asked && Serves(states[n - 1], cfg, retry, r, calls[n - 1], states[n]);
      admitted := NextFailingCall(states[n - 1], cfg, retry, r, calls[n - 1], states[n], from, upTo, span, before);
      SumStep(calls, n - 1);
      AddCall(Sum(calls[..n - 1]), calls[n - 1], before - states[0].failureCount, admitted - states[0].failureCount,
              retry.maxAttempts);
    }
  }

  lemma AddCall(sum: nat, n: nat, before: nat, admitted: nat, m: nat)
    requires sum <= before * m
    requires (admitted == before && n == 0) || (admitted == before + 1 && n <= m)
    ensures sum + n <= admitted * m
  {
    OneMore(before, m);
  }

  lemma SumStep(calls: seq<nat>, n: nat)
    requires n < |calls|
    ensures Sum(calls[..n + 1]) == Sum(calls[..n]) + calls[n]
  {
    assert calls[..n + 1] == calls[..n] + [calls[n]];
  }

  lemma OneMore(a: nat, m: nat)
    ensures (a + 1) * m == a * m + m
  {
  }

  /** However many logical calls ask one always-failing candidate within `span`, starting closed, the provider is
      called at most max_attempts × (failures left to the threshold + ⌊span / recovery_timeout⌋) times. */
  lemma RetryStormBound(cfg: CB.Config, retry: RetryConfig, requests: seq<Request>, calls: seq<nat>,
                        states: seq<CB.Breaker>, from: real, span: real)
    requires cfg.Valid() && retry.Valid() && Sequential(requests, from) && Served(cfg, retry, requests, calls, states)
    requires StartsClosed(states[0], cfg)
    requires forall i :: 0 <= i < |requests| ==> AlwaysFails(requests[i]) && requests[i].asked <= from + span
    requires span >= 0.0
    ensures Sum(calls) <= (cfg.failureThreshold - states[0].failureCount + (span / cfg.recoveryTimeout).Floor)
                          * retry.maxAttempts
  {
    var admitted := FailingCalls(cfg, retry, requests, calls, states, from, span, |requests|);
    assert calls[..|requests|] == calls;
    SpacedFits(cfg, admitted, span);
    ScaleNat(admitted - states[0].failureCount,
             cfg.failureThreshold - states[0].failureCount + (span / cfg.recoveryTimeout).Floor, retry.maxAttempts);
  }

  /** Every closed breaker of every trace is such a start. */
  lemma ClosedStarts(states: seq<CB.System>, events: seq<CB.Event>, cfg: CB.Config, k: nat)
    requires cfg.Valid() && CB.Trace(states, events, cfg) && k < |states|
    ensures states[k].b.state == CB.Closed <==> StartsClosed(states[k].b, cfg)
  {
    CB.TraceInv(states, events, cfg, k);
  }

  lemma SpacedFits(cfg: CB.Config, admitted: nat, span: real)
    requires cfg.Valid() && Spaced(cfg, admitted, span) && span >= 0.0
    ensures admitted <= cfg.failureThreshold + (span / cfg.recoveryTimeout).Floor
  {
    var q, k := span / cfg.recoveryTimeout, admitted - cfg.failureThreshold;
    if k > 0 {
      TimesIsProduct(k, cfg.recoveryTimeout);
      BelowQuotient(k as real, q, cfg.recoveryTimeout);
    } else {
      BelowQuotient(0.0, q, cfg.recoveryTimeout);
    }
  }

  lemma BelowQuotient(k: real, q: real, r: real)
    requires k * r <= q * r && r >= 1.0
    ensures k <= q
  {
    assert (k - q) * r <= 0.0;
  }

  lemma ScaleNat(a: nat, b: nat, m: nat)
    requires a <= b
    ensures a * m <= b * m
  {
  }

  function Sum(xs: seq<nat>): nat {
    if xs == [] then 0 else Sum(xs[..|xs| - 1]) + xs[|xs| - 1]
  }

  /** At most `candidates` numbers, each at most `maxAttempts`, add up to no more than their product. */
  lemma {:induction false} ServiceCallBound(calls: seq<nat>, maxAttempts: nat, candidates: nat)
    requires |calls| <= candidates && forall i :: 0 <= i < |calls| ==> calls[i] <= maxAttempts
    ensures Sum(calls) <= candidates * maxAttempts
  {
    if calls == [] {
    } else {
      ServiceCallBound(calls[..|calls| - 1], maxAttempts, candidates - 1);
      assert candidates * maxAttempts == (candidates - 1) * maxAttempts + maxAttempts;
    }
  }
}
