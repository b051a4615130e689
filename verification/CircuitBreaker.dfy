/** The circuit breaker: its operations, and its invariants when calls overlap and outcomes come late. */
module CircuitBreaker {
  import opened Prelude

  datatype CircuitState = Closed | Open | HalfOpen

  datatype Config = Config(failureThreshold: int, recoveryTimeout: real, halfOpenMaxCalls: nat) {
    predicate Valid() { failureThreshold >= 1 && recoveryTimeout >= 1.0 }
  }

  datatype Breaker = Breaker(state: CircuitState, failureCount: nat, successCount: nat,
                             lastFailureTime: Option<real>, halfOpenCalls: nat)

  const FRESH := Breaker(Closed, 0, 0, None, 0)

  function MaybeHalfOpen(b: Breaker, cfg: Config, now: real): Breaker {
    if b.state == Open && b.lastFailureTime.Some? && now - b.lastFailureTime.value >= cfg.recoveryTimeout
    then b.(state := HalfOpen, halfOpenCalls := 0)
    else b
  }

  function AllowCall(b: Breaker, cfg: Config, now: real): (Breaker, bool) {
    var m := MaybeHalfOpen(b, cfg, now);
    if m.state == Closed then (m, true)
    else if m.state == HalfOpen && m.halfOpenCalls < cfg.halfOpenMaxCalls
    then (m.(halfOpenCalls := m.halfOpenCalls + 1), true)
    else (m, false)
  }

  function RecordFailure(b: Breaker, cfg: Config, now: real): Breaker {
    var f := b.(failureCount := b.failureCount + 1, lastFailureTime := Some(now));
    if b.state == HalfOpen then f.(state := Open, halfOpenCalls := 0)
    else if f.failureCount >= cfg.failureThreshold then f.(state := Open)
    else f
  }

  function RecordSuccess(b: Breaker): Breaker {
    match b.state
    case HalfOpen => b.(successCount := b.successCount + 1, state := Closed, failureCount := 0, halfOpenCalls := 0)
    case Closed => b.(failureCount := 0)
    case Open => b
  }

  class CircuitBreaker {
    const cfg: Config
    var state: CircuitState
    var failureCount: nat
    var successCount: nat
    var lastFailureTime: Option<real>
    var halfOpenCalls: nat

    /** The source raises ValueError for an invalid configuration. */
    constructor (cfg: Config)
      requires cfg.Valid()
      ensures this.cfg == cfg && View() == FRESH
    {
      this.cfg := cfg;
      state, failureCount, successCount, lastFailureTime, halfOpenCalls := Closed, 0, 0, None, 0;
    }

    ghost function View(): Breaker
      reads this
    {
      Breaker(state, failureCount, successCount, lastFailureTime, halfOpenCalls)
    }

    method MaybeTransitionToHalfOpen(now: real)
      modifies this
      ensures View() == MaybeHalfOpen(old(View()), cfg, now)
    {
      if state != Open || lastFailureTime == None {
        return;
      }
      if now - lastFailureTime.value >= cfg.recoveryTimeout {
        state := HalfOpen;
        halfOpenCalls := 0;
      }
    }

    method Observe(now: real) returns (s: CircuitState)
      modifies this
      ensures View() == MaybeHalfOpen(old(View()), cfg, now) && s == state
    {
      MaybeTransitionToHalfOpen(now);
      s := state;
    }

    method Allow(now: real) returns (allowed: bool)
      modifies this
      ensures (View(), allowed) == AllowCall(old(View()), cfg, now)
    {
      MaybeTransitionToHalfOpen(now);
      if state == Closed {
        return true;
      }
      if state == Open {
        return false;
      }
      if halfOpenCalls < cfg.halfOpenMaxCalls {
        halfOpenCalls := halfOpenCalls + 1;
        return true;
      }
      allowed := false;
    }

    method Failed(now: real)
      modifies this
      ensures View() == RecordFailure(old(View()), cfg, now)
    {
      failureCount := failureCount + 1;
      lastFailureTime := Some(now);
      if state == HalfOpen {
        state := Open;
        halfOpenCalls := 0;
      } else if failureCount >= cfg.failureThreshold {
        state := Open;
      }
    }

    method Succeeded()
      modifies this
      ensures View() == RecordSuccess(old(View()))
    {
      if state == HalfOpen {
        successCount := successCount + 1;
        state := Closed;
        failureCount := 0;
        halfOpenCalls := 0;
      } else if state == Closed {
        failureCount := 0;
      }
    }

    method Reset()
      modifies this
      ensures View() == FRESH
    {
      state, failureCount, successCount, lastFailureTime, halfOpenCalls := Closed, 0, 0, None, 0;
    }
  }

  // --- Overlapping calls -------------------------------------------------------------------

  /** An admitted call in flight: a trial of the half-open episode `Some(e)`, or admitted while closed. */
  type Ticket = Option<nat>

  /** `episode` counts the half-open episodes so far; `lastFailure` is the instant of the newest failure
      since the last reset. */
  datatype System = System(b: Breaker, now: real, episode: nat, inFlight: multiset<Ticket>, lastFailure: Option<real>)

  datatype Event =
    | Wait(to: real)
    | Look
    | Ask
    | Fails(ticket: Ticket)
    | Succeeds(ticket: Ticket)
    | ResetAll

  function Episode(s: System, cfg: Config): nat {
    if MaybeHalfOpen(s.b, cfg, s.now) != s.b then s.episode + 1 else s.episode
  }

  predicate CanHappen(s: System, e: Event) {
    match e
    case Wait(to) => s.now <= to
    case Fails(ticket) => ticket in s.inFlight
    case Succeeds(ticket) => ticket in s.inFlight
    case _ => true
  }

  function After(s: System, cfg: Config, e: Event): System {
    match e
    case Wait(to) => s.(now := to)
    case Look => s.(b := MaybeHalfOpen(s.b, cfg, s.now), episode := Episode(s, cfg))
    case Ask =>
      var (b, allowed) := AllowCall(s.b, cfg, s.now);
      s.(b := b, episode := Episode(s, cfg),
         inFlight := if allowed then s.inFlight + multiset{if b.state == HalfOpen then Some(Episode(s, cfg)) else None}
                     else s.inFlight)
    case Fails(ticket) =>
      s.(b := RecordFailure(s.b, cfg, s.now), inFlight := s.inFlight - multiset{ticket}, lastFailure := Some(s.now))
    case Succeeds(ticket) => s.(b := RecordSuccess(s.b), inFlight := s.inFlight - multiset{ticket})
    case ResetAll => s.(b := FRESH, lastFailure := None)
  }

  /** Closed exactly below the threshold; while half-open, the slot counter is the number of this episode's
      trials still in flight, and there are never more of them than allowed. */
  ghost predicate Inv(s: System, cfg: Config) {
    && (s.b.state == Closed <==> s.b.failureCount < cfg.failureThreshold)
    && (s.b.state != Closed ==> s.b.lastFailureTime.Some?)
    && s.b.lastFailureTime == s.lastFailure
    && (s.lastFailure.Some? ==> s.lastFailure.value <= s.now)
    && (forall e :: Some(e) in s.inFlight ==> e <= s.episode)
    && (s.b.state == HalfOpen ==>
          s.b.halfOpenCalls == s.inFlight[Some(s.episode)] && s.b.halfOpenCalls <= cfg.halfOpenMaxCalls)
  }

  /** A new breaker, before any call. */
  predicate Starts(s: System) {
    s.b == FRESH && s.inFlight == multiset{} && s.lastFailure == None
  }

  lemma InitialInv(s: System, cfg: Config)
    requires cfg.Valid() && Starts(s)
    ensures Inv(s, cfg)
  {
  }

  lemma EventKeepsInv(s: System, cfg: Config, e: Event)
    requires cfg.Valid() && Inv(s, cfg) && CanHappen(s, e)
    ensures Inv(After(s, cfg, e), cfg)
  {
    if Episode(s, cfg) == s.episode + 1 {
      assert Some(s.episode + 1) !in s.inFlight;
    }
  }

  ghost predicate Trace(states: seq<System>, events: seq<Event>, cfg: Config) {
    && |states| == |events| + 1 && Starts(states[0])
    && forall k :: 0 <= k < |events| ==> StepAt(states, events, cfg, k)
  }

  ghost predicate StepAt(states: seq<System>, events: seq<Event>, cfg: Config, k: nat)
    requires k < |events| && |states| == |events| + 1
  {
    CanHappen(states[k], events[k]) && states[k + 1] == After(states[k], cfg, events[k])
  }

  lemma {:induction false} TraceInv(states: seq<System>, events: seq<Event>, cfg: Config, k: nat)
    requires cfg.Valid() && Trace(states, events, cfg) && k < |states|
    ensures Inv(states[k], cfg)
  {
    if k > 0 {
      TraceInv(states, events, cfg, k - 1);
      assert StepAt(states, events, cfg, k - 1);
      EventKeepsInv(states[k - 1], cfg, events[k - 1]);
    } else {
      InitialInv(states[0], cfg);
    }
  }

  /** The breaker would admit a call asked now. */
  predicate Admits(s: System, cfg: Config) {
    AllowCall(s.b, cfg, s.now).1
  }

  /** What admission means at any instant of any trace: below the threshold always; otherwise never earlier
      than the recovery timeout after the newest failure, and never beyond the trial slots. */
  lemma AdmissionRule(states: seq<System>, events: seq<Event>, cfg: Config, k: nat)
    requires cfg.Valid() && Trace(states, events, cfg) && k < |states|
    ensures states[k].b.failureCount < cfg.failureThreshold ==> Admits(states[k], cfg)
    ensures states[k].b.state == Open && Admits(states[k], cfg) ==>
              states[k].lastFailure.Some? && states[k].now >= states[k].lastFailure.value + cfg.recoveryTimeout
    ensures states[k].b.state == HalfOpen ==>
              (Admits(states[k], cfg) <==> states[k].inFlight[Some(states[k].episode)] < cfg.halfOpenMaxCalls)
  {
    TraceInv(states, events, cfg, k);
  }

  /** Exactly when a call asked now is admitted, in any state of any trace, and what it does to the trial slots. */
  lemma AdmissionIff(states: seq<System>, events: seq<Event>, cfg: Config, k: nat)
    requires cfg.Valid() && Trace(states, events, cfg) && k < |states|
    ensures var s := states[k];
            && (s.b.state == Closed ==> Admits(s, cfg))
            && (s.b.state == Open ==>
                  (Admits(s, cfg) <==> && s.lastFailure.Some? && s.now - s.lastFailure.value >= cfg.recoveryTimeout
                                       && cfg.halfOpenMaxCalls > 0))
            && (s.b.state == HalfOpen ==> (Admits(s, cfg) <==> s.b.halfOpenCalls < cfg.halfOpenMaxCalls))
            && (Admits(s, cfg) && s.b.state != Closed ==>
                  && AllowCall(s.b, cfg, s.now).0.state == HalfOpen
                  && AllowCall(s.b, cfg, s.now).0.halfOpenCalls == (if s.b.state == Open then 1 else s.b.halfOpenCalls + 1))
  {
    TraceInv(states, events, cfg, k);
  }

  /** Before the recovery timeout after a failure is over, no event but a reset moves an open breaker: late failures
      only push the end of that time back, and late successes do nothing at all. */
  lemma OpenStep(s: System, cfg: Config, e: Event, since: real)
    requires cfg.Valid() && Inv(s, cfg) && CanHappen(s, e) && !e.ResetAll?
    requires s.b.state == Open && s.lastFailure.Some? && since <= s.lastFailure.value
    requires After(s, cfg, e).now < since + cfg.recoveryTimeout
    ensures var s' := After(s, cfg, e);
            && s'.b.state == Open && s'.lastFailure.Some? && since <= s'.lastFailure.value
            && (e.Succeeds? ==> s'.b == s.b)
  {
  }

  lemma {:induction false} NowGrows(states: seq<System>, events: seq<Event>, cfg: Config, i: nat, j: nat)
    requires Trace(states, events, cfg) && i <= j < |states|
    ensures states[i].now <= states[j].now
  {
    if i < j {
      NowGrows(states, events, cfg, i, j - 1);
      assert StepAt(states, events, cfg, j - 1);
    }
  }

  /** Open means open: for a whole recovery timeout after its newest failure an open breaker stays open and admits
      nothing, whatever outcomes of earlier calls come in meanwhile, unless somebody resets it. */
  lemma {:induction false} StaysOpen(states: seq<System>, events: seq<Event>, cfg: Config, i: nat, j: nat)
    requires cfg.Valid() && Trace(states, events, cfg) && i <= j < |states|
    requires states[i].b.state == Open && forall k :: i <= k < j ==> !events[k].ResetAll?
    requires states[i].lastFailure.Some? ==> states[j].now < states[i].lastFailure.value + cfg.recoveryTimeout
    ensures states[i].lastFailure.Some? && states[j].lastFailure.Some?
    ensures states[i].lastFailure.value <= states[j].lastFailure.value
    ensures states[j].b.state == Open && !Admits(states[j], cfg)
  {
    TraceInv(states, events, cfg, i);
    if i < j {
      assert StepAt(states, events, cfg, j - 1);
      NowGrows(states, events, cfg, j - 1, j);
      StaysOpen(states, events, cfg, i, j - 1);
      TraceInv(states, events, cfg, j - 1);
      OpenStep(states[j - 1], cfg, events[j - 1], states[i].lastFailure.value);
      TraceInv(states, events, cfg, j);
    }
    RefusesUntilRecovered(states[j], cfg);
  }

  lemma RefusesUntilRecovered(s: System, cfg: Config)
    requires Inv(s, cfg) && s.b.state == Open && s.lastFailure.Some? && s.now < s.lastFailure.value + cfg.recoveryTimeout
    ensures !Admits(s, cfg)
  {
  }

  /** The failures among the first `k` events that no later success or reset has followed. */
  function FailuresInARow(events: seq<Event>, k: nat): nat
    requires k <= |events|
  {
    if k == 0 then 0
    else if events[k - 1].Fails? then FailuresInARow(events, k - 1) + 1
    else if events[k - 1].Succeeds? || events[k - 1].ResetAll? then 0
    else FailuresInARow(events, k - 1)
  }

  /** The half-open episodes among the first `k` events that a success has ended since the last reset. */
  function Recoveries(states: seq<System>, events: seq<Event>, k: nat): nat
    requires k <= |events| < |states|
  {
    if k == 0 || events[k - 1].ResetAll? then 0
    else Recoveries(states, events, k - 1) + (if events[k - 1].Succeeds? && states[k - 1].b.state == HalfOpen then 1 else 0)
  }

  lemma EventCountsFailure(s: System, cfg: Config, e: Event, inARow: nat)
    requires cfg.Valid() && Inv(s, cfg) && CanHappen(s, e) && (s.b.state == Closed ==> s.b.failureCount == inARow)
    requires After(s, cfg, e).b.state == Closed
    ensures After(s, cfg, e).b.failureCount
         == (if e.Fails? then inARow + 1 else if e.Succeeds? || e.ResetAll? then 0 else inARow)
  {
  }

  lemma EventCountsRecovery(s: System, cfg: Config, e: Event)
    ensures After(s, cfg, e).b.successCount
         == (if e.ResetAll? then 0 else s.b.successCount + if e.Succeeds? && s.b.state == HalfOpen then 1 else 0)
  {
  }

  /** A closed breaker counts the failures in a row, and so opens at exactly the threshold of them; the success counter
      counts the recoveries. */
  lemma {:induction false} CountsFailuresInARow(states: seq<System>, events: seq<Event>, cfg: Config, k: nat)
    requires cfg.Valid() && Trace(states, events, cfg) && k < |states|
    ensures states[k].b.state == Closed ==>
              states[k].b.failureCount == FailuresInARow(events, k) < cfg.failureThreshold
    ensures states[k].b.successCount == Recoveries(states, events, k)
  {
    if k > 0 {
      CountsFailuresInARow(states, events, cfg, k - 1);
      TraceInv(states, events, cfg, k - 1);
      assert StepAt(states, events, cfg, k - 1);
      if states[k].b.state == Closed {
        EventCountsFailure(states[k - 1], cfg, events[k - 1], FailuresInARow(events, k - 1));
        TraceInv(states, events, cfg, k);
      }
      EventCountsRecovery(states[k - 1], cfg, events[k - 1]);
    }
  }

  /** The failure that makes it as many as the threshold opens a closed breaker; one fewer does not. */
  lemma OpensAtTheThreshold(states: seq<System>, events: seq<Event>, cfg: Config, k: nat)
    requires cfg.Valid() && Trace(states, events, cfg) && k < |events|
    requires states[k].b.state == Closed && events[k].Fails?
    ensures states[k + 1].b.state == (if FailuresInARow(events, k + 1) >= cfg.failureThreshold then Open else Closed)
  {
    CountsFailuresInARow(states, events, cfg, k);
    assert StepAt(states, events, cfg, k);
  }

  /** The recovery timeout since the newest failure is over. */
  predicate Recovered(s: System, cfg: Config) {
    s.lastFailure.Some? ==> s.now >= s.lastFailure.value + cfg.recoveryTimeout
  }

  /** No outcome can come any more that would change anything, and no call is admitted. */
  predicate Wedged(s: System, cfg: Config) {
    !Admits(s, cfg) && s.inFlight == multiset{}
  }

  /** Once the recovery timeout is over the breaker is wedged only if it was configured without trial slots:
      otherwise it admits a call, or a trial in flight will free it, whatever the trial's outcome. */
  lemma NeverWedged(states: seq<System>, events: seq<Event>, cfg: Config, k: nat)
    requires cfg.Valid() && Trace(states, events, cfg) && k < |states| && Recovered(states[k], cfg)
    ensures Wedged(states[k], cfg) <==>
            cfg.halfOpenMaxCalls == 0 && states[k].inFlight == multiset{} && states[k].b.failureCount >= cfg.failureThreshold
  {
    TraceInv(states, events, cfg, k);
  }

  lemma Extended(states: seq<System>, events: seq<Event>, cfg: Config, e: Event)
    returns (states': seq<System>, events': seq<Event>)
    requires Trace(states, events, cfg) && CanHappen(states[|events|], e)
    ensures Trace(states', events', cfg) && states'[|events'|] == After(states[|events|], cfg, e)
  {
    states', events' := states + [After(states[|events|], cfg, e)], events + [e];
    forall k | 0 <= k < |events'|
      ensures StepAt(states', events', cfg, k)
    {
      assert k < |events| ==> StepAt(states, events, cfg, k);
    }
  }

  /** A closed breaker after `n` calls in a row have failed at instant 0. */
  function AfterFailures(cfg: Config, n: nat): System {
    System(Breaker(if n < cfg.failureThreshold then Closed else Open, n, 0, if n == 0 then None else Some(0.0), 0),
           0.0, 0, multiset{}, if n == 0 then None else Some(0.0))
  }

  lemma OneMoreFailure(cfg: Config, n: nat)
    requires cfg.Valid() && n < cfg.failureThreshold
    ensures var asked := After(AfterFailures(cfg, n), cfg, Ask);
            CanHappen(asked, Fails(None)) && After(asked, cfg, Fails(None)) == AfterFailures(cfg, n + 1)
  {
    var ticket: Ticket := None;
    assert multiset{ticket} - multiset{ticket} == multiset{};
  }

  lemma {:induction false} FailuresTrip(cfg: Config, n: nat) returns (states: seq<System>, events: seq<Event>)
    requires cfg.Valid() && n <= cfg.failureThreshold
    ensures Trace(states, events, cfg) && states[|events|] == AfterFailures(cfg, n)
  {
    if n == 0 {
      states, events := [AfterFailures(cfg, 0)], [];
    } else {
      states, events := FailuresTrip(cfg, n - 1);
      OneMoreFailure(cfg, n - 1);
      states, events := Extended(states, events, cfg, Ask);
      states, events := Extended(states, events, cfg, Fails(None));
    }
  }

  /** Without half-open calls the breaker does get wedged: as many failures as the threshold, and a wait. */
  lemma WedgeIsReached(cfg: Config) returns (states: seq<System>, events: seq<Event>)
    requires cfg.Valid() && cfg.halfOpenMaxCalls == 0
    ensures Trace(states, events, cfg) && Recovered(states[|events|], cfg) && Wedged(states[|events|], cfg)
  {
    states, events := FailuresTrip(cfg, cfg.failureThreshold);
    states, events := Extended(states, events, cfg, Wait(cfg.recoveryTimeout));
  }

  /** And it stays wedged, whatever is tried, until somebody resets it. */
  lemma WedgeStays(s: System, cfg: Config, e: Event)
    requires cfg.Valid() && Inv(s, cfg) && Wedged(s, cfg) && cfg.halfOpenMaxCalls == 0
    requires CanHappen(s, e) && !e.ResetAll?
    ensures Wedged(After(s, cfg, e), cfg)
  {
  }

  lemma TrialFrees(s: System, cfg: Config, ticket: Ticket)
    requires cfg.Valid() && Inv(s, cfg) && s.b.state == HalfOpen && ticket in s.inFlight
    ensures After(s, cfg, Succeeds(ticket)).b.state == Closed && After(s, cfg, Succeeds(ticket)).b.failureCount == 0
    ensures After(s, cfg, Fails(ticket)).b.state == Open && After(s, cfg, Fails(ticket)).lastFailure == Some(s.now)
  {
  }
}
