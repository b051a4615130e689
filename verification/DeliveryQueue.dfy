/** Outbound deliveries as recoverable state: bounded attempts, geometric backoff, an age horizon. */
module DeliveryQueue {
  import opened Prelude

  type Time = real
  type Id = string

  datatype DeliveryStatus = Pending | Delivered | Failed

  datatype Delivery = Delivery(status: DeliveryStatus, attempts: nat, maxAttempts: int, createdAt: Time,
                               nextAttemptAt: Option<Time>, deliveredAt: Option<Time>)

  datatype Policy = Policy(backoff: real, factor: real, maxAge: real)

  /** What the interface router does with an attempt. */
  datatype Send = NoInterface | SenderRaised | SenderReturned

  function Power(x: real, n: nat): real {
    if n == 0 then 1.0 else Power(x, n - 1) * x
  }

  /** The wait after failed attempt `n`, from 0: the base wait, scaled by the factor `n` times. */
  function Delay(q: Policy, n: nat): real {
    if n == 0 then q.backoff else Delay(q, n - 1) * q.factor
  }

  lemma {:induction false} DelayIsPower(q: Policy, n: nat)
    ensures Delay(q, n) == q.backoff * Power(q.factor, n)
  {
    if n > 0 {
      DelayIsPower(q, n - 1);
      assert q.backoff * (Power(q.factor, n - 1) * q.factor) == (q.backoff * Power(q.factor, n - 1)) * q.factor;
    }
  }

  predicate PastHorizon(d: Delivery, q: Policy, now: Time) { now - d.createdAt > q.maxAge }

  /** One attempt that starts at `start` and whose send is over at `end`. */
  function AfterAttempt(d: Delivery, q: Policy, start: Time, end: Time, send: Send): Delivery {
    if d.status != Pending then d
    else if PastHorizon(d, q, start) then d.(status := Failed)
    else if send == SenderReturned then d.(status := Delivered, deliveredAt := Some(end))
    else if d.attempts + 1 >= d.maxAttempts then d.(attempts := d.attempts + 1, status := Failed)
    else d.(attempts := d.attempts + 1, nextAttemptAt := Some(end + Delay(q, d.attempts)))
  }

  /** Whether the router is reached at all. */
  predicate Tries(d: Delivery, q: Policy, start: Time) {
    d.status == Pending && !PastHorizon(d, q, start)
  }

  predicate Stale(d: Delivery, q: Policy, now: Time) {
    d.status == Pending && d.createdAt < now - q.maxAge
  }

  predicate RetryDueNow(d: Delivery, now: Time) {
    d.status == Pending && (d.nextAttemptAt == None || d.nextAttemptAt.value <= now)
  }

  function CreatedAt(records: map<Id, Delivery>): map<Id, Time> {
    map id | id in records :: records[id].createdAt
  }

  function DueRecords(records: map<Id, Delivery>, now: Time): set<Id> {
    set id | id in records && RetryDueNow(records[id], now)
  }

  function StaleRecords(records: map<Id, Delivery>, q: Policy, now: Time): set<Id> {
    set id | id in records && Stale(records[id], q, now)
  }

  function DeliveredAmong(ids: seq<Id>, records: map<Id, Delivery>): set<Id> {
    set id | id in ids && id in records && records[id].status == Delivered
  }

  /** One attempt each for the records in `ids`, the others untouched. */
  function AttemptEach(records: map<Id, Delivery>, ids: seq<Id>, q: Policy, plan: map<Id, Turn>): map<Id, Delivery>
    requires records.Keys <= plan.Keys
  {
    map id | id in records ::
      if id in ids then AfterAttempt(records[id], q, plan[id].start, plan[id].end, plan[id].send) else records[id]
  }

  lemma AttemptOneMore(records: map<Id, Delivery>, tried: seq<Id>, id: Id, q: Policy, plan: map<Id, Turn>)
    requires records.Keys <= plan.Keys && id in records && id !in tried
    ensures var now, next := AttemptEach(records, tried, q, plan), AttemptEach(records, tried + [id], q, plan);
            && now[id] == records[id]
            && next == now[id := AfterAttempt(records[id], q, plan[id].start, plan[id].end, plan[id].send)]
            && |DeliveredAmong(tried + [id], next)|
               == |DeliveredAmong(tried, now)| + (if next[id].status == Delivered then 1 else 0)
  {
    var now, next := AttemptEach(records, tried, q, plan), AttemptEach(records, tried + [id], q, plan);
    assert DeliveredAmong(tried + [id], next)
        == DeliveredAmong(tried, now) + (if next[id].status == Delivered then {id} else {});
  }

  function FailEach(records: map<Id, Delivery>, ids: set<Id>): map<Id, Delivery> {
    map id | id in records :: if id in ids then records[id].(status := Failed) else records[id]
  }

  /** When one attempt of a sweep starts and ends, and how it fares. */
  datatype Turn = Turn(start: Time, end: Time, send: Send)

  /** What one attempt does to the columns of a record: nothing once it has ended, nothing but failure past the horizon,
      and otherwise what the sender did, the last failure being final. */
  predicate AttemptColumns(d: Delivery, d': Delivery, q: Policy, t: Turn) {
    if d.status != Pending then d' == d
    else if t.start - d.createdAt > q.maxAge then d' == d.(status := Failed)
    else if t.send == SenderReturned then d' == d.(status := Delivered, deliveredAt := Some(t.end))
    else if d.attempts + 1 >= d.maxAttempts then d' == d.(status := Failed, attempts := d.attempts + 1)
    else
      d' == d.(attempts := d.attempts + 1, nextAttemptAt := Some(t.end + q.backoff * Power(q.factor, d.attempts)))
  }

  lemma AttemptWrites(d: Delivery, q: Policy, t: Turn)
    ensures AttemptColumns(d, AfterAttempt(d, q, t.start, t.end, t.send), q, t)
  {
    DelayIsPower(q, d.attempts);
  }

  class DeliveryQueue {
    const policy: Policy
    var records: map<Id, Delivery>

    constructor (policy: Policy)
      ensures this.policy == policy && records == map[]
    {
      this.policy, records := policy, map[];
    }

    method Enqueue(id: Id, maxAttempts: int, now: Time)
      requires id !in records
      modifies this
      ensures records == old(records)[id := Delivery(Pending, 0, maxAttempts, now, None, None)]
    {
      records := records[id := Delivery(Pending, 0, maxAttempts, now, None, None)];
    }

    method Attempt(id: Id, t: Turn) returns (delivered: bool)
      requires id in records
      modifies this
      ensures records == old(records)[id := AfterAttempt(old(records)[id], policy, t.start, t.end, t.send)]
      ensures delivered <==> records[id].status == Delivered
      ensures AttemptColumns(old(records)[id], records[id], policy, t)
    {
      var d := records[id];
      AttemptWrites(d, policy, t);
      if d.status != Pending {
        assert records == records[id := d];
        return d.status == Delivered;
      }
      if t.start - d.createdAt > policy.maxAge {
        records := records[id := d.(status := Failed)];
        return false;
      }
      if t.send == SenderReturned {
        records := records[id := d.(status := Delivered, deliveredAt := Some(t.end))];
        return true;
      }
      var attempts := d.attempts + 1;
      if attempts >= d.maxAttempts {
        records := records[id := d.(attempts := attempts, status := Failed)];
        return false;
      }
      var wait := policy.backoff * Power(policy.factor, attempts - 1);
      DelayIsPower(policy, d.attempts);
      assert wait == Delay(policy, d.attempts);
      records := records[id := d.(attempts := attempts, nextAttemptAt := Some(t.end + wait))];
      delivered := false;
    }

    /** Retries the `limit` oldest due records; `plan` says how each attempt goes. */
    method RetryDue(now: Time, limit: nat, plan: map<Id, Turn>) returns (due: seq<Id>, delivered: nat)
      requires records.Keys <= plan.Keys
      // Clocks do not run backwards.
      requires forall id :: id in plan ==> now <= plan[id].start <= plan[id].end
      modifies this
      ensures IsOldestFirst(due, DueRecords(old(records), now), CreatedAt(old(records)), limit)
      // Only pending records whose wait is over are retried, and all of them if there is room.
      ensures |due| <= limit
      ensures forall id :: id in due ==>
                && id in old(records) && old(records)[id].status == Pending
                && (old(records)[id].nextAttemptAt.None? || old(records)[id].nextAttemptAt.value <= now)
      ensures forall id ::
                && id in old(records) && old(records)[id].status == Pending && id !in due
                && (old(records)[id].nextAttemptAt.None? || old(records)[id].nextAttemptAt.value <= now) ==>
                  && |due| == limit
                  && forall x :: x in due && x in old(records) ==> old(records)[x].createdAt <= old(records)[id].createdAt
      ensures records == AttemptEach(old(records), due, policy, plan)
      ensures records.Keys == old(records).Keys
      ensures forall id :: id in old(records) ==>
                if id in due then AttemptColumns(old(records)[id], records[id], policy, plan[id])
                else records[id] == old(records)[id]
      ensures delivered == |DeliveredAmong(due, records)|
      // No attempt starts before the wait it ends is over.
      ensures forall id :: id in due ==> Paced(old(records)[id], Attempted(plan[id]))
    {
      ghost var before := records;
      due := OldestFirst(DueRecords(records, now), CreatedAt(records), limit);
      DueMeansWaitIsOver(records, now, limit, due);
      delivered := 0;
      assert DeliveredAmong([], records) == {};
      for k := 0 to |due|
        invariant records == AttemptEach(before, due[..k], policy, plan)
        invariant delivered == |DeliveredAmong(due[..k], records)|
      {
        var id := due[k];
        assert due[..k + 1] == due[..k] + [id] && id !in due[..k];
        AttemptOneMore(before, due[..k], id, policy, plan);
        var ok := Attempt(id, plan[id]);
        if ok {
          delivered := delivered + 1;
        }
      }
      assert due[..|due|] == due;
      forall id | id in due
        ensures AttemptColumns(before[id], records[id], policy, plan[id])
      {
        AttemptWrites(before[id], policy, plan[id]);
      }
    }

    /** Fails up to `limit` (200 in the source) stale records. */
    method ExpireStale(now: Time, limit: nat) returns (stale: set<Id>)
      modifies this
      ensures stale <= StaleRecords(old(records), policy, now)
      ensures |stale| == Min(limit, |StaleRecords(old(records), policy, now)|)
      ensures records == FailEach(old(records), stale)
      // Only pending records past the horizon fail, and all of them if there is room.
      ensures forall id :: id in stale ==>
                id in old(records) && old(records)[id].status == Pending && now - old(records)[id].createdAt > policy.maxAge
      ensures |stale| < limit ==>
                forall id ::
                  && id in old(records) && old(records)[id].status == Pending
                  && now - old(records)[id].createdAt > policy.maxAge ==>
                    id in stale
    {
      ghost var before := records;
      var rest := StaleRecords(records, policy, now);
      ghost var all := rest;
      stale := {};
      while rest != {} && |stale| < limit
        invariant stale <= all && rest == all - stale && |stale| <= limit && |stale| + |rest| == |all|
        invariant records == FailEach(before, stale)
        decreases rest
      {
        var id :| id in rest;
        records := records[id := records[id].(status := Failed)];
        stale, rest := stale + {id}, rest - {id};
      }
    }
  }

  /** What the retry query selects, on the columns of the records. */
  lemma DueMeansWaitIsOver(records: map<Id, Delivery>, now: Time, limit: nat, due: seq<Id>)
    requires IsOldestFirst(due, DueRecords(records, now), CreatedAt(records), limit)
    ensures |due| <= limit
    ensures forall id :: id in due ==>
              && id in records && records[id].status == Pending
              && (records[id].nextAttemptAt.None? || records[id].nextAttemptAt.value <= now)
    ensures forall id ::
              && id in records && records[id].status == Pending && id !in due
              && (records[id].nextAttemptAt.None? || records[id].nextAttemptAt.value <= now) ==>
                && |due| == limit
                && forall x :: x in due && x in records ==> records[x].createdAt <= records[id].createdAt
  {
    forall id |
      && id in records && records[id].status == Pending && id !in due
      && (records[id].nextAttemptAt.None? || records[id].nextAttemptAt.value <= now)
      ensures |due| == limit
      ensures forall x :: x in due && x in records ==> records[x].createdAt <= records[id].createdAt
    {
      assert id in DueRecords(records, now);
      ElemsCard(due);
      assert DueRecords(records, now) == Elems(due) + (DueRecords(records, now) - Elems(due));
      assert id in DueRecords(records, now) - Elems(due);
    }
  }

  /** After a failed attempt that is not the last one, the record is due again exactly from base × factor^failures
      after the end of that attempt on. */
  lemma DueAgainAt(d: Delivery, q: Policy, start: Time, end: Time, send: Send, now: Time)
    requires d.status == Pending && send != SenderReturned && d.attempts + 1 < d.maxAttempts
    requires start - d.createdAt <= q.maxAge
    ensures var d' := AfterAttempt(d, q, start, end, send);
            && d'.status == Pending && d'.attempts == d.attempts + 1
            && (RetryDueNow(d', now) <==> now >= end + q.backoff * Power(q.factor, d.attempts))
  {
    DelayIsPower(q, d.attempts);
  }

  // --- The life of one record --------------------------------------------------------------

  datatype Event = Attempted(turn: Turn) | Expired(now: Time)

  /** A record with what has happened to it: when each real try started, the sender calls made, and those
      that returned normally. */
  datatype Life = Life(d: Delivery, tries: seq<Time>, sends: nat, returned: nat)

  function Born(maxAttempts: int, now: Time): Life {
    Life(Delivery(Pending, 0, maxAttempts, now, None, None), [], 0, 0)
  }

  function After(l: Life, q: Policy, e: Event): Life {
    match e
    case Expired(now) => if Stale(l.d, q, now) then l.(d := l.d.(status := Failed)) else l
    case Attempted(t) =>
      if !Tries(l.d, q, t.start) then l.(d := AfterAttempt(l.d, q, t.start, t.end, t.send))
      else Life(AfterAttempt(l.d, q, t.start, t.end, t.send), l.tries + [t.start],
                if t.send == NoInterface then l.sends else l.sends + 1,
                if t.send == SenderReturned then l.returned + 1 else l.returned)
  }

  /** The state after the first `n` events. */
  function Lived(maxAttempts: int, born: Time, q: Policy, events: seq<Event>, n: nat): Life
    requires n <= |events|
  {
    if n == 0 then Born(maxAttempts, born) else After(Lived(maxAttempts, born, q, events, n - 1), q, events[n - 1])
  }

  predicate Bounded(l: Life) {
    && l.d.attempts + l.returned <= Max(1, l.d.maxAttempts)
    && (l.d.status == Pending ==> l.d.attempts < Max(1, l.d.maxAttempts))
    && l.sends <= l.d.attempts + l.returned
    && l.returned == (if l.d.status == Delivered then 1 else 0)
    && |l.tries| == l.d.attempts + l.returned
  }

  /** At most max_attempts sender calls are made (one, if that is not positive), at most one returns
      normally, and the record is delivered exactly if one did. */
  lemma {:induction false} SendsBounded(maxAttempts: int, born: Time, q: Policy, events: seq<Event>, n: nat)
    requires n <= |events|
    ensures var l := Lived(maxAttempts, born, q, events, n);
            && Bounded(l) && l.d.maxAttempts == maxAttempts && l.d.createdAt == born
            && l.sends <= Max(1, maxAttempts) && l.returned <= 1
            && (l.d.status == Delivered <==> l.returned == 1)
  {
    if n > 0 {
      SendsBounded(maxAttempts, born, q, events, n - 1);
    }
  }

  /** Delivered and failed are final. */
  lemma {:induction false} EndsAreFinal(maxAttempts: int, born: Time, q: Policy, events: seq<Event>, m: nat, n: nat)
    requires m <= n <= |events| && Lived(maxAttempts, born, q, events, m).d.status != Pending
    ensures Lived(maxAttempts, born, q, events, n) == Lived(maxAttempts, born, q, events, m)
  {
    if m < n {
      EndsAreFinal(maxAttempts, born, q, events, m, n - 1);
    }
  }

  /** `attempt` and `expire_stale` agree on every pending record at every instant: either both end it the same
      way and nothing is sent, or neither does. */
  lemma HorizonAgrees(d: Delivery, q: Policy, now: Time, end: Time, send: Send)
    requires d.status == Pending
    ensures Stale(d, q, now) <==> !Tries(d, q, now)
    ensures Stale(d, q, now) ==> AfterAttempt(d, q, now, end, send) == d.(status := Failed)
    ensures !Stale(d, q, now) ==> AfterAttempt(d, q, now, end, send) != d
  {
  }

  // --- Pacing ------------------------------------------------------------------------------

  /** base × (1 + factor + … + factor^(n-1)) */
  function Geometric(q: Policy, n: nat): real {
    if n == 0 then 0.0 else Geometric(q, n - 1) + Delay(q, n - 1)
  }

  lemma {:induction false} GeometricClosedForm(q: Policy, n: nat)
    ensures Geometric(q, n) * (q.factor - 1.0) == q.backoff * (Power(q.factor, n) - 1.0)
  {
    if n > 0 {
      GeometricClosedForm(q, n - 1);
      var sum, power := Geometric(q, n - 1), Power(q.factor, n - 1);
      LastTerm(q, n);
      OneMoreTerm(sum, Geometric(q, n), q.backoff, power, Power(q.factor, n), q.factor);
    }
  }

  lemma LastTerm(q: Policy, n: nat)
    requires n > 0
    ensures Geometric(q, n) == Geometric(q, n - 1) + q.backoff * Power(q.factor, n - 1)
    ensures Power(q.factor, n) == Power(q.factor, n - 1) * q.factor
  {
    DelayIsPower(q, n - 1);
  }

  lemma OneMoreTerm(sum: real, sum': real, base: real, power: real, power': real, factor: real)
    requires sum * (factor - 1.0) == base * (power - 1.0)
    requires sum' == sum + base * power && power' == power * factor
    ensures sum' * (factor - 1.0) == base * (power' - 1.0)
  {
    assert (sum + base * power) * (factor - 1.0) == sum * (factor - 1.0) + (base * power) * (factor - 1.0);
    assert (base * power) * (factor - 1.0) == base * (power * factor) - base * power;
  }

  /** Retries come only through the sweep: an attempt starts no earlier than the sweep that found the record due,
      and ends no earlier than it starts. */
  predicate Paced(d: Delivery, e: Event) {
    e.Attempted? ==>
      && e.turn.start <= e.turn.end
      && (d.status == Pending && d.nextAttemptAt.Some? ==> d.nextAttemptAt.value <= e.turn.start)
  }

  /** What `retry_due` does to a record is so paced: it attempts, at `now` or later, records it finds due at `now`. */
  predicate FromSweep(d: Delivery, e: Event, now: Time) {
    e.Attempted? ==> RetryDueNow(d, now) && now <= e.turn.start <= e.turn.end
  }

  ghost predicate AllFromSweeps(maxAttempts: int, born: Time, q: Policy, events: seq<Event>, sweeps: seq<Time>) {
    && |sweeps| == |events|
    && forall k :: 0 <= k < |events| ==> SweptAt(maxAttempts, born, q, events, sweeps, k)
  }

  /** Event `k` comes from a sweep at `sweeps[k]`. */
  predicate SweptAt(maxAttempts: int, born: Time, q: Policy, events: seq<Event>, sweeps: seq<Time>, k: nat)
    requires k < |events| == |sweeps|
  {
    FromSweep(Lived(maxAttempts, born, q, events, k).d, events[k], sweeps[k])
  }

  lemma SweepIsPaced(d: Delivery, e: Event, now: Time)
    requires FromSweep(d, e, now)
    ensures Paced(d, e)
  {
  }

  predicate PacedAt(maxAttempts: int, born: Time, q: Policy, events: seq<Event>, k: nat)
    requires k < |events|
  {
    Paced(Lived(maxAttempts, born, q, events, k).d, events[k])
  }

  ghost predicate AllPaced(maxAttempts: int, born: Time, q: Policy, events: seq<Event>) {
    forall k :: 0 <= k < |events| ==> PacedAt(maxAttempts, born, q, events, k)
  }

  ghost predicate Spread(l: Life, q: Policy) {
    && (forall j :: 0 <= j < |l.tries| ==> l.tries[j] >= l.tries[0] + Geometric(q, j))
    && (l.d.status == Pending && |l.tries| > 0 ==>
          l.d.nextAttemptAt.Some? && l.d.nextAttemptAt.value >= l.tries[0] + Geometric(q, |l.tries|))
  }

  lemma {:induction false} TriesSpread(maxAttempts: int, born: Time, q: Policy, events: seq<Event>, n: nat)
    requires AllPaced(maxAttempts, born, q, events) && n <= |events|
    ensures Spread(Lived(maxAttempts, born, q, events, n), q)
  {
    if n > 0 {
      TriesSpread(maxAttempts, born, q, events, n - 1);
      SendsBounded(maxAttempts, born, q, events, n - 1);
      assert PacedAt(maxAttempts, born, q, events, n - 1);
      SpreadStep(Lived(maxAttempts, born, q, events, n - 1), q, events[n - 1]);
    }
  }

  lemma SpreadStep(l: Life, q: Policy, e: Event)
    requires Bounded(l) && Spread(l, q) && Paced(l.d, e)
    ensures Spread(After(l, q, e), q)
  {
    if e.Attempted? && Tries(l.d, q, e.turn.start) {
      var l' := After(l, q, e);
      var n := |l.tries|;
      assert n == l.d.attempts;
      assert l'.tries == l.tries + [e.turn.start];
      assert Geometric(q, n + 1) == Geometric(q, n) + Delay(q, n);
      assert l'.tries[n] >= l'.tries[0] + Geometric(q, n);
    }
  }

  /** The gap between the first try and try j+1. */
  function Gap(l: Life, j: nat): real
    requires j < |l.tries|
  {
    l.tries[j] - l.tries[0]
  }

  /** `gap` is at least base × (factor^j − 1) / (factor − 1), multiplied out. */
  predicate PastClosedForm(q: Policy, j: nat, gap: real) {
    gap * (q.factor - 1.0) >= q.backoff * (Power(q.factor, j) - 1.0)
  }

  /** Try j+1 starts no earlier than the first try plus base × (factor^j − 1) / (factor − 1). */
  lemma RetryPacing(maxAttempts: int, born: Time, q: Policy, events: seq<Event>, n: nat, j: nat)
    requires AllPaced(maxAttempts, born, q, events) && n <= |events| && q.factor > 1.0
    requires j < |Lived(maxAttempts, born, q, events, n).tries|
    ensures Gap(Lived(maxAttempts, born, q, events, n), j) >= Geometric(q, j)
    ensures PastClosedForm(q, j, Gap(Lived(maxAttempts, born, q, events, n), j))
  {
    GapSpread(maxAttempts, born, q, events, n, j);
    PastGeometric(q, j, Gap(Lived(maxAttempts, born, q, events, n), j));
  }

  /** In particular when every attempt comes from a sweep; an immediate first attempt looks like one, being due at once. */
  lemma SweptRetryPacing(maxAttempts: int, born: Time, q: Policy, events: seq<Event>, sweeps: seq<Time>, n: nat, j: nat)
    requires AllFromSweeps(maxAttempts, born, q, events, sweeps) && n <= |events| && q.factor > 1.0
    requires j < |Lived(maxAttempts, born, q, events, n).tries|
    ensures PastClosedForm(q, j, Gap(Lived(maxAttempts, born, q, events, n), j))
  {
    forall k | 0 <= k < |events|
      ensures PacedAt(maxAttempts, born, q, events, k)
    {
      assert SweptAt(maxAttempts, born, q, events, sweeps, k);
      SweepIsPaced(Lived(maxAttempts, born, q, events, k).d, events[k], sweeps[k]);
    }
    RetryPacing(maxAttempts, born, q, events, n, j);
  }

  lemma GapSpread(maxAttempts: int, born: Time, q: Policy, events: seq<Event>, n: nat, j: nat)
    requires AllPaced(maxAttempts, born, q, events) && n <= |events|
    requires j < |Lived(maxAttempts, born, q, events, n).tries|
    ensures Gap(Lived(maxAttempts, born, q, events, n), j) >= Geometric(q, j)
  {
    TriesSpread(maxAttempts, born, q, events, n);
  }

  lemma PastGeometric(q: Policy, j: nat, gap: real)
    requires gap >= Geometric(q, j) && q.factor > 1.0
    ensures PastClosedForm(q, j, gap)
  {
    GeometricClosedForm(q, j);
    ScaleUp(Geometric(q, j), gap, q.factor - 1.0);
  }

  lemma ScaleUp(a: real, b: real, x: real)
    requires a <= b && x > 0.0
    ensures a * x <= b * x
  {
  }
}
