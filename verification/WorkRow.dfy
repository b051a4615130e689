/** One row of `work_items` through its life: the changes a session can make to it, what every
    change keeps, and what a worker that claimed it may go on believing. */
module WorkRow {
  import opened Prelude
  import opened WorkModel
  import opened WorkSessions

  datatype Change =
    | Same
    | Expire
    | Lease(owner: Worker, until: Time)
    | Kill
    | Run(owner: Worker)
    | Extend(owner: Worker, until: Time)
    | Finish(owner: Worker)
    | Die(owner: Worker)
    | Retry(owner: Worker, at: Time)
    | Withdraw

  function Apply(it: Item, c: Change): Item {
    match c
    case Same => it
    case Expire => it.(status := Dead)
    case Lease(w, until) =>
      it.(status := Leased, leaseOwner := Some(w), leaseExpiresAt := Some(until), attempts := it.attempts + 1)
    case Kill => it.Release(Dead)
    case Run(_) => it.(status := Running)
    case Extend(_, until) => it.(leaseExpiresAt := Some(until))
    case Finish(_) => it.Release(Succeeded)
    case Die(_) => it.Release(Dead)
    case Retry(_, at) => it.Release(Pending).(availableAt := at)
    case Withdraw => it.Release(Cancelled)
  }

  predicate Allowed(it: Item, c: Change, now: Time) {
    match c
    case Same => true
    case Expire => it.status == Pending
    case Lease(_, _) => it.status == Pending || (LeaseLapsed(it, now) && it.attempts < it.maxAttempts)
    case Kill => LeaseLapsed(it, now) && it.attempts >= it.maxAttempts
    case Run(w) => it.status == Leased && it.OwnedBy(w)
    case Extend(w, _) => it.OwnedBy(w)
    case Finish(w) => it.OwnedBy(w)
    case Die(w) => it.OwnedBy(w) && it.attempts >= it.maxAttempts
    case Retry(w, _) => it.OwnedBy(w) && it.attempts < it.maxAttempts
    case Withdraw => !it.Terminal()
  }

  // --- What every change keeps -------------------------------------------------------------

  predicate ItemOk(it: Item) {
    && (it.InFlight() <==> it.leaseOwner.Some?)
    && (it.InFlight() <==> it.leaseExpiresAt.Some?)
    && 1 <= it.maxAttempts && it.attempts <= it.maxAttempts
    && (it.status == Pending ==> it.attempts < it.maxAttempts)
    && (it.InFlight() ==> 1 <= it.attempts)
    && it.status != Failed
    && (it.wakeKind == EventWake ==> it.wakeEvent.Some? && it.watermark.Some?)
  }

  lemma ChangeKeepsItemOk(it: Item, c: Change, now: Time)
    requires ItemOk(it) && Allowed(it, c, now)
    ensures ItemOk(Apply(it, c))
    ensures it.Terminal() ==> Apply(it, c) == it
    ensures Apply(it, c).attempts >= it.attempts && Apply(it, c).maxAttempts == it.maxAttempts
    ensures Apply(it, c).wakeKind == it.wakeKind && Apply(it, c).wakeEvent == it.wakeEvent
    ensures Apply(it, c).watermark == it.watermark
  {
  }

  function Rank(status: Status): nat {
    match status
    case Leased => 3
    case Running => 2
    case Pending => 1
    case _ => 0
  }

  /** The work an item can still cause. */
  function Budget(it: Item): int {
    4 * (it.maxAttempts - it.attempts) + Rank(it.status)
  }

  /** Only a heartbeat touches a row without using up some of its budget. */
  lemma ChangeSpendsBudget(it: Item, c: Change, now: Time)
    requires ItemOk(it) && Allowed(it, c, now)
    ensures Budget(Apply(it, c)) >= 0
    ensures c.Same? || c.Extend? || Budget(Apply(it, c)) < Budget(it)
    ensures c.Same? || c.Extend? ==> Budget(Apply(it, c)) == Budget(it)
  {
  }

  // --- What a claim entitles a worker to believe -------------------------------------------

  /** Worker `w`, whose leases last `lease`, has `t` in process; `it` is the row. */
  predicate TokenOk(it: Item, now: Time, w: Worker, lease: Time, t: Token) {
    // Its attempt is not from the future, and its fence opens only for that attempt.
    && 1 <= t.attempt <= it.attempts
    && (it.OwnedBy(w) ==> it.attempts == t.attempt)
    // While the grant runs, it is still the recorded owner, unless it reported or the item was cancelled.
    && (now <= t.until && t.phase != Reported && it.status != Cancelled ==>
          it.OwnedBy(w) && it.leaseExpiresAt.Some? && t.until <= it.leaseExpiresAt.value)
    && (t.phase == Reported ==> it.Terminal())
    && t.until <= now + lease
  }

  predicate ActsFor(c: Change, w: Worker) {
    (c.Lease? || c.Run? || c.Extend? || c.Finish? || c.Die? || c.Retry?) && c.owner == w
  }

  /** What others do to the row leaves the belief intact. */
  lemma TokenSurvivesOthers(it: Item, c: Change, now: Time, w: Worker, lease: Time, t: Token)
    requires ItemOk(it) && Allowed(it, c, now) && TokenOk(it, now, w, lease, t)
    requires !ActsFor(c, w)
    ensures TokenOk(Apply(it, c), now, w, lease, t)
  {
  }

  lemma TokenAges(it: Item, now: Time, later: Time, w: Worker, lease: Time, t: Token)
    requires TokenOk(it, now, w, lease, t) && now <= later
    ensures TokenOk(it, later, w, lease, t)
  {
  }

  /** A write by the token's worker, and the token afterwards. */
  predicate OwnStep(c: Change, now: Time, w: Worker, lease: Time, t: Token, t': Token) {
    || (c == Run(w) && (t' == t || t' == t.(phase := Handling)) && t.phase == Queued)
    || (c == Extend(w, now + lease) && (t' == t || t' == t.(until := now + lease)))
    || (c == Finish(w) && t' == t.(phase := Reported))
  }

  /** The worker's own writes keep it too: a start, a heartbeat (heard or not), a lost success report. */
  lemma TokenSurvivesOwn(it: Item, c: Change, now: Time, w: Worker, lease: Time, t: Token, t': Token)
    requires ItemOk(it) && Allowed(it, c, now) && TokenOk(it, now, w, lease, t)
    requires OwnStep(c, now, w, lease, t, t')
    ensures TokenOk(Apply(it, c), now, w, lease, t')
  {
  }

  /** Of two workers' tokens at most one is extended, and only if the other has expired. */
  lemma TokensExclude(it: Item, c: Change, now: Time, v: Worker, vLease: Time, t: Token, t': Token,
                      w: Worker, wLease: Time, u: Token, u': Token)
    requires ItemOk(it) && Allowed(it, c, now) && v != w
    requires TokenOk(it, now, v, vLease, t) && TokenOk(it, now, w, wLease, u)
    requires (t' == t && !ActsFor(c, v)) || OwnStep(c, now, v, vLease, t, t')
    requires (u' == u && !ActsFor(c, w)) || OwnStep(c, now, w, wLease, u, u')
    requires !(now <= t.until && now <= u.until)
    ensures t'.attempt == t.attempt && u'.attempt == u.attempt
    ensures !(now <= t'.until && now <= u'.until)
  {
  }

  /** Nobody can be given the row while another grant on it still runs. */
  lemma GrantBlocksLease(it: Item, now: Time, w: Worker, lease: Time, t: Token, other: Worker, until: Time)
    requires ItemOk(it) && TokenOk(it, now, w, lease, t)
    requires Allowed(it, Lease(other, until), now)
    ensures t.until < now
  {
  }
}
