/** What an item was scheduled with is honoured by every claim of every run. */
module ScheduleRuns {
  import opened Prelude
  import opened WorkModel
  import opened WorkSessions
  import opened WorkProtocol
  import opened WorkSafety
  import opened WorkRuns
  import opened ClaimRules
  import R = WorkRow

  /** The columns nobody writes after `schedule`. */
  predicate SameTerms(it: Item, wakeKind: WakeKind, wakeEvent: Option<string>, watermark: Option<Time>,
                      expiresAt: Option<Time>, maxAttempts: int)
  {
    && it.wakeKind == wakeKind && it.wakeEvent == wakeEvent && it.watermark == watermark
    && it.expiresAt == expiresAt && it.maxAttempts == maxAttempts
  }

  /** Before the first claim the row has its wake instant; the first claim has not come before that instant. */
  predicate NotEarly(it: Item, wakeAt: Time, now: Time) {
    && (it.attempts == 0 ==> it.availableAt == wakeAt)
    && (it.attempts > 0 ==> wakeAt <= now)
  }

  lemma ChangeKeepsTerms(it: Item, c: R.Change, now: Time, wakeAt: Time)
    requires R.ItemOk(it) && R.Allowed(it, c, now) && NotEarly(it, wakeAt, now)
    requires c.Lease? && it.attempts == 0 ==> it.availableAt <= now
    ensures var it' := R.Apply(it, c);
            && SameTerms(it', it.wakeKind, it.wakeEvent, it.watermark, it.expiresAt, it.maxAttempts)
            && NotEarly(it', wakeAt, now)
  {
  }

  /** A claim leases a row that was never leased only when it is due. */
  lemma FirstLeaseIsDue(s: State, step: Step, s': State, id: Id)
    requires Next(s, step, s') && step.Claim? && RowsOk(s) && id in s.db.items && id in step.batch.claimed
    ensures s.db.items[id].attempts == 0 ==> s.db.items[id].status == Pending && s.db.items[id].availableAt <= s.now
  {
    assert R.ItemOk(s.db.items[id]);
    ClaimIsSeen(s, step, s', id);
  }

  lemma StepKeepsTerms(s: State, step: Step, s': State, id: Id, wakeAt: Time)
    requires Next(s, step, s') && RowsOk(s) && id in s.db.items && NotEarly(s.db.items[id], wakeAt, s.now)
    ensures id in s'.db.items && NotEarly(s'.db.items[id], wakeAt, s'.now)
    ensures var it := s.db.items[id];
            SameTerms(s'.db.items[id], it.wakeKind, it.wakeEvent, it.watermark, it.expiresAt, it.maxAttempts)
  {
    RowChanges(s, step, s', id);
    TimeMoves(s, step, s');
    if step.Claim? && id in step.batch.claimed {
      FirstLeaseIsDue(s, step, s', id);
    }
    LeaseIsClaim(s, step, s', id);
    ChangeKeepsTerms(s.db.items[id], ChangeOf(s, step, id), s.now, wakeAt);
  }

  lemma LeaseIsClaim(s: State, step: Step, s': State, id: Id)
    requires Next(s, step, s') && id in s.db.items
    ensures step.Claim? || step.Beat? ==> step.worker in s.workers
    ensures ChangeOf(s, step, id).Lease? ==> step.Claim? && id in step.batch.claimed
  {
  }

  lemma ScheduleWrites(s: State, step: Step, s': State)
    requires Next(s, step, s') && step.Schedule?
    ensures s'.now == s.now && step.id in s'.db.items && step.id !in s.db.items
    ensures s'.db.items[step.id]
         == NewItem(step.wakeAt, step.maxAttempts, step.wakeKind, step.wakeEvent, step.expiresAt, s.now)
  {
  }

  /** In every run, from the step that schedules an item on: nobody changes what it was scheduled with, and its wake
      instant stands until the first claim, which does not come before it. */
  lemma {:induction false} TermsKept(states: seq<State>, steps: seq<Step>, i: nat, j: nat)
    requires Run(states, steps) && i < j < |states| && steps[i].Schedule?
    ensures var id, it := steps[i].id, states[j].db.items;
            && id in it && NotEarly(it[id], steps[i].wakeAt, states[j].now)
            && SameTerms(it[id], steps[i].wakeKind, steps[i].wakeEvent,
                         if steps[i].wakeKind == EventWake then Some(states[i].now) else None, steps[i].expiresAt,
                         if steps[i].maxAttempts < 1 then 1 else steps[i].maxAttempts)
  {
    assert StepAt(states, steps, j - 1);
    if j == i + 1 {
      ScheduleWrites(states[i], steps[i], states[i + 1]);
    } else {
      TermsKept(states, steps, i, j - 1);
      RunInv(states, steps, j - 1);
      StepKeepsTerms(states[j - 1], steps[j - 1], states[j], steps[i].id, steps[i].wakeAt);
    }
  }

  /** No claim takes an item before its wake instant. */
  lemma NeverEarly(states: seq<State>, steps: seq<Step>, i: nat, j: nat)
    requires Run(states, steps) && i < j < |steps| && steps[i].Schedule?
    requires steps[j].Claim? && steps[i].id in steps[j].batch.claimed
    ensures steps[i].wakeAt <= states[j].now
  {
    TermsKept(states, steps, i, j);
    RunInv(states, steps, j);
    assert StepAt(states, steps, j);
    FirstLeaseIsDue(states[j], steps[j], states[j + 1], steps[i].id);
  }

  /** No claim takes a waiting item at or after its deadline, nor an event wait without a signal of the awaited name
      emitted after the instant of scheduling. */
  lemma WaitHonoured(states: seq<State>, steps: seq<Step>, i: nat, j: nat)
    requires Run(states, steps) && i < j < |steps| && steps[i].Schedule?
    requires steps[j].Claim? && steps[i].id in steps[j].batch.claimed
    requires steps[i].id in states[j].db.items && states[j].db.items[steps[i].id].status == Pending
    ensures steps[i].expiresAt.Some? ==> states[j].now < steps[i].expiresAt.value
    ensures steps[i].wakeKind == EventWake ==>
              exists sig :: sig in states[j].db.ledger && steps[i].wakeEvent == Some(sig.name)
                            && sig.emittedAt > states[i].now
  {
    var id := steps[i].id;
    TermsKept(states, steps, i, j);
    assert StepAt(states, steps, j);
    ClaimHasAReason(states[j], steps[j], states[j + 1], id);
  }

  lemma ClaimHasAReason(s: State, step: Step, s': State, id: Id)
    requires Next(s, step, s') && step.Claim? && id in step.batch.claimed && id in s.db.items
    requires s.db.items[id].status == Pending
    ensures var it := s.db.items[id];
            && it.availableAt <= s.now && (it.expiresAt.Some? ==> s.now < it.expiresAt.value)
            && (it.wakeKind == EventWake ==>
                  it.watermark.Some? && exists sig :: sig in s.db.ledger && it.wakeEvent == Some(sig.name)
                                                      && sig.emittedAt > it.watermark.value)
  {
    TakenForAReason(s.db.items, s.db.ledger, s.now, step.worker, s.workers[step.worker].lease, step.limit, step.locked,
                    step.batch, s'.db.items, id);
  }

  /** An item is never started more often than it was scheduled for. */
  lemma AttemptsHonoured(states: seq<State>, steps: seq<Step>, i: nat, j: nat)
    requires Run(states, steps) && i < j < |states| && steps[i].Schedule?
    ensures states[j].starts[steps[i].id] <= if steps[i].maxAttempts < 1 then 1 else steps[i].maxAttempts
  {
    TermsKept(states, steps, i, j);
    BoundedWork(states, steps, j, steps[i].id);
  }
}
