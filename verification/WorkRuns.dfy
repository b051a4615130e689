/** What holds over whole runs of the work protocol, however the sessions interleave. */
module WorkRuns {
  import opened Prelude
  import opened WorkModel
  import opened WorkSessions
  import opened WorkRow
  import opened WorkProtocol
  import opened WorkSafety
  import Retention
  import SignalNames

  ghost predicate Run(states: seq<State>, steps: seq<Step>) {
    && |states| == |steps| + 1
    && Init(states[0])
    && forall k :: 0 <= k < |steps| ==> StepAt(states, steps, k)
  }

  ghost predicate StepAt(states: seq<State>, steps: seq<Step>, k: nat)
    requires k < |steps| && |states| == |steps| + 1
  {
    Next(states[k], steps[k], states[k + 1])
  }

  lemma {:induction false} RunInv(states: seq<State>, steps: seq<Step>, k: nat)
    requires Run(states, steps) && k < |states|
    ensures Inv(states[k])
  {
    if k == 0 {
      InitInv(states[0]);
    } else {
      RunInv(states, steps, k - 1);
      assert StepAt(states, steps, k - 1);
      InvStep(states[k - 1], steps[k - 1], states[k]);
    }
  }

  // --- Leases ------------------------------------------------------------------------------

  lemma {:induction false} TokenKept(states: seq<State>, steps: seq<Step>, i: nat, j: nat, w: Worker, id: Id)
    requires Run(states, steps) && i <= j < |states|
    requires forall k :: i <= k <= j ==> Holds(states[k], w, id)
    ensures TokenOf(states[j], w, id).attempt == TokenOf(states[i], w, id).attempt
    ensures TokenOf(states[i], w, id).until <= TokenOf(states[j], w, id).until
  {
    if i < j {
      TokenKept(states, steps, i, j - 1, w, id);
      RunInv(states, steps, j - 1);
      assert StepAt(states, steps, j - 1);
      TokenStays(states[j - 1], steps[j - 1], states[j], w, id);
    }
  }

  /** A grant received at `i` holds for as long as it runs: at any later instant up to its end the
      worker, if it still has the item in process and has not reported it, is the recorded owner
      of the very attempt it was granted, under a lease at least as long, unless the item was cancelled. */
  lemma GrantHonoured(states: seq<State>, steps: seq<Step>, i: nat, j: nat, w: Worker, id: Id)
    requires Run(states, steps) && i <= j < |states|
    requires forall k :: i <= k <= j ==> Holds(states[k], w, id)
    requires states[j].now <= TokenOf(states[i], w, id).until
    requires TokenOf(states[j], w, id).phase != Reported
    ensures id in states[j].db.items
    ensures states[j].db.items[id].status != Cancelled ==>
              && states[j].db.items[id].OwnedBy(w)
              && states[j].db.items[id].attempts == TokenOf(states[i], w, id).attempt
              && states[j].db.items[id].leaseExpiresAt.Some?
              && states[j].db.items[id].leaseExpiresAt.value >= TokenOf(states[i], w, id).until
  {
    TokenKept(states, steps, i, j, w, id);
    RunInv(states, steps, j);
  }

  /** Two workers never hold unexpired grants on one item, nor the same attempt of it. */
  lemma MutualExclusion(states: seq<State>, steps: seq<Step>, k: nat, v: Worker, w: Worker, id: Id)
    requires Run(states, steps) && k < |states|
    requires Holds(states[k], v, id) && Holds(states[k], w, id)
    requires (Unexpired(states[k], v, id) && Unexpired(states[k], w, id))
             || TokenOf(states[k], v, id).attempt == TokenOf(states[k], w, id).attempt
    ensures v == w
  {
    RunInv(states, steps, k);
    assert v != w ==> Exclusive(states[k], v, w, id);
  }

  predicate WritesFor(step: Step, w: Worker, id: Id) {
    (step.Start? || step.Beat? || step.Succeed? || step.Fail?) && step.worker == w && step.id == id
  }

  /** A session about an item changes the tables only while its worker owns the very attempt it was granted. */
  lemma FencedWrites(states: seq<State>, steps: seq<Step>, k: nat, w: Worker, id: Id)
    requires Run(states, steps) && k < |steps| && WritesFor(steps[k], w, id)
    requires Holds(states[k], w, id)
    ensures states[k + 1].db != states[k].db ==>
              && id in states[k].db.items && states[k].db.items[id].OwnedBy(w)
              && states[k].db.items[id].attempts == TokenOf(states[k], w, id).attempt
  {
    RunInv(states, steps, k);
    assert StepAt(states, steps, k);
    assert id in states[k].db.items;
    if !states[k].db.items[id].OwnedBy(w) {
      UnownedWriteIsVoid(states[k], steps[k], states[k + 1], w, id);
    }
  }

  lemma UnownedWriteIsVoid(s: State, step: Step, s': State, w: Worker, id: Id)
    requires Next(s, step, s') && WritesFor(step, w, id) && Holds(s, w, id) && id in s.db.items
    requires !s.db.items[id].OwnedBy(w)
    ensures s'.db == s.db
  {
  }

  /** The late write of a worker whose item has moved on to another attempt leaves everything as it is. */
  lemma ZombieWritesNothing(states: seq<State>, steps: seq<Step>, k: nat, w: Worker, id: Id)
    requires Run(states, steps) && k < |steps| && WritesFor(steps[k], w, id)
    requires Holds(states[k], w, id) && id in states[k].db.items
    requires states[k].db.items[id].attempts != TokenOf(states[k], w, id).attempt
    ensures states[k + 1].db == states[k].db && states[k + 1].announced == states[k].announced
  {
    FencedWrites(states, steps, k, w, id);
    assert StepAt(states, steps, k);
    VoidWriteIsSilent(states[k], steps[k], states[k + 1], w, id);
  }

  lemma VoidWriteIsSilent(s: State, step: Step, s': State, w: Worker, id: Id)
    requires Next(s, step, s') && WritesFor(step, w, id) && s'.db == s.db
    ensures s'.announced == s.announced
  {
    if step.Succeed? {
      assert SucceedSession(s.db, w, id, s.now).0.nextSignal == s.db.nextSignal;
    } else if step.Fail? {
      assert FailSession(s.db, w, id, step.backoff, s.now, step.retryCommitted).0.nextSignal == s.db.nextSignal;
    }
  }

  // --- Ends --------------------------------------------------------------------------------

  /** No end is silent and none is announced twice: over the whole run so far, an item is succeeded exactly
      if its success was announced, once; dead exactly if its death or its expiry was, once; never both. */
  lemma NoSilentEnds(states: seq<State>, steps: seq<Step>, k: nat, id: Id)
    requires Run(states, steps) && k < |states|
    ensures var s := states[k];
            && (id in s.db.items && s.db.items[id].status == Succeeded <==> s.announced[SucceededName(id)] == 1)
            && (id in s.db.items && s.db.items[id].status == Dead
                <==> s.announced[DeadName(id)] + s.announced[ExpiredName(id)] == 1)
            && s.announced[SucceededName(id)] + s.announced[DeadName(id)] + s.announced[ExpiredName(id)] <= 1
  {
    RunInv(states, steps, k);
    assert NewsRight(states[k], id);
  }

  lemma EndStep(states: seq<State>, steps: seq<Step>, k: nat, id: Id)
    requires Run(states, steps) && k < |steps| && id in states[k].db.items
    ensures id in states[k + 1].db.items
    ensures states[k + 1].db.items[id].maxAttempts == states[k].db.items[id].maxAttempts
    ensures states[k].db.items[id].Terminal() ==> states[k + 1].db.items[id] == states[k].db.items[id]
  {
    RunInv(states, steps, k);
    assert StepAt(states, steps, k);
    RowChanges(states[k], steps[k], states[k + 1], id);
    ChangeKeepsItemOk(states[k].db.items[id], ChangeOf(states[k], steps[k], id), states[k].now);
  }

  /** No row is ever lost, and an ended item never changes again. */
  lemma {:induction false} EndIsFinal(states: seq<State>, steps: seq<Step>, i: nat, j: nat, id: Id)
    requires Run(states, steps) && i <= j < |states|
    requires id in states[i].db.items
    ensures id in states[j].db.items && states[j].db.items[id].maxAttempts == states[i].db.items[id].maxAttempts
    ensures states[i].db.items[id].Terminal() ==> states[j].db.items[id] == states[i].db.items[id]
  {
    if i < j {
      EndIsFinal(states, steps, i, j - 1, id);
      EndStep(states, steps, j - 1, id);
    }
  }

  /** The row invariant and the work bound: handler starts ≤ attempts ≤ max_attempts. */
  lemma BoundedWork(states: seq<State>, steps: seq<Step>, k: nat, id: Id)
    requires Run(states, steps) && k < |states| && id in states[k].db.items
    ensures ItemOk(states[k].db.items[id])
    ensures states[k].starts[id] <= states[k].db.items[id].attempts <= states[k].db.items[id].maxAttempts
  {
    RunInv(states, steps, k);
    assert StartsRight(states[k], id);
  }

  /** The steps between `i` and `j` that change the item's status or take it over. */
  ghost function Moves(states: seq<State>, id: Id, i: nat, j: nat): nat
    requires i <= j < |states|
    requires forall k :: i <= k <= j ==> id in states[k].db.items
  {
    if i == j then 0
    else Moves(states, id, i, j - 1)
         + One(states[j - 1].db.items[id].status != states[j].db.items[id].status
               || states[j - 1].db.items[id].attempts != states[j].db.items[id].attempts)
  }

  lemma MoveSpends(states: seq<State>, steps: seq<Step>, id: Id, k: nat)
    requires Run(states, steps) && k < |steps| && id in states[k].db.items
    ensures id in states[k + 1].db.items
    ensures var it, it' := states[k].db.items[id], states[k + 1].db.items[id];
            0 <= Budget(it') && Budget(it') + One(it.status != it'.status || it.attempts != it'.attempts) <= Budget(it)
  {
    RunInv(states, steps, k);
    assert StepAt(states, steps, k);
    RowChanges(states[k], steps[k], states[k + 1], id);
    ChangeSpendsBudget(states[k].db.items[id], ChangeOf(states[k], steps[k], id), states[k].now);
  }

  lemma {:induction false} MovesSpendBudget(states: seq<State>, steps: seq<Step>, id: Id, i: nat, j: nat)
    requires Run(states, steps) && i <= j < |states|
    requires forall k :: i <= k <= j ==> id in states[k].db.items
    ensures Moves(states, id, i, j) + Budget(states[j].db.items[id]) <= Budget(states[i].db.items[id])
  {
    if i < j {
      MovesSpendBudget(states, steps, id, i, j - 1);
      MoveSpends(states, steps, id, j - 1);
    }
  }

  lemma FreshRow(states: seq<State>, steps: seq<Step>, id: Id, k: nat)
    requires Run(states, steps) && k < |steps| && id !in states[k].db.items && id in states[k + 1].db.items
    ensures states[k + 1].db.items[id].status == Pending && states[k + 1].db.items[id].attempts == 0
  {
    assert StepAt(states, steps, k);
    NewRow(states[k], steps[k], states[k + 1], id);
  }

  /** However long the run and however many workers crash, an item moves at most 4 × max_attempts + 1 times. */
  lemma FiniteLife(states: seq<State>, steps: seq<Step>, id: Id, i: nat, j: nat)
    requires Run(states, steps) && 0 < i <= j < |states|
    requires id !in states[i - 1].db.items
    requires forall k :: i <= k <= j ==> id in states[k].db.items
    ensures Moves(states, id, i, j) <= 4 * states[i].db.items[id].maxAttempts + 1
  {
    MovesSpendBudget(states, steps, id, i, j);
    FreshRow(states, steps, id, i - 1);
    RunInv(states, steps, j);
  }

  /** The rows a runner's session inserts under a name are as many as it counts as announced. */
  lemma AnnouncedIsInserted(states: seq<State>, steps: seq<Step>, k: nat, name: string)
    requires Run(states, steps) && k < |steps| && (steps[k].Claim? || steps[k].Succeed? || steps[k].Fail?)
    ensures states[k + 1].announced[name]
         == states[k].announced[name] + |Named(states[k + 1].db.ledger - states[k].db.ledger, name)|
  {
    RunInv(states, steps, k);
    assert StepAt(states, steps, k);
    NewsAreInserted(states[k], steps[k], states[k + 1], name);
  }

  lemma NewsAreInserted(s: State, step: Step, s': State, name: string)
    requires Next(s, step, s') && IdsOk(s) && (step.Claim? || step.Succeed? || step.Fail?)
    ensures s'.announced[name] == s.announced[name] + |Named(s'.db.ledger - s.db.ledger, name)|
  {
    var d := s.db.(items := s'.db.items);
    if s'.db == Publish(d, NewsOf(step), s.now) {
      PublishInserts(d, NewsOf(step), s.now, name);
    }
    NewsPublished(s, step, s');
  }

  function NewsOf(step: Step): seq<string>
    requires step.Claim? || step.Succeed? || step.Fail?
  {
    if step.Claim? then ClaimNews(step.batch)
    else if step.Succeed? then [SucceededName(step.id)] else [DeadName(step.id)]
  }

  /** Such a session publishes its news and counts them, or does neither. */
  lemma NewsPublished(s: State, step: Step, s': State)
    requires Next(s, step, s') && (step.Claim? || step.Succeed? || step.Fail?)
    ensures || (s'.db == Publish(s.db.(items := s'.db.items), NewsOf(step), s.now)
                && s'.announced == s.announced + multiset(NewsOf(step)))
            || (s'.db.ledger == s.db.ledger && s'.announced == s.announced)
  {
  }

  // --- Waking ------------------------------------------------------------------------------

  predicate WaitsFor(s: State, id: Id, name: string) {
    && id in s.db.items && s.db.items[id].status == Pending
    && s.db.items[id].wakeKind == EventWake && s.db.items[id].wakeEvent == Some(name)
  }

  /** The item is unclaimed, unexpired and uncancelled from `i` to `j`. */
  ghost predicate WaitsThroughout(states: seq<State>, i: nat, j: nat, id: Id, name: string)
    requires i <= j < |states|
  {
    forall k :: i <= k <= j ==> WaitsFor(states[k], id, name)
  }

  predicate FiredAt(s: State, id: Id) {
    id in s.db.items && Fired(s.db.items[id], s.db.ledger)
  }

  predicate ClaimableAt(s: State, id: Id) {
    id in s.db.items && Claimable(s.db.items[id], s.db.ledger, s.now)
  }

  /** A row that stays a wait is not changed at all. */
  lemma WaitUnchanged(s: State, step: Step, s': State, id: Id, name: string)
    requires Next(s, step, s') && WaitsFor(s, id, name) && WaitsFor(s', id, name) && RowsOk(s)
    ensures s'.db.items[id] == s.db.items[id]
  {
    RowChanges(s, step, s', id);
    PendingStays(s.db.items[id], ChangeOf(s, step, id), s.now);
  }

  lemma PendingStays(it: Item, c: Change, now: Time)
    requires ItemOk(it) && Allowed(it, c, now) && it.status == Pending && Apply(it, c).status == Pending
    ensures Apply(it, c) == it
  {
  }

  /** A fired wait stays fired through every step that leaves it pending, retention passes included. */
  lemma FiredStep(s: State, step: Step, s': State, id: Id, name: string)
    requires Next(s, step, s') && WaitsFor(s, id, name) && WaitsFor(s', id, name) && RowsOk(s)
    ensures FiredAt(s, id) ==> FiredAt(s', id)
  {
    WaitUnchanged(s, step, s', id, name);
    if step.Prune? {
      Retention.PruneKeepsFired(s.db.ledger, s.db.items, s.now, step.retention, step.maxRows, step.cap, step.gone,
                                step.stats, s'.db.ledger, id);
    } else {
      LedgerKept(s, step, s');
      FiredGrows(s.db.items[id], s.db.ledger, s'.db.ledger);
    }
  }

  lemma FiredGrows(it: Item, ledger: set<Signal>, ledger': set<Signal>)
    requires ledger <= ledger'
    ensures Fired(it, ledger) ==> Fired(it, ledger')
  {
  }

  lemma LedgerKept(s: State, step: Step, s': State)
    requires Next(s, step, s') && !step.Prune?
    ensures s.db.ledger <= s'.db.ledger
  {
  }

  lemma FiredStepAt(states: seq<State>, steps: seq<Step>, k: nat, id: Id, name: string)
    requires Run(states, steps) && k < |steps| && WaitsFor(states[k], id, name) && WaitsFor(states[k + 1], id, name)
    ensures FiredAt(states[k], id) ==> FiredAt(states[k + 1], id)
  {
    RunInv(states, steps, k);
    assert StepAt(states, steps, k);
    FiredStep(states[k], steps[k], states[k + 1], id, name);
  }

  lemma {:induction false} StaysFired(states: seq<State>, steps: seq<Step>, i: nat, j: nat, id: Id, name: string)
    requires Run(states, steps) && i <= j < |states| && WaitsThroughout(states, i, j, id, name)
    ensures FiredAt(states[i], id) ==> FiredAt(states[j], id)
  {
    if i < j {
      StaysFired(states, steps, i, j - 1, id, name);
      FiredStepAt(states, steps, j - 1, id, name);
    }
  }

  /** What the runners announce lands in the ledger at that instant. */
  lemma AnnouncementIsLedgered(s: State, step: Step, s': State, name: string)
    requires Next(s, step, s') && s.announced[name] < s'.announced[name]
    ensures exists sig :: sig in s'.db.ledger && sig.name == name && sig.emittedAt == s.now && sig.emittedBy == RUNNER
  {
    var news := if step.Claim? then ClaimNews(step.batch)
                else if step.Succeed? then [SucceededName(step.id)] else [DeadName(step.id)];
    assert name in news;
    var k :| 0 <= k < |news| && news[k] == name;
    assert Signal(s.db.nextSignal + k, news[k], s.now, RUNNER) in Rows(news, s.db.nextSignal, s.now);
  }

  /** The wait began strictly before the state's instant. */
  predicate BeganBefore(s: State, id: Id) {
    id in s.db.items && s.db.items[id].watermark.Some? && s.db.items[id].watermark.value < s.now
  }

  lemma AnnouncementFires(s: State, step: Step, s': State, id: Id, name: string)
    requires Next(s, step, s') && WaitsFor(s, id, name) && WaitsFor(s', id, name) && RowsOk(s)
    requires BeganBefore(s, id) && s.announced[name] < s'.announced[name]
    ensures FiredAt(s', id)
  {
    AnnouncementIsLedgered(s, step, s', name);
    WaitUnchanged(s, step, s', id, name);
    LaterRowFires(s'.db.items[id], s'.db.ledger, name, s.now);
  }

  lemma LaterRowFires(it: Item, ledger: set<Signal>, name: string, at: Time)
    requires exists sig :: sig in ledger && sig.name == name && sig.emittedAt == at && sig.emittedBy == RUNNER
    requires it.wakeEvent == Some(name) && it.watermark.Some? && it.watermark.value < at
    ensures Fired(it, ledger)
  {
    var sig :| sig in ledger && sig.name == name && sig.emittedAt == at;
    assert Wakes(sig, it);
  }

  /** Dependency composition: an item that waits for `name` and was scheduled strictly before the runners
      announce it is claimable at every later instant past its floor at which it still waits. */
  lemma AnnouncementWakes(states: seq<State>, steps: seq<Step>, i: nat, j: nat, id: Id, name: string)
    requires Run(states, steps) && i < j < |states| && WaitsThroughout(states, i, j, id, name)
    requires BeganBefore(states[i], id) && states[i].announced[name] < states[i + 1].announced[name]
    ensures FiredAt(states[j], id)
    ensures states[j].db.items[id].availableAt <= states[j].now ==> ClaimableAt(states[j], id)
  {
    RunInv(states, steps, i);
    assert StepAt(states, steps, i);
    AnnouncementFires(states[i], steps[i], states[i + 1], id, name);
    StaysFired(states, steps, i + 1, j, id, name);
    assert WaitsFor(states[j], id, name);
  }

  /** Item `x` ends in step `i`: it succeeds, or dies other than by an expired wait. */
  predicate EndsWith(s: State, s': State, x: Id, name: string) {
    && x in s.db.items && !s.db.items[x].Terminal() && x in s'.db.items
    && ((name == SucceededName(x) && s'.db.items[x].status == Succeeded)
        || (name == DeadName(x) && s'.db.items[x].status == Dead && s.db.items[x].status != Pending))
  }

  /** In particular for the success or the death of another item. */
  lemma DependencyWakes(states: seq<State>, steps: seq<Step>, i: nat, j: nat, id: Id, x: Id, name: string)
    requires Run(states, steps) && i < j < |states| && WaitsThroughout(states, i, j, id, name)
    requires BeganBefore(states[i], id) && EndsWith(states[i], states[i + 1], x, name)
    ensures FiredAt(states[j], id)
    ensures states[j].db.items[id].availableAt <= states[j].now ==> ClaimableAt(states[j], id)
  {
    assert StepAt(states, steps, i);
    EndIsNews(states[i], steps[i], states[i + 1], x, name);
    AnnouncementWakes(states, steps, i, j, id, name);
  }

  lemma EndIsNews(s: State, step: Step, s': State, x: Id, name: string)
    requires Next(s, step, s') && EndsWith(s, s', x, name)
    ensures s.announced[name] < s'.announced[name]
  {
    RowChanges(s, step, s', x);
    NewsChanges(s, step, s', x);
    ChangeIsNews(s, step, s', x, name);
  }

  lemma ChangeIsNews(s: State, step: Step, s': State, x: Id, name: string)
    requires step.Claim? || step.Beat? ==> step.worker in s.workers
    requires EndsWith(s, s', x, name) && RowFollows(s, step, s', x) && NewsFollows(s, step, s', x)
    ensures s.announced[name] < s'.announced[name]
  {
  }

  /** Somebody else emits `name` as of an instant after `since`. */
  predicate EmitsAfter(step: Step, name: string, since: Time) {
    step.Emit? && step.name == name && step.at > since
  }

  ghost predicate EmittedAfter(steps: seq<Step>, k: nat, name: string, since: Time) {
    exists j :: 0 <= j < k && j < |steps| && EmitsAfter(steps[j], name, since)
  }

  /** Every ledger row is a runner's, or was emitted by somebody else under that name and for that instant. */
  lemma {:induction false} RowOrigin(states: seq<State>, steps: seq<Step>, k: nat, sig: Signal, since: Time)
    requires Run(states, steps) && k < |states| && sig in states[k].db.ledger && sig.emittedAt > since
    ensures sig.emittedBy == RUNNER || EmittedAfter(steps, k, sig.name, since)
  {
    if k > 0 {
      if sig in states[k - 1].db.ledger {
        RowOrigin(states, steps, k - 1, sig, since);
      } else {
        assert StepAt(states, steps, k - 1);
        LedgerChanges(states[k - 1], steps[k - 1], states[k], sig);
        assert steps[k - 1].Emit? ==> EmitsAfter(steps[k - 1], sig.name, since);
      }
    }
  }

  /** `name` announces an end of item `x`. */
  predicate NamesEnd(name: string, x: Id) {
    name == SucceededName(x) || name == DeadName(x) || name == ExpiredName(x)
  }

  /** Item `x` has ended the way `name` says. */
  predicate HasEnded(s: State, x: Id, name: string) {
    && x in s.db.items
    && (name == SucceededName(x) ==> s.db.items[x].status == Succeeded)
    && (name == DeadName(x) || name == ExpiredName(x) ==> s.db.items[x].status == Dead)
  }

  predicate FiredFor(s: State, id: Id, name: string, since: Time) {
    FiredAt(s, id) && s.db.items[id].wakeEvent == Some(name) && s.db.items[id].watermark == Some(since)
  }

  /** No wait for an end fires by itself: the item has ended that way, or somebody else emitted that very name for an
      instant after the watermark. */
  lemma WakeHasACause(states: seq<State>, steps: seq<Step>, k: nat, id: Id, x: Id, name: string, since: Time)
    requires Run(states, steps) && k < |states| && FiredFor(states[k], id, name, since) && NamesEnd(name, x)
    ensures HasEnded(states[k], x, name) || EmittedAfter(steps, k, name, since)
  {
    var sig :| sig in states[k].db.ledger && Wakes(sig, states[k].db.items[id]);
    RunInv(states, steps, k);
    RowOrigin(states, steps, k, sig, since);
    if sig.emittedBy == RUNNER {
      assert states[k].announced[name] >= 1;
      assert NewsRight(states[k], x);
      NamesApart(x, x);
    }
  }

  /** So it is enough that nobody else emitted the awaited name … */
  lemma NoFalseWake(states: seq<State>, steps: seq<Step>, k: nat, id: Id, x: Id, name: string, since: Time)
    requires Run(states, steps) && k < |states| && FiredFor(states[k], id, name, since) && NamesEnd(name, x)
    requires !EmittedAfter(steps, k, name, since)
    ensures HasEnded(states[k], x, name)
  {
    WakeHasACause(states, steps, k, id, x, name, since);
  }

  /** … and necessary: such an emission fires the wait at every later instant at which it still waits, whether or not
      anything has ended. */
  lemma ForgedNameWakes(states: seq<State>, steps: seq<Step>, i: nat, j: nat, id: Id, name: string, since: Time)
    requires Run(states, steps) && i < j < |states| && WaitsThroughout(states, i, j, id, name)
    requires states[i].db.items[id].watermark == Some(since) && EmitsAfter(steps[i], name, since)
    ensures FiredAt(states[j], id)
  {
    assert StepAt(states, steps, i);
    RunInv(states, steps, i);
    assert WaitsFor(states[i], id, name) && WaitsFor(states[i + 1], id, name);
    EmissionFires(states[i], steps[i], states[i + 1], id, name, since);
    StaysFired(states, steps, i + 1, j, id, name);
  }

  lemma EmissionFires(s: State, step: Step, s': State, id: Id, name: string, since: Time)
    requires Next(s, step, s') && WaitsFor(s, id, name) && s.db.items[id].watermark == Some(since)
    requires EmitsAfter(step, name, since)
    ensures FiredAt(s', id)
  {
    var sig := Signal(s.db.nextSignal, name, step.at, step.emitter);
    assert sig in s'.db.ledger && Wakes(sig, s'.db.items[id]);
  }

  /** Everyone else emits only names outside the reserved namespaces, or inside "interface." / "approval.". */
  ghost predicate HonestEmitters(steps: seq<Step>) {
    forall k :: 0 <= k < |steps| && steps[k].Emit? ==>
                  SignalNames.Open(steps[k].name) || "interface." <= steps[k].name || "approval." <= steps[k].name
  }

  predicate RunnerName(name: string) { "work." <= name }

  lemma OutsideWork(name: string)
    requires SignalNames.Open(name) || "interface." <= name || "approval." <= name
    ensures !RunnerName(name)
  {
    assert SignalNames.RESERVED_PREFIXES[1] in SignalNames.RESERVED_PREFIXES;
    assert "work."[0] == 'w' && "interface."[0] == 'i' && "approval."[0] == 'a';
  }

  /** Emitters whose names are validated emit no such name. */
  lemma OnlyRunnersAnnounce(states: seq<State>, steps: seq<Step>, k: nat, sig: Signal)
    requires Run(states, steps) && HonestEmitters(steps) && k < |states|
    requires sig in states[k].db.ledger && RunnerName(sig.name)
    ensures sig.emittedBy == RUNNER
  {
    RowOrigin(states, steps, k, sig, sig.emittedAt - 1.0);
    forall j | 0 <= j < |steps| && steps[j].Emit?
      ensures !RunnerName(steps[j].name)
    {
      OutsideWork(steps[j].name);
    }
  }

  lemma HonestIsEnough(steps: seq<Step>, k: nat, x: Id, name: string, since: Time)
    requires HonestEmitters(steps) && NamesEnd(name, x)
    ensures !EmittedAfter(steps, k, name, since)
  {
    assert RunnerName(SucceededName(x)) && RunnerName(DeadName(x)) && RunnerName(ExpiredName(x));
    forall j | 0 <= j < |steps| && steps[j].Emit?
      ensures steps[j].name != name
    {
      OutsideWork(steps[j].name);
    }
  }

  // --- Retries as coded --------------------------------------------------------------------

  /** No failure report short of the last one is ever committed: the code as it stands. */
  ghost predicate RetriesRolledBack(steps: seq<Step>) {
    forall k :: 0 <= k < |steps| && steps[k].Fail? ==> !steps[k].retryCommitted
  }

  lemma PendingIsFirst(states: seq<State>, steps: seq<Step>, k: nat, id: Id)
    requires Run(states, steps) && k < |steps| && !(steps[k].Fail? && steps[k].retryCommitted)
    requires id in states[k].db.items && states[k].db.items[id].status != Pending
    ensures id in states[k + 1].db.items && states[k + 1].db.items[id].status != Pending
  {
    RunInv(states, steps, k);
    assert StepAt(states, steps, k);
    RowChanges(states[k], steps[k], states[k + 1], id);
    NotBackToPending(states[k].db.items[id], ChangeOf(states[k], steps[k], id), states[k].now);
  }

  lemma NotBackToPending(it: Item, c: Change, now: Time)
    requires ItemOk(it) && Allowed(it, c, now) && it.status != Pending && !c.Retry?
    ensures Apply(it, c).status != Pending
  {
  }

  /** Then an item that was ever claimed is never a pending wait again, so that no retention pass can take a signal it
      would wait for. */
  lemma {:induction false} NeverPendingAgain(states: seq<State>, steps: seq<Step>, i: nat, j: nat, id: Id)
    requires Run(states, steps) && RetriesRolledBack(steps) && i <= j < |states|
    requires id in states[i].db.items && states[i].db.items[id].status != Pending
    ensures id in states[j].db.items && states[j].db.items[id].status != Pending
  {
    if i < j {
      NeverPendingAgain(states, steps, i, j - 1, id);
      PendingIsFirst(states, steps, j - 1, id);
    }
  }
}
