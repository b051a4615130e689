/** Any number of workers, schedulers, emitters and retention passes over one database, as a
    transition system: every database session is one atomic step at one instant. */
module WorkProtocol {
  import opened Prelude
  import opened WorkModel
  import opened WorkSessions
  import opened WorkRow

  /** A live worker: how long its leases last, and the items it has in process. */
  datatype Live = Live(lease: Time, held: Held)

  /** `announced` (every signal name the runners ever published) and `starts` (one entry per
      handler start) are history. */
  datatype State = State(
    now: Time,
    db: Shared,
    announced: multiset<string>,
    starts: multiset<Id>,
    workers: map<Worker, Live>)

  /** `heard` says whether the worker received the reply of its committed session.  A session
      that fails without committing changes nothing and is not a step. */
  datatype Step =
    | Tick(to: Time)
    | Schedule(id: Id, wakeAt: Time, maxAttempts: int, wakeKind: WakeKind, wakeEvent: Option<string>,
               expiresAt: Option<Time>)
    | Emit(name: string, emitter: string, at: Time)
    | Claim(worker: Worker, limit: nat, locked: set<Id>, batch: ClaimBatch, heard: bool)
    | Start(worker: Worker, id: Id, heard: bool)
    | Beat(worker: Worker, id: Id, heard: bool)
    | Succeed(worker: Worker, id: Id, heard: bool)
    | Fail(worker: Worker, id: Id, backoff: Time, retryCommitted: bool)
    | Abandon(worker: Worker, id: Id)
    | CancelItem(id: Id)
    | Prune(retention: Time, maxRows: int, cap: nat, gone: Deletion, stats: Option<PruneStats>)
    | Join(worker: Worker, lease: Time)
    | Crash(worker: Worker)

  ghost predicate Init(s: State) {
    s.db == Shared(map[], {}, 0) && s.announced == multiset{} && s.starts == multiset{} && s.workers == map[]
  }

  predicate Holds(s: State, w: Worker, id: Id) {
    w in s.workers && id in s.workers[w].held
  }

  function TokenOf(s: State, w: Worker, id: Id): Token
    requires Holds(s, w, id)
  {
    s.workers[w].held[id]
  }

  function WithToken(s: State, w: Worker, id: Id, token: Token): map<Worker, Live>
    requires Holds(s, w, id)
  {
    s.workers[w := s.workers[w].(held := s.workers[w].held[id := token])]
  }

  function WithoutToken(s: State, w: Worker, id: Id): map<Worker, Live>
    requires Holds(s, w, id)
  {
    s.workers[w := s.workers[w].(held := s.workers[w].held - {id})]
  }

  function Told(r: WriteResult, end: Status, name: string): multiset<string> {
    if r == Wrote(end) then multiset{name} else multiset{}
  }

  ghost predicate Next(s: State, step: Step, s': State) {
    if step.Claim? then NextClaim(s, step, s')
    else if step.Start? then NextStart(s, step, s')
    else if step.Beat? then NextBeat(s, step, s')
    else if step.Succeed? then NextSucceed(s, step, s')
    else if step.Fail? then NextFail(s, step, s')
    else NextOther(s, step, s')
  }

  /** A worker claims only when nothing it claimed before is still in process. */
  ghost predicate NextClaim(s: State, step: Step, s': State)
    requires step.Claim?
  {
    var w := step.worker;
    && w in s.workers && s.workers[w].held == map[]
    && ClaimSession(s.db, w, s.workers[w].lease, step.limit, step.locked, s.now, step.batch, s'.db)
    && s' == State(s.now, s'.db, s.announced + multiset(ClaimNews(step.batch)), s.starts,
                   if step.heard
                   then s.workers[w := s.workers[w].(held := Granted(step.batch, s'.db.items, s.now + s.workers[w].lease))]
                   else s.workers)
  }

  ghost predicate NextStart(s: State, step: Step, s': State)
    requires step.Start?
  {
    var w, id := step.worker, step.id;
    && Holds(s, w, id) && TokenOf(s, w, id).phase == Queued
    && var (items, r) := MarkRunning(s.db.items, id, Some(w));
       s' == s.(db := s.db.(items := items),
                starts := s.starts + (if step.heard && r == Wrote(Running) then multiset{id} else multiset{}),
                workers := if !step.heard then s.workers
                           else if r == Wrote(Running) then WithToken(s, w, id, TokenOf(s, w, id).(phase := Handling))
                           else WithoutToken(s, w, id))
  }

  ghost predicate NextBeat(s: State, step: Step, s': State)
    requires step.Beat?
  {
    var w, id := step.worker, step.id;
    && Holds(s, w, id) && TokenOf(s, w, id).phase != Queued
    && var until := s.now + s.workers[w].lease;
       var (items, renewed) := Renew(s.db.items, id, w, until);
       s' == s.(db := s.db.(items := items),
                workers := if step.heard && renewed then WithToken(s, w, id, TokenOf(s, w, id).(until := until))
                           else s.workers)
  }

  ghost predicate NextSucceed(s: State, step: Step, s': State)
    requires step.Succeed?
  {
    var w, id := step.worker, step.id;
    && Holds(s, w, id) && TokenOf(s, w, id).phase == Handling
    && var (db, r) := SucceedSession(s.db, w, id, s.now);
       s' == State(s.now, db, s.announced + Told(r, Succeeded, SucceededName(id)), s.starts,
                   if step.heard then WithoutToken(s, w, id)
                   else if r == Wrote(Succeeded) then WithToken(s, w, id, TokenOf(s, w, id).(phase := Reported))
                   else s.workers)
  }

  ghost predicate NextFail(s: State, step: Step, s': State)
    requires step.Fail?
  {
    var w, id := step.worker, step.id;
    && Holds(s, w, id)
    && var (db, r) := FailSession(s.db, w, id, step.backoff, s.now, step.retryCommitted);
       s' == State(s.now, db, s.announced + Told(r, Dead, DeadName(id)), s.starts, WithoutToken(s, w, id))
  }

  ghost predicate NextOther(s: State, step: Step, s': State)
    requires !step.Claim? && !step.Start? && !step.Beat? && !step.Succeed? && !step.Fail?
  {
    match step
    case Tick(to) =>
      to >= s.now && s' == s.(now := to)
    case Schedule(id, wakeAt, maxAttempts, wakeKind, wakeEvent, expiresAt) =>
      && id !in s.db.items && WakeError(wakeKind, wakeEvent) == None
      && s' == s.(db := s.db.(items := s.db.items[id := NewItem(wakeAt, maxAttempts, wakeKind, wakeEvent, expiresAt, s.now)]))
    case Emit(name, emitter, at) =>
      && emitter != RUNNER
      && s' == s.(db := s.db.(ledger := s.db.ledger + {Signal(s.db.nextSignal, name, at, emitter)},
                              nextSignal := s.db.nextSignal + 1))
    case Abandon(w, id) =>
      Holds(s, w, id) && s' == s.(workers := WithoutToken(s, w, id))
    case CancelItem(id) =>
      s' == s.(db := s.db.(items := Cancel(s.db.items, id).0))
    case Prune(retention, maxRows, cap, gone, stats) =>
      && PrunePass(s.db.ledger, s.db.items, s.now, retention, maxRows, cap, gone, stats, s'.db.ledger)
      && s' == s.(db := s.db.(ledger := s'.db.ledger))
    case Join(w, lease) =>
      // Worker ids of live workers are distinct.
      w !in s.workers && s' == s.(workers := s.workers[w := Live(lease, map[])])
    case Crash(w) =>
      s' == s.(workers := s.workers - {w})
  }

  // --- Every step, seen from one row -------------------------------------------------------

  ghost function ChangeOf(s: State, step: Step, id: Id): Change
    requires id in s.db.items
    requires step.Claim? || step.Beat? ==> step.worker in s.workers
  {
    var it := s.db.items[id];
    match step
    case Claim(w, _, _, batch, _) =>
      if id in batch.expired then Expire
      else if id in batch.claimed then Lease(w, s.now + s.workers[w].lease)
      else if id in batch.reclaimDead then Kill
      else Same
    case Start(w, x, _) => if x == id && it.status == Leased && it.OwnedBy(w) then Run(w) else Same
    case Beat(w, x, _) => if x == id && it.OwnedBy(w) then Extend(w, s.now + s.workers[w].lease) else Same
    case Succeed(w, x, _) => if x == id && it.OwnedBy(w) then Finish(w) else Same
    case Fail(w, x, backoff, committed) =>
      if x != id || !it.OwnedBy(w) then Same
      else if it.attempts >= it.maxAttempts then Die(w)
      else if committed then Retry(w, s.now + backoff)
      else Same
    case CancelItem(x) => if x == id && !it.Terminal() then Withdraw else Same
    case _ => Same
  }

  /** The step does its one change to the row, and is allowed to. */
  ghost predicate RowFollows(s: State, step: Step, s': State, id: Id)
    requires id in s.db.items
    requires step.Claim? || step.Beat? ==> step.worker in s.workers
  {
    var it, c := s.db.items[id], ChangeOf(s, step, id);
    id in s'.db.items && s'.db.items[id] == Apply(it, c) && Allowed(it, c, s.now)
  }

  ghost predicate ClaimSeen(s: State, step: Step, s': State, id: Id)
    requires step.Claim? && id in s.db.items
  {
    && step.worker in s.workers
    && ClaimedAs(s.db.items, s.db.ledger, s.now, step.worker, s.now + s.workers[step.worker].lease, step.batch,
                 s'.db.items, id)
  }

  lemma ClaimIsSeen(s: State, step: Step, s': State, id: Id)
    requires step.Claim? && NextClaim(s, step, s') && id in s.db.items
    ensures ClaimSeen(s, step, s', id)
  {
    ClaimEffect(s.db.items, s.db.ledger, s.now, step.worker, s.workers[step.worker].lease, step.limit, step.locked,
                step.batch, s'.db.items, id);
  }

  lemma SeenRowFollows(s: State, step: Step, s': State, id: Id)
    requires step.Claim? && id in s.db.items && ClaimSeen(s, step, s', id)
    ensures RowFollows(s, step, s', id)
  {
  }

  lemma ClaimRows(s: State, step: Step, s': State, id: Id)
    requires step.Claim? && NextClaim(s, step, s') && id in s.db.items
    ensures RowFollows(s, step, s', id)
  {
    ClaimIsSeen(s, step, s', id);
    SeenRowFollows(s, step, s', id);
  }

  lemma StartRow(s: State, step: Step, s': State, id: Id)
    requires step.Start? && NextStart(s, step, s') && id in s.db.items
    ensures RowFollows(s, step, s', id)
  {
  }

  lemma BeatRow(s: State, step: Step, s': State, id: Id)
    requires step.Beat? && NextBeat(s, step, s') && id in s.db.items
    ensures RowFollows(s, step, s', id)
  {
  }

  lemma SucceedRow(s: State, step: Step, s': State, id: Id)
    requires step.Succeed? && NextSucceed(s, step, s') && id in s.db.items
    ensures RowFollows(s, step, s', id)
  {
  }

  lemma FailRow(s: State, step: Step, s': State, id: Id)
    requires step.Fail? && NextFail(s, step, s') && id in s.db.items
    ensures RowFollows(s, step, s', id)
  {
  }

  lemma OtherRow(s: State, step: Step, s': State, id: Id)
    requires !step.Claim? && !step.Start? && !step.Beat? && !step.Succeed? && !step.Fail?
    requires NextOther(s, step, s') && id in s.db.items
    ensures RowFollows(s, step, s', id)
  {
  }

  /** Each step does one of the changes to each existing row … */
  lemma RowChanges(s: State, step: Step, s': State, id: Id)
    requires Next(s, step, s') && id in s.db.items
    ensures RowFollows(s, step, s', id)
  {
    if step.Claim? {
      ClaimRows(s, step, s', id);
    } else if step.Start? {
      StartRow(s, step, s', id);
    } else if step.Beat? {
      BeatRow(s, step, s', id);
    } else if step.Succeed? {
      SucceedRow(s, step, s', id);
    } else if step.Fail? {
      FailRow(s, step, s', id);
    } else {
      OtherRow(s, step, s', id);
    }
  }

  /** … and only `Schedule` adds a row. */
  lemma NewRow(s: State, step: Step, s': State, id: Id)
    requires Next(s, step, s') && id in s'.db.items && id !in s.db.items
    ensures step.Schedule? && step.id == id
    ensures s'.db.items[id].status == Pending && s'.db.items[id].attempts == 0
  {
  }

  function One(b: bool): nat { if b then 1 else 0 }

  /** An item's end is announced in the step that ends it, and in no other. */
  ghost predicate NewsFollows(s: State, step: Step, s': State, id: Id)
    requires step.Claim? || step.Beat? ==> step.worker in s.workers
  {
    var c := if id in s.db.items then ChangeOf(s, step, id) else Same;
    && s'.announced[SucceededName(id)] == s.announced[SucceededName(id)] + One(c.Finish?)
    && s'.announced[DeadName(id)] == s.announced[DeadName(id)] + One(c.Kill? || c.Die?)
    && s'.announced[ExpiredName(id)] == s.announced[ExpiredName(id)] + One(c.Expire?)
  }

  /** A claim pass announces the deaths it lists, each once … */
  ghost predicate ClaimTold(s: State, step: Step, s': State, id: Id)
    requires step.Claim?
  {
    && s'.announced[SucceededName(id)] == s.announced[SucceededName(id)]
    && s'.announced[DeadName(id)] == s.announced[DeadName(id)] + One(id in step.batch.reclaimDead)
    && s'.announced[ExpiredName(id)] == s.announced[ExpiredName(id)] + One(id in step.batch.expired)
  }

  lemma ClaimIsTold(s: State, step: Step, s': State, id: Id)
    requires step.Claim? && NextClaim(s, step, s')
    ensures ClaimTold(s, step, s', id)
  {
    ClaimNewsCount(step.batch, id);
  }

  /** … and only of rows that exist. */
  lemma ClaimListsRows(s: State, step: Step, s': State, id: Id)
    requires step.Claim? && NextClaim(s, step, s') && id !in s.db.items
    ensures id !in step.batch.reclaimDead && id !in step.batch.expired
  {
  }

  lemma SeenNewsFollows(s: State, step: Step, s': State, id: Id)
    requires step.Claim? && step.worker in s.workers && ClaimTold(s, step, s', id)
    requires id in s.db.items ==> ClaimSeen(s, step, s', id)
    requires id !in s.db.items ==> id !in step.batch.reclaimDead && id !in step.batch.expired
    ensures NewsFollows(s, step, s', id)
  {
  }

  lemma ClaimNewsFollows(s: State, step: Step, s': State, id: Id)
    requires step.Claim? && NextClaim(s, step, s')
    ensures NewsFollows(s, step, s', id)
  {
    ClaimIsTold(s, step, s', id);
    if id in s.db.items {
      ClaimIsSeen(s, step, s', id);
    } else {
      ClaimListsRows(s, step, s', id);
    }
    SeenNewsFollows(s, step, s', id);
  }

  lemma SucceedNewsFollows(s: State, step: Step, s': State, id: Id)
    requires step.Succeed? && NextSucceed(s, step, s')
    ensures NewsFollows(s, step, s', id)
  {
    NamesApart(id, step.id);
    NamesApart(step.id, id);
  }

  lemma FailNewsFollows(s: State, step: Step, s': State, id: Id)
    requires step.Fail? && NextFail(s, step, s')
    ensures NewsFollows(s, step, s', id)
  {
    NamesApart(id, step.id);
    NamesApart(step.id, id);
  }

  lemma OtherNewsFollows(s: State, step: Step, s': State, id: Id)
    requires Next(s, step, s') && !step.Claim? && !step.Succeed? && !step.Fail?
    ensures NewsFollows(s, step, s', id)
  {
    assert s'.announced == s.announced;
  }

  lemma NewsChanges(s: State, step: Step, s': State, id: Id)
    requires Next(s, step, s')
    ensures NewsFollows(s, step, s', id)
  {
    if step.Claim? {
      ClaimNewsFollows(s, step, s', id);
    } else if step.Succeed? {
      SucceedNewsFollows(s, step, s', id);
    } else if step.Fail? {
      FailNewsFollows(s, step, s', id);
    } else {
      OtherNewsFollows(s, step, s', id);
    }
  }

  lemma StartsChange(s: State, step: Step, s': State, id: Id)
    requires Next(s, step, s')
    ensures id in s.db.items ==>
              s.starts[id] <= s'.starts[id] <= s.starts[id] + One(ChangeOf(s, step, id).Run?)
    ensures id !in s.db.items ==> s'.starts[id] == s.starts[id]
  {
  }

  /** A published row is the runner's, of this instant, and carries one of the published names. */
  lemma PublishedRow(d: Shared, names: seq<string>, at: Time, sig: Signal)
    requires sig in Publish(d, names, at).ledger && sig !in d.ledger
    ensures sig.emittedBy == RUNNER && sig.emittedAt == at && multiset(names)[sig.name] >= 1
  {
    assert sig.name in names;
  }

  lemma LedgerChanges(s: State, step: Step, s': State, sig: Signal)
    requires Next(s, step, s') && sig in s'.db.ledger && sig !in s.db.ledger
    ensures step.Emit? ==> sig == Signal(s.db.nextSignal, step.name, step.at, step.emitter)
    ensures !step.Emit? ==> sig.emittedBy == RUNNER && sig.emittedAt == s.now && s'.announced[sig.name] >= 1
  {
    if step.Claim? {
      PublishedRow(s.db.(items := s'.db.items), ClaimNews(step.batch), s.now, sig);
    } else if step.Succeed? {
      PublishedRow(s.db.(items := s'.db.items), [SucceededName(step.id)], s.now, sig);
    } else if step.Fail? {
      PublishedRow(s.db.(items := s'.db.items), [DeadName(step.id)], s.now, sig);
    } else if step.Emit? {
    } else {
      QuietLedger(s, step, s', sig);
    }
  }

  lemma QuietLedger(s: State, step: Step, s': State, sig: Signal)
    requires Next(s, step, s') && !step.Claim? && !step.Succeed? && !step.Fail? && !step.Emit?
    requires sig in s'.db.ledger
    ensures sig in s.db.ledger
  {
  }

  /** A token that was already there is either untouched, by a step that is not its worker's write … */
  ghost predicate TokenFollows(s: State, step: Step, s': State, w: Worker, id: Id)
    requires Holds(s, w, id) && Holds(s', w, id) && id in s.db.items
    requires step.Claim? || step.Beat? ==> step.worker in s.workers
  {
    var c, t, t' := ChangeOf(s, step, id), TokenOf(s, w, id), TokenOf(s', w, id);
    && s'.workers[w].lease == s.workers[w].lease
    && ((t' == t && !ActsFor(c, w)) || OwnStep(c, s.now, w, s.workers[w].lease, t, t'))
  }

  lemma StartTokens(s: State, step: Step, s': State, w: Worker, id: Id)
    requires step.Start? && NextStart(s, step, s') && Holds(s', w, id)
    ensures Holds(s, w, id) && (id in s.db.items ==> TokenFollows(s, step, s', w, id))
  {
  }

  lemma BeatTokens(s: State, step: Step, s': State, w: Worker, id: Id)
    requires step.Beat? && NextBeat(s, step, s') && Holds(s', w, id)
    ensures Holds(s, w, id) && (id in s.db.items ==> TokenFollows(s, step, s', w, id))
  {
  }

  lemma SucceedTokens(s: State, step: Step, s': State, w: Worker, id: Id)
    requires step.Succeed? && NextSucceed(s, step, s') && Holds(s', w, id)
    ensures Holds(s, w, id) && (id in s.db.items ==> TokenFollows(s, step, s', w, id))
  {
  }

  lemma FailTokens(s: State, step: Step, s': State, w: Worker, id: Id)
    requires step.Fail? && NextFail(s, step, s') && Holds(s', w, id)
    ensures Holds(s, w, id) && (id in s.db.items ==> TokenFollows(s, step, s', w, id))
  {
  }

  lemma OtherTokens(s: State, step: Step, s': State, w: Worker, id: Id)
    requires !step.Claim? && !step.Start? && !step.Beat? && !step.Succeed? && !step.Fail?
    requires NextOther(s, step, s') && Holds(s', w, id)
    ensures Holds(s, w, id) && (id in s.db.items ==> TokenFollows(s, step, s', w, id))
  {
  }

  /** … or was granted by this very claim. */
  lemma ClaimGrants(s: State, step: Step, s': State, w: Worker, id: Id)
    requires step.Claim? && NextClaim(s, step, s') && Holds(s', w, id) && !Holds(s, w, id)
    ensures step.worker == w && w in s.workers && s'.workers[w].lease == s.workers[w].lease
    ensures s.workers[w].held == map[] && id in s.db.items && id in step.batch.claimed
    ensures TokenOf(s', w, id) == Token(s'.db.items[id].attempts, s.now + s.workers[w].lease, Queued)
  {
    var due := Due(Sweep(s.db.items, s.now), s.db.ledger, s.now, step.locked);
    assert id in step.batch.claimed && id in due;
  }

  lemma ClaimedIsLeased(s: State, step: Step, s': State, id: Id)
    requires step.Claim? && NextClaim(s, step, s') && id in s.db.items && id in step.batch.claimed
    ensures ChangeOf(s, step, id) == Lease(step.worker, s.now + s.workers[step.worker].lease)
  {
    ClaimIsSeen(s, step, s', id);
  }

  lemma ClaimSpares(s: State, step: Step, s': State, w: Worker, id: Id)
    requires step.Claim? && NextClaim(s, step, s') && Holds(s', w, id) && Holds(s, w, id) && id in s.db.items
    ensures TokenFollows(s, step, s', w, id)
  {
    assert w != step.worker;
  }

  lemma TokenStays(s: State, step: Step, s': State, w: Worker, id: Id)
    requires Next(s, step, s') && Holds(s, w, id) && Holds(s', w, id) && id in s.db.items
    ensures TokenFollows(s, step, s', w, id)
  {
    if step.Claim? {
      ClaimSpares(s, step, s', w, id);
    } else if step.Start? {
      StartTokens(s, step, s', w, id);
    } else if step.Beat? {
      BeatTokens(s, step, s', w, id);
    } else if step.Succeed? {
      SucceedTokens(s, step, s', w, id);
    } else if step.Fail? {
      FailTokens(s, step, s', w, id);
    } else {
      OtherTokens(s, step, s', w, id);
    }
  }

  lemma TokenAppears(s: State, step: Step, s': State, w: Worker, id: Id)
    requires Next(s, step, s') && !Holds(s, w, id) && Holds(s', w, id)
    ensures step.Claim? && step.worker == w && id in s.db.items && w in s.workers
    ensures s'.workers[w].lease == s.workers[w].lease
    ensures ChangeOf(s, step, id) == Lease(w, s.now + s.workers[w].lease)
    ensures TokenOf(s', w, id) == Token(s'.db.items[id].attempts, s.now + s.workers[w].lease, Queued)
  {
    if step.Claim? {
      ClaimGrants(s, step, s', w, id);
      ClaimedIsLeased(s, step, s', id);
    } else if step.Start? {
      StartTokens(s, step, s', w, id);
    } else if step.Beat? {
      BeatTokens(s, step, s', w, id);
    } else if step.Succeed? {
      SucceedTokens(s, step, s', w, id);
    } else if step.Fail? {
      FailTokens(s, step, s', w, id);
    } else {
      OtherTokens(s, step, s', w, id);
    }
  }

  lemma TimeMoves(s: State, step: Step, s': State)
    requires Next(s, step, s')
    ensures s.now <= s'.now
    ensures step.Tick? || s'.now == s.now
  {
  }

  // --- One worker's sessions are steps -----------------------------------------------------

  /** Worker `w` works on the tables `d`, with leases of `lease`, and has `held` in process. */
  ghost predicate Sees(s: State, w: Worker, lease: Time, d: Shared, held: Held) {
    s.db == d && w in s.workers && s.workers[w] == Live(lease, held)
  }

  /** The state after a session of `w` that left `d'` and `held'`, announced `news` and started `started`; no other
      worker is affected. */
  function AfterSession(s: State, w: Worker, lease: Time, d': Shared, held': Held, news: multiset<string>,
                        started: multiset<Id>): State
    requires w in s.workers
  {
    State(s.now, d', s.announced + news, s.starts + started, s.workers[w := Live(lease, held')])
  }

  /** Wherever the worker sees `d` and holds `held` at `now`, a session that does this is this step of the system. */
  ghost predicate IsStep(step: Step, w: Worker, lease: Time, now: Time, d: Shared, held: Held, d': Shared, held': Held,
                         news: multiset<string>, started: multiset<Id>)
  {
    forall s :: Sees(s, w, lease, d, held) && s.now == now ==>
                  Next(s, step, AfterSession(s, w, lease, d', held', news, started))
  }

  lemma ClaimMakesNext(s: State, step: Step, s': State)
    requires step.Claim? && step.heard && step.worker in s.workers && s.workers[step.worker].held == map[]
    requires ClaimSession(s.db, step.worker, s.workers[step.worker].lease, step.limit, step.locked, s.now, step.batch, s'.db)
    requires s' == AfterSession(s, step.worker, s.workers[step.worker].lease, s'.db,
                                Granted(step.batch, s'.db.items, s.now + s.workers[step.worker].lease),
                                multiset(ClaimNews(step.batch)), multiset{})
    ensures Next(s, step, s')
  {
    assert s.starts + multiset{} == s.starts;
  }

  /** The five sessions of a runner, as `WorkRunner` performs them, on its own tables: a claim … */
  lemma ClaimIsStep(w: Worker, lease: Time, now: Time, d: Shared, limit: nat, locked: set<Id>, batch: ClaimBatch,
                    d': Shared, held': Held)
    requires ClaimSession(d, w, lease, limit, locked, now, batch, d')
    requires held' == Granted(batch, d'.items, now + lease)
    ensures IsStep(Claim(w, limit, locked, batch, true), w, lease, now, d, map[], d', held',
                   multiset(ClaimNews(batch)), multiset{})
  {
    forall s | Sees(s, w, lease, d, map[]) && s.now == now
      ensures Next(s, Claim(w, limit, locked, batch, true),
                   AfterSession(s, w, lease, d', held', multiset(ClaimNews(batch)), multiset{}))
    {
      ClaimMakesNext(s, Claim(w, limit, locked, batch, true),
                     AfterSession(s, w, lease, d', held', multiset(ClaimNews(batch)), multiset{}));
    }
  }

  /** … a start … */
  lemma StartIsStep(w: Worker, lease: Time, now: Time, d: Shared, held: Held, id: Id, r: WriteResult, d': Shared, held': Held)
    requires id in held && held[id].phase == Queued
    requires (d'.items, r) == MarkRunning(d.items, id, Some(w)) && d' == d.(items := d'.items)
    requires held' == if r == Wrote(Running) then held[id := held[id].(phase := Handling)] else held - {id}
    ensures IsStep(Start(w, id, true), w, lease, now, d, held, d', held', multiset{},
                   if r == Wrote(Running) then multiset{id} else multiset{})
  {
  }

  /** … a heartbeat … */
  lemma BeatIsStep(w: Worker, lease: Time, now: Time, d: Shared, held: Held, id: Id, renewed: bool, d': Shared, held': Held)
    requires id in held && held[id].phase != Queued
    requires (d'.items, renewed) == Renew(d.items, id, w, now + lease) && d' == d.(items := d'.items)
    requires held' == if renewed then held[id := held[id].(until := now + lease)] else held
    ensures IsStep(Beat(w, id, true), w, lease, now, d, held, d', held', multiset{}, multiset{})
  {
    forall s | Sees(s, w, lease, d, held) && s.now == now
      ensures Next(s, Beat(w, id, true), AfterSession(s, w, lease, d', held', multiset{}, multiset{}))
    {
      assert s.workers[w := s.workers[w]] == s.workers;
    }
  }

  /** … a success … */
  lemma SucceedIsStep(w: Worker, lease: Time, now: Time, d: Shared, held: Held, id: Id, r: WriteResult, d': Shared,
                      held': Held)
    requires id in held && held[id].phase == Handling
    requires (d', r) == SucceedSession(d, w, id, now) && held' == held - {id}
    ensures IsStep(Succeed(w, id, true), w, lease, now, d, held, d', held', Told(r, Succeeded, SucceededName(id)), multiset{})
  {
  }

  /** … and a failure. */
  lemma FailIsStep(w: Worker, lease: Time, now: Time, d: Shared, held: Held, id: Id, backoff: Time, retryCommitted: bool,
                   r: WriteResult, d': Shared, held': Held)
    requires id in held
    requires (d', r) == FailSession(d, w, id, backoff, now, retryCommitted) && held' == held - {id}
    ensures IsStep(Fail(w, id, backoff, retryCommitted), w, lease, now, d, held, d', held', Told(r, Dead, DeadName(id)),
                   multiset{})
  {
  }
}
