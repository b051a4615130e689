/** The rules of claiming and scheduling, spelled out on the columns of the rows. */
module ClaimRules {
  import opened Prelude
  import opened WorkModel

  /** Why a claim pass took, expired or killed a row. */
  lemma TakenForAReason(items: Table, ledger: set<Signal>, now: Time, worker: Worker, lease: Time, limit: nat,
                        locked: set<Id>, batch: ClaimBatch, items': Table, id: Id)
    requires ClaimPass(items, ledger, now, worker, lease, limit, locked, batch, items')
    // Exactly the pending waits whose deadline has come expire.
    ensures id in batch.expired <==>
              && id in items && items[id].status == Pending
              && items[id].expiresAt.Some? && items[id].expiresAt.value <= now
    // A claimed row was due and in time, and an event wait had its signal, strictly after its watermark …
    ensures id in batch.claimed && id in items && items[id].status == Pending ==>
              && items[id].availableAt <= now
              && (items[id].expiresAt.Some? ==> now < items[id].expiresAt.value)
              && (items[id].wakeKind == EventWake ==>
                    items[id].watermark.Some? && exists sig :: sig in ledger && items[id].wakeEvent == Some(sig.name)
                                                               && sig.emittedAt > items[id].watermark.value)
    // … or its lease had run out and it had attempts left; a killed row had none.
    ensures id in batch.claimed && id in items && items[id].status != Pending ==>
              && (items[id].status == Leased || items[id].status == Running)
              && items[id].leaseExpiresAt.Some? && items[id].leaseExpiresAt.value < now
              && items[id].attempts < items[id].maxAttempts
    ensures id in batch.reclaimDead && id in items ==>
              && (items[id].status == Leased || items[id].status == Running)
              && items[id].leaseExpiresAt.Some? && items[id].leaseExpiresAt.value < now
              && items[id].attempts >= items[id].maxAttempts
    ensures id in batch.claimed || id in batch.reclaimDead ==> id in items && id !in locked
  {
    if id in batch.claimed || id in batch.reclaimDead {
      TakenIsDue(items, ledger, now, worker, lease, limit, locked, batch, items', id);
      ClaimEffect(items, ledger, now, worker, lease, limit, locked, batch, items', id);
    }
  }

  /** What the pass writes, column by column. */
  lemma WrittenColumns(items: Table, ledger: set<Signal>, now: Time, worker: Worker, lease: Time, limit: nat,
                       locked: set<Id>, batch: ClaimBatch, items': Table, id: Id)
    requires ClaimPass(items, ledger, now, worker, lease, limit, locked, batch, items') && id in items
    ensures id in items'
    ensures id in batch.expired ==> items'[id] == items[id].(status := Dead)
    ensures id in batch.claimed ==>
              items'[id] == items[id].(status := Leased, leaseOwner := Some(worker), leaseExpiresAt := Some(now + lease),
                                       attempts := items[id].attempts + 1)
    ensures id in batch.reclaimDead ==>
              items'[id] == items[id].(status := Dead, leaseOwner := None, leaseExpiresAt := None)
    ensures id !in batch.expired && id !in batch.claimed && id !in batch.reclaimDead ==> items'[id] == items[id]
  {
    ClaimEffect(items, ledger, now, worker, lease, limit, locked, batch, items', id);
  }

  /** `reclaimed` counts the claimed rows that were in flight. */
  lemma ReclaimedCount(items: Table, ledger: set<Signal>, now: Time, worker: Worker, lease: Time, limit: nat,
                       locked: set<Id>, batch: ClaimBatch, items': Table)
    requires ClaimPass(items, ledger, now, worker, lease, limit, locked, batch, items')
    ensures batch.reclaimed
         == |set id | id in batch.claimed && id in items && (items[id].status == Leased || items[id].status == Running)|
  {
    var swept := Sweep(items, now);
    forall id | id in batch.claimed
      ensures id in items && swept[id] == items[id]
    {
      TakenIsDue(items, ledger, now, worker, lease, limit, locked, batch, items', id);
    }
    assert TakenOver(batch.claimed, swept)
        == set id | id in batch.claimed && id in items && (items[id].status == Leased || items[id].status == Running);
  }

  lemma TakenIsDue(items: Table, ledger: set<Signal>, now: Time, worker: Worker, lease: Time, limit: nat,
                   locked: set<Id>, batch: ClaimBatch, items': Table, id: Id)
    requires ClaimPass(items, ledger, now, worker, lease, limit, locked, batch, items')
    requires id in batch.claimed || id in batch.reclaimDead
    ensures id in items && id !in locked && !ExpiredWait(items[id], now)
  {
  }

  /** The columns of a row that a claim pass must take, room permitting. */
  predicate TimerIsDue(it: Item, now: Time) {
    && it.status == Pending && it.wakeKind == TimeWake && it.availableAt <= now
    && (it.expiresAt.Some? ==> now < it.expiresAt.value)
  }

  predicate WaitIsOver(it: Item, sig: Signal, now: Time) {
    && it.status == Pending && it.wakeKind == EventWake && it.availableAt <= now
    && (it.expiresAt.Some? ==> now < it.expiresAt.value)
    && it.wakeEvent == Some(sig.name) && it.watermark.Some? && sig.emittedAt > it.watermark.value
  }

  predicate LeaseIsOver(it: Item, now: Time) {
    (it.status == Leased || it.status == Running) && it.leaseExpiresAt.Some? && it.leaseExpiresAt.value < now
  }

  /** A row with a reason to be taken is, unless another transaction has it or the limit is used up, and then on rows at
      least as old. */
  lemma ReasonIsTaken(items: Table, ledger: set<Signal>, now: Time, worker: Worker, lease: Time, limit: nat,
                      locked: set<Id>, batch: ClaimBatch, items': Table, id: Id, sig: Signal)
    requires ClaimPass(items, ledger, now, worker, lease, limit, locked, batch, items')
    requires id in items && id !in locked
    requires TimerIsDue(items[id], now) || LeaseIsOver(items[id], now)
             || (sig in ledger && WaitIsOver(items[id], sig, now))
    ensures id in batch.claimed || id in batch.reclaimDead || |batch.claimed| + |batch.reclaimDead| == limit
    ensures id in batch.claimed || id in batch.reclaimDead ||
            forall x :: (x in batch.claimed || x in batch.reclaimDead) && x in items ==>
                          items[x].availableAt <= items[id].availableAt
  {
    var swept := Sweep(items, now);
    var due := Due(swept, ledger, now, locked);
    assert swept[id] == items[id];
    assert sig in ledger && WaitIsOver(items[id], sig, now) ==> Wakes(sig, items[id]);
    assert id in due;
    if id !in batch.claimed && id !in batch.reclaimDead {
      assert id !in batch.Taken();
      forall x | (x in batch.claimed || x in batch.reclaimDead) && x in items
        ensures items[x].availableAt <= items[id].availableAt
      {
        assert x in batch.Taken() && swept[x].availableAt == items[x].availableAt;
      }
      LimitIsReached(batch, due, limit, id);
    }
  }

  /** Fewer rows than the limit means all due rows. */
  lemma LimitIsReached(batch: ClaimBatch, due: set<Id>, limit: nat, left: Id)
    requires NoDuplicates(batch.claimed) && NoDuplicates(batch.reclaimDead)
    requires Elems(batch.claimed) !! Elems(batch.reclaimDead) && batch.Taken() <= due
    requires |batch.claimed| + |batch.reclaimDead| == Min(limit, |due|)
    requires left in due && left !in batch.Taken()
    ensures |batch.claimed| + |batch.reclaimDead| == limit
  {
    ElemsCard(batch.claimed);
    ElemsCard(batch.reclaimDead);
    assert due == batch.Taken() + (due - batch.Taken());
    assert left in due - batch.Taken();
  }

  // --- A newly scheduled row ---------------------------------------------------------------

  /** A timer is claimable exactly from its wake instant on. */
  lemma NewTimerIsDueAt(wakeAt: Time, maxAttempts: int, wakeEvent: Option<string>, expiresAt: Option<Time>, now: Time,
                        ledger: set<Signal>, at: Time)
    ensures var it := NewItem(wakeAt, maxAttempts, TimeWake, wakeEvent, expiresAt, now);
            && (Claimable(it, ledger, at) <==> wakeAt <= at)
            && (TimerIsDue(it, at) <==> wakeAt <= at && (expiresAt.Some? ==> at < expiresAt.value))
  {
  }

  /** A signal wakes a new wait exactly if it carries the awaited name and is emitted after the scheduling instant; and
      then from the floor on. */
  lemma NewWaitIsWokenBy(wakeAt: Time, maxAttempts: int, name: string, expiresAt: Option<Time>, now: Time, sig: Signal,
                         at: Time)
    ensures var it := NewItem(wakeAt, maxAttempts, EventWake, Some(name), expiresAt, now);
            && (Wakes(sig, it) <==> sig.name == name && sig.emittedAt > now)
            && (Claimable(it, {sig}, at) <==> wakeAt <= at && sig.name == name && sig.emittedAt > now)
  {
    var it := NewItem(wakeAt, maxAttempts, EventWake, Some(name), expiresAt, now);
    assert Fired(it, {sig}) <==> Wakes(sig, it);
  }

  /** A new row expires exactly from its deadline on, has no attempts, and gets as many as asked for, at least one. */
  lemma NewRowLimits(wakeAt: Time, maxAttempts: int, wakeKind: WakeKind, wakeEvent: Option<string>,
                     expiresAt: Option<Time>, now: Time, at: Time)
    ensures var it := NewItem(wakeAt, maxAttempts, wakeKind, wakeEvent, expiresAt, now);
            && (ExpiredWait(it, at) <==> expiresAt.Some? && expiresAt.value <= at)
            && it.attempts == 0 && it.maxAttempts == (if maxAttempts < 1 then 1 else maxAttempts)
            && it.leaseOwner == None && it.leaseExpiresAt == None
  {
  }
}
