/** `WorkRunner`: one worker's sessions against the shared tables.  `WorkProtocol` interleaves
    the sessions of any number of workers. */
module WorkRunner {
  import opened Prelude
  import opened WorkModel
  import opened WorkSessions
  import Repo = WorkRepository

  class WorkRunner {
    const db: Repo.Database
    const work: Repo.WorkRepository
    const signals: Repo.SignalRepository
    const workerId: Worker
    const lease: Time
    const batchSize: nat
    const backoff: Time
    var held: Held

    constructor (db: Repo.Database, workerId: Worker, lease: Time, batchSize: nat, backoff: Time)
      requires db.Valid()
      ensures Valid() && this.db == db && this.workerId == workerId && held == map[]
    {
      this.db, this.workerId, this.lease, this.batchSize, this.backoff := db, workerId, lease, batchSize, backoff;
      work := new Repo.WorkRepository(db);
      signals := new Repo.SignalRepository(db);
      held := map[];
    }

    ghost predicate Valid()
      reads db`ledger, db`nextSignal
    {
      work.db == db && signals.db == db && db.Valid()
    }

    ghost function View(): Shared
      reads db
    {
      Shared(db.items, db.ledger, db.nextSignal)
    }

    method Announce(names: seq<string>, at: Time)
      requires Valid()
      modifies db`ledger, db`nextSignal
      ensures Valid() && View() == Publish(old(View()), names, at)
      // One new row for each name, and no other.
      ensures |db.ledger| == |old(db.ledger)| + |names|
    {
      ghost var before := View();
      PublishNothing(before, names, at);
      for k := 0 to |names|
        invariant Valid() && View() == Publish(before, names[..k], at)
      {
        PublishGrows(before, names, k, at);
        signals.Emit(names[k], RUNNER, at);
      }
      assert names[..|names|] == names;
      PublishInserts(before, names, at, "");
    }

    /** The two loops over the deaths of a claim pass. */
    method AnnounceDeaths(batch: ClaimBatch, now: Time)
      requires Valid()
      modifies db`ledger, db`nextSignal
      ensures Valid() && View() == Publish(old(View()), ClaimNews(batch), now)
    {
      var expired, dead := [], [];
      for k := 0 to |batch.expired|
        invariant expired == Prefixed("work.expired:", batch.expired[..k])
      {
        assert batch.expired[..k + 1][..k] == batch.expired[..k];
        expired := expired + [ExpiredName(batch.expired[k])];
      }
      for k := 0 to |batch.reclaimDead|
        invariant dead == Prefixed("work.dead:", batch.reclaimDead[..k])
      {
        assert batch.reclaimDead[..k + 1][..k] == batch.reclaimDead[..k];
        dead := dead + [DeadName(batch.reclaimDead[k])];
      }
      assert batch.expired[..|batch.expired|] == batch.expired;
      assert batch.reclaimDead[..|batch.reclaimDead|] == batch.reclaimDead;
      Announce(expired + dead, now);
    }

    /** The claiming half of `run_once`; the runner holds nothing when it claims. */
    method ClaimSession(now: Time, locked: set<Id>) returns (batch: ClaimBatch)
      requires Valid() && held == map[]
      modifies db, this`held
      ensures Valid()
      ensures WorkSessions.ClaimSession(old(View()), workerId, lease, batchSize, locked, now, batch, View())
      ensures held == Granted(batch, db.items, now + lease)
    {
      batch := work.ClaimDue(now, workerId, lease, batchSize, locked);
      AnnounceDeaths(batch, now);
      held := Granted(batch, db.items, now + lease);
    }

    /** `_process_item` up to the handler call. */
    method StartSession(id: Id) returns (result: WriteResult)
      requires Valid() && id in held
      modifies db`items, this`held
      ensures (db.items, result) == MarkRunning(old(db.items), id, Some(workerId))
      ensures held == if result == Wrote(Running) then old(held)[id := old(held)[id].(phase := Handling)]
                      else old(held) - {id}
    {
      result := work.MarkRunning(id, Some(workerId));
      held := if result == Wrote(Running) then held[id := held[id].(phase := Handling)] else held - {id};
    }

    /** One heartbeat. */
    method BeatSession(id: Id, now: Time) returns (renewed: bool)
      requires Valid() && id in held
      modifies db`items, this`held
      ensures (db.items, renewed) == Renew(old(db.items), id, workerId, now + lease)
      ensures held == if renewed then old(held)[id := old(held)[id].(until := now + lease)] else old(held)
    {
      renewed := work.RenewLease(id, workerId, lease, now);
      if renewed {
        held := held[id := held[id].(until := now + lease)];
      }
    }

    /** The handler returned. */
    method SucceedSession(id: Id, now: Time) returns (result: WriteResult)
      requires Valid() && id in held
      modifies db, this`held
      ensures Valid() && (View(), result) == WorkSessions.SucceedSession(old(View()), workerId, id, now)
      ensures held == old(held) - {id}
    {
      result := work.MarkSucceeded(id, Some(workerId));
      if result == Wrote(Succeeded) {
        Announce([SucceededName(id)], now);
      }
      held := held - {id};
    }

    /** The handler raised: `_fail_item`, with its rollback of a non-final failure. */
    method FailSession(id: Id, now: Time) returns (result: WriteResult)
      requires Valid() && id in held
      modifies db, this`held
      ensures Valid() && (View(), result) == WorkSessions.FailSession(old(View()), workerId, id, backoff, now, false)
      ensures held == old(held) - {id}
      ensures result == Wrote(Pending) ==> db.items == old(db.items)
    {
      var saved := db.items;
      result := work.MarkFailed(id, Some(workerId), backoff, now);
      if result == Wrote(Dead) {
        Announce([DeadName(id)], now);
      } else if result == Wrote(Pending) {
        db.items := saved;  // the session ends without a commit
      }
      held := held - {id};
    }

    /** One item, with nobody else in between. */
    method ProcessItem(id: Id, handler: Handler, now: Time)
      requires Valid() && id in held
      modifies db, this`held
      ensures Valid() && View() == Processed(old(View()), workerId, id, handler, backoff, now)
      ensures held == old(held) - {id}
    {
      var result;
      if handler == Missing {
        result := FailSession(id, now);
        return;
      }
      result := StartSession(id);
      if result != Wrote(Running) {
        return;
      }
      if handler == Raises {
        result := FailSession(id, now);
      } else {
        result := SucceedSession(id, now);
      }
    }

    /** The item is leased to this worker, so processing it will be its end or its start. */
    ghost predicate LeasedHere(d: Shared, id: Id) {
      id in d.items && d.items[id].status == Leased && d.items[id].leaseOwner == Some(workerId)
    }

    /** Every leased item of the batch has come out as its handler's ending says. */
    ghost predicate AllComeOut(d: Shared, ids: seq<Id>, handlers: Id -> Handler, clock: Id -> Time, d': Shared) {
      forall id :: id in ids && LeasedHere(d, id) ==> ComesOut(d.items[id], id, handlers(id), clock(id), d')
    }

    lemma BatchOutcome(d: Shared, ids: seq<Id>, handlers: Id -> Handler, clock: Id -> Time)
      requires NoDuplicates(ids)
      ensures var d' := ProcessedAll(d, workerId, ids, handlers, backoff, clock);
              AllComeOut(d, ids, handlers, clock, d') && OthersUntouched(d, workerId, ids, d')
    {
      BatchUntouched(d, workerId, ids, handlers, backoff, clock);
      forall id | id in ids && LeasedHere(d, id)
        ensures ComesOut(d.items[id], id, handlers(id), clock(id), ProcessedAll(d, workerId, ids, handlers, backoff, clock))
      {
        BatchComesOut(d, workerId, ids, handlers, backoff, clock, id);
      }
    }

    /** The items of a batch in turn. */
    method ProcessBatch(ids: seq<Id>, handlers: Id -> Handler, clock: Id -> Time)
      requires Valid() && NoDuplicates(ids) && forall id :: id in held <==> id in ids
      modifies db, this`held
      ensures Valid() && held == map[]
      ensures View() == ProcessedAll(old(View()), workerId, ids, handlers, backoff, clock)
      ensures AllComeOut(old(View()), ids, handlers, clock, View())
      ensures OthersUntouched(old(View()), workerId, ids, View())
    {
      ghost var before := View();
      for k := 0 to |ids|
        invariant Valid() && View() == ProcessedAll(before, workerId, ids[..k], handlers, backoff, clock)
        invariant forall id :: id in held <==> id in ids && id !in ids[..k]
      {
        assert ids[..k + 1] == ids[..k] + [ids[k]];
        assert ids[..k + 1][..k] == ids[..k];
        LeasedRowIsNew(ids, k);
        ProcessItem(ids[k], handlers(ids[k]), clock(ids[k]));
      }
      assert ids[..|ids|] == ids;
      assert held == map[];
      BatchOutcome(before, ids, handlers, clock);
    }

    lemma ClaimedAreLeasedHere(d: Shared, now: Time, locked: set<Id>, batch: ClaimBatch, d': Shared)
      requires WorkSessions.ClaimSession(d, workerId, lease, batchSize, locked, now, batch, d')
      ensures forall id :: id in batch.claimed ==> id in d.items && LeasedHere(d', id)
    {
      forall id | id in batch.claimed
        ensures id in d.items && LeasedHere(d', id)
      {
        ClaimEffect(d.items, d.ledger, now, workerId, lease, batchSize, locked, batch, d'.items, id);
      }
    }

    /** One poll.  Every claimed item comes out as its handler's ending says, and no other row is touched after the
        claim.  Whatever the handlers do, nothing is held when it returns: the next claim starts empty-handed. */
    method RunOnce(now: Time, locked: set<Id>, handlers: Id -> Handler, clock: Id -> Time)
      returns (batch: ClaimBatch, ghost claimed: Shared)
      requires Valid() && held == map[]
      modifies db, this`held
      ensures Valid() && held == map[]
      ensures WorkSessions.ClaimSession(old(View()), workerId, lease, batchSize, locked, now, batch, claimed)
      ensures View() == ProcessedAll(claimed, workerId, batch.claimed, handlers, backoff, clock)
      ensures forall id :: id in batch.claimed ==>
                id in claimed.items && ComesOut(claimed.items[id], id, handlers(id), clock(id), View())
      ensures OthersUntouched(claimed, workerId, batch.claimed, View())
    {
      ghost var before := View();
      batch := ClaimSession(now, locked);
      claimed := View();
      GrantedKeys(before, workerId, lease, batchSize, locked, now, batch, claimed, now + lease);
      ClaimedAreLeasedHere(before, now, locked, batch, claimed);
      ProcessBatch(batch.claimed, handlers, clock);
    }
  }
}
