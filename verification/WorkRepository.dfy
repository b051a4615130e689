/** `WorkRepository` and `SignalRepository`: the two data-access objects over one database. */
module WorkRepository {
  import opened Prelude
  import opened WorkModel

  /** The two tables, and the next free signal id. */
  class Database {
    var items: Table
    var ledger: set<Signal>
    var nextSignal: nat

    ghost predicate Valid()
      reads `ledger, `nextSignal
    {
      FreshIds(ledger, nextSignal)
    }

    constructor ()
      ensures Valid() && items == map[] && ledger == {} && nextSignal == 0
    {
      items, ledger, nextSignal := map[], {}, 0;
    }
  }

  class WorkRepository {
    const db: Database

    constructor (db: Database)
      ensures this.db == db
    {
      this.db := db;
    }

    /** `id` is the fresh ULID. */
    method Schedule(id: Id, wakeAt: Time, maxAttempts: int, wakeKind: WakeKind, wakeEvent: Option<string>,
                    expiresAt: Option<Time>, now: Time) returns (error: Option<ScheduleError>)
      requires id !in db.items
      modifies db`items
      ensures error == WakeError(wakeKind, wakeEvent)
      ensures error == Some(EventNameMissing) <==> wakeKind == EventWake && (wakeEvent == None || wakeEvent == Some(""))
      ensures error == Some(EventNameUnexpected) <==> wakeKind == TimeWake && wakeEvent.Some? && wakeEvent != Some("")
      ensures db.items == if error.Some? then old(db.items)
                          else old(db.items)[id := NewItem(wakeAt, maxAttempts, wakeKind, wakeEvent, expiresAt, now)]
      ensures error == None ==>
                db.items[id] == Item(Pending, wakeKind, wakeEvent, if wakeKind == EventWake then Some(now) else None,
                                     expiresAt, wakeAt, 0, if maxAttempts < 1 then 1 else maxAttempts, None, None)
    {
      if wakeKind == EventWake && (wakeEvent == None || wakeEvent.value == "") {
        return Some(EventNameMissing);
      }
      if wakeKind == TimeWake && wakeEvent.Some? && wakeEvent.value != "" {
        return Some(EventNameUnexpected);
      }
      var item := NewItem(wakeAt, maxAttempts, wakeKind, wakeEvent, expiresAt, now);
      db.items := db.items[id := item];
      error := None;
    }

    /** The deadline sweep of `claim_due`, row by row. */
    method ExpireWaits(now: Time) returns (expired: seq<Id>)
      modifies db`items
      ensures db.items == Sweep(old(db.items), now)
      ensures NoDuplicates(expired)
      ensures forall id :: id in expired <==> id in old(db.items) && ExpiredWait(old(db.items)[id], now)
      ensures forall id :: id in expired <==>
                && id in old(db.items) && old(db.items)[id].status == Pending
                && old(db.items)[id].expiresAt.Some? && old(db.items)[id].expiresAt.value <= now
    {
      ghost var before := db.items;
      expired := [];
      var rest := set id | id in db.items && ExpiredWait(db.items[id], now);
      ghost var selected := rest;
      while rest != {}
        invariant rest <= selected && NoDuplicates(expired)
        invariant forall id :: id in expired <==> id in selected && id !in rest
        invariant db.items.Keys == before.Keys
        invariant forall id :: id in before ==>
                    db.items[id] == if id in expired then before[id].(status := Dead) else before[id]
        decreases rest
      {
        var id :| id in rest;
        db.items := db.items[id := db.items[id].(status := Dead)];
        expired, rest := expired + [id], rest - {id};
      }
      assert db.items == Sweep(before, now);
    }

    /** The claim loop over the selected rows. */
    method ClaimRows(rows: seq<Id>, worker: Worker, expiry: Time)
      returns (claimed: seq<Id>, reclaimDead: seq<Id>, reclaimed: nat)
      requires NoDuplicates(rows) && InClaimOrder(rows, AvailableAt(db.items))
      requires forall id :: id in rows ==> id in db.items
      modifies db`items
      ensures RowsTaken(rows, old(db.items), worker, expiry, claimed, reclaimDead, reclaimed, db.items)
      ensures InClaimOrder(claimed, AvailableAt(old(db.items)))
    {
      ghost var swept := db.items;
      claimed, reclaimDead, reclaimed := [], [], 0;
      assert TakenOver([], swept) == {};
      for k := 0 to |rows|
        invariant RowsTaken(rows[..k], swept, worker, expiry, claimed, reclaimDead, reclaimed, db.items)
        invariant InClaimOrder(claimed, AvailableAt(swept))
      {
        NextRow(rows, k, swept, worker, expiry, claimed, reclaimDead, reclaimed, db.items);
        var id := rows[k];
        var item := db.items[id];
        if item.InFlight() && item.attempts >= item.maxAttempts {
          KillRow(rows, k, swept, worker, expiry, claimed, reclaimDead, reclaimed, db.items);
          db.items := db.items[id := item.Release(Dead)];
          reclaimDead := reclaimDead + [id];
        } else {
          LeaseRow(rows, k, swept, worker, expiry, claimed, reclaimDead, reclaimed, db.items);
          if item.InFlight() {
            reclaimed := reclaimed + 1;
          }
          db.items := db.items[id := item.(status := Leased, leaseOwner := Some(worker),
                                           leaseExpiresAt := Some(expiry), attempts := item.attempts + 1)];
          claimed := claimed + [id];
        }
      }
      assert rows[..|rows|] == rows;
    }

    method ClaimDue(now: Time, worker: Worker, lease: Time, limit: nat, locked: set<Id>) returns (batch: ClaimBatch)
      modifies db`items
      ensures ClaimPass(old(db.items), db.ledger, now, worker, lease, limit, locked, batch, db.items)
    {
      var expired := ExpireWaits(now);
      var rows := OldestFirst(Due(db.items, db.ledger, now, locked), AvailableAt(db.items), limit);
      var claimed, reclaimDead, reclaimed := ClaimRows(rows, worker, now + lease);
      batch := ClaimBatch(claimed, expired, reclaimDead, reclaimed);
      VisitedAll(old(db.items), db.ledger, now, worker, lease, limit, locked, rows, batch, db.items);
    }

    method RenewLease(id: Id, worker: Worker, lease: Time, now: Time) returns (renewed: bool)
      modifies db`items
      ensures (db.items, renewed) == Renew(old(db.items), id, worker, now + lease)
      ensures renewed <==>
                && id in old(db.items) && old(db.items)[id].leaseOwner == Some(worker)
                && (old(db.items)[id].status == Leased || old(db.items)[id].status == Running)
      ensures db.items == if renewed then old(db.items)[id := old(db.items)[id].(leaseExpiresAt := Some(now + lease))]
                          else old(db.items)
    {
      if id !in db.items || db.items[id].leaseOwner != Some(worker) {
        return false;
      }
      if !db.items[id].InFlight() {
        return false;
      }
      db.items := db.items[id := db.items[id].(leaseExpiresAt := Some(now + lease))];
      renewed := true;
    }

    method MarkRunning(id: Id, expected: Option<Worker>) returns (result: WriteResult)
      modifies db`items
      ensures (db.items, result) == WorkModel.MarkRunning(old(db.items), id, expected)
      ensures result == Stale <==> id !in old(db.items) || old(db.items)[id].status != Leased
      ensures result == Fenced <==>
                && id in old(db.items) && old(db.items)[id].status == Leased
                && expected.Some? && old(db.items)[id].leaseOwner != expected
      ensures result == Stale || result == Fenced ==> db.items == old(db.items)
      ensures result != Stale && result != Fenced ==>
                result == Wrote(Running) && db.items == old(db.items)[id := old(db.items)[id].(status := Running)]
    {
      if id !in db.items || db.items[id].status != Leased {
        return Stale;
      }
      if FencedOut(db.items[id], expected) {
        return Fenced;
      }
      db.items := db.items[id := db.items[id].(status := Running)];
      result := Wrote(Running);
    }

    method MarkSucceeded(id: Id, expected: Option<Worker>) returns (result: WriteResult)
      modifies db`items
      ensures (db.items, result) == WorkModel.MarkSucceeded(old(db.items), id, expected)
      ensures result == Stale <==>
                id !in old(db.items) || (old(db.items)[id].status != Leased && old(db.items)[id].status != Running)
      ensures result == Fenced <==>
                && id in old(db.items) && (old(db.items)[id].status == Leased || old(db.items)[id].status == Running)
                && expected.Some? && old(db.items)[id].leaseOwner != expected
      ensures result == Stale || result == Fenced ==> db.items == old(db.items)
      ensures result != Stale && result != Fenced ==>
                && result == Wrote(Succeeded)
                && db.items == old(db.items)[id := old(db.items)[id].(status := Succeeded, leaseOwner := None,
                                                                      leaseExpiresAt := None)]
    {
      if id !in db.items || !db.items[id].InFlight() {
        return Stale;
      }
      if FencedOut(db.items[id], expected) {
        return Fenced;
      }
      db.items := db.items[id := db.items[id].(status := Succeeded, leaseOwner := None, leaseExpiresAt := None)];
      result := Wrote(Succeeded);
    }

    method MarkFailed(id: Id, expected: Option<Worker>, backoff: Time, now: Time) returns (result: WriteResult)
      modifies db`items
      ensures (db.items, result) == WorkModel.MarkFailed(old(db.items), id, expected, now + backoff)
      ensures result == Stale <==>
                id !in old(db.items) || (old(db.items)[id].status != Leased && old(db.items)[id].status != Running)
      ensures result == Fenced <==>
                && id in old(db.items) && (old(db.items)[id].status == Leased || old(db.items)[id].status == Running)
                && expected.Some? && old(db.items)[id].leaseOwner != expected
      ensures result == Stale || result == Fenced ==> db.items == old(db.items)
      ensures result != Stale && result != Fenced && old(db.items)[id].attempts >= old(db.items)[id].maxAttempts ==>
                && result == Wrote(Dead)
                && db.items == old(db.items)[id := old(db.items)[id].(status := Dead, leaseOwner := None,
                                                                      leaseExpiresAt := None)]
      ensures result != Stale && result != Fenced && old(db.items)[id].attempts < old(db.items)[id].maxAttempts ==>
                && result == Wrote(Pending)
                && db.items == old(db.items)[id := old(db.items)[id].(status := Pending, availableAt := now + backoff,
                                                                      leaseOwner := None, leaseExpiresAt := None)]
    {
      if id !in db.items || !db.items[id].InFlight() {
        return Stale;
      }
      var item := db.items[id];
      if FencedOut(item, expected) {
        return Fenced;
      }
      if item.attempts >= item.maxAttempts {
        item := item.(status := Dead, leaseOwner := None, leaseExpiresAt := None);
      } else {
        item := item.(status := Pending, availableAt := now + backoff, leaseOwner := None, leaseExpiresAt := None);
      }
      db.items := db.items[id := item];
      result := Wrote(item.status);
    }

    method Cancel(id: Id) returns (status: Option<Status>)
      modifies db`items
      ensures (db.items, status) == WorkModel.Cancel(old(db.items), id)
      ensures status == None <==> id !in old(db.items)
      ensures id in old(db.items) && old(db.items)[id].status in {Succeeded, Dead, Cancelled} ==>
                status == Some(old(db.items)[id].status) && db.items == old(db.items)
      ensures id in old(db.items) && old(db.items)[id].status !in {Succeeded, Dead, Cancelled} ==>
                && status == Some(Cancelled)
                && db.items == old(db.items)[id := old(db.items)[id].(status := Cancelled, leaseOwner := None,
                                                                      leaseExpiresAt := None)]
    {
      if id !in db.items {
        return None;
      }
      if db.items[id].Terminal() {
        return Some(db.items[id].status);
      }
      db.items := db.items[id := db.items[id].Release(Cancelled)];
      status := Some(Cancelled);
    }
  }

  class SignalRepository {
    const db: Database

    constructor (db: Database)
      ensures this.db == db
    {
      this.db := db;
    }

    /** One row more, whatever the name: an old row is never the new one. */
    method Emit(name: string, emittedBy: string, at: Time)
      requires db.Valid()
      modifies db`ledger, db`nextSignal
      ensures db.Valid() && |db.ledger| == |old(db.ledger)| + 1
      ensures db.ledger == old(db.ledger) + {Signal(old(db.nextSignal), name, at, emittedBy)}
      ensures db.nextSignal == old(db.nextSignal) + 1
    {
      db.ledger := db.ledger + {Signal(db.nextSignal, name, at, emittedBy)};
      db.nextSignal := db.nextSignal + 1;
    }

    /** The newest signal with this name strictly after `after`. */
    method HasSignalSince(name: string, after: Time) returns (newest: Option<Signal>)
      ensures newest == None <==> forall sig :: sig in db.ledger && sig.name == name ==> sig.emittedAt <= after
      ensures newest.Some? ==> newest.value in db.ledger && newest.value.name == name && newest.value.emittedAt > after
      ensures newest.Some? ==> forall sig :: sig in db.ledger && sig.name == name ==> sig.emittedAt <= newest.value.emittedAt
    {
      newest := None;
      var rest := set sig | sig in db.ledger && sig.name == name && sig.emittedAt > after;
      ghost var matching := rest;
      while rest != {}
        invariant rest <= matching
        invariant newest == None <==> rest == matching
        invariant newest.Some? ==> newest.value in matching
        invariant newest.Some? ==> forall sig :: sig in matching - rest ==> sig.emittedAt <= newest.value.emittedAt
        decreases rest
      {
        var sig :| sig in rest;
        if newest == None || newest.value.emittedAt < sig.emittedAt {
          newest := Some(sig);
        }
        rest := rest - {sig};
      }
      assert newest == None ==> matching == {};
      assert forall sig :: sig in db.ledger && sig.name == name && sig.emittedAt > after ==> sig in matching;
    }

    /** The retention stage; `None` is the IndexError. */
    method PruneAged(cutoff: Time, cap: nat) returns (aged: Option<set<Signal>>)
      modifies db`ledger
      ensures aged == None <==> cap == 0 && PruneSafeBefore(old(db.ledger), db.items, cutoff) != {}
      ensures aged == None ==> db.ledger == old(db.ledger)
      ensures aged.Some? ==>
                && OldestRows(aged.value, PruneSafeBefore(old(db.ledger), db.items, cutoff), cap)
                && db.ledger == old(db.ledger) - aged.value
    {
      var overdue := PruneSafeBefore(db.ledger, db.items, cutoff);
      if |overdue| == 0 {
        return Some({});
      }
      var rows := OldestSet(overdue, cap);
      if rows == {} {
        return None;  // indexing the empty result raises; nothing has been written
      }
      db.ledger := db.ledger - rows;
      aged := Some(rows);
    }

    /** The bounded-storage stage. */
    method PruneSurplus(maxRows: int, cap: nat) returns (surplus: set<Signal>, total: nat)
      modifies db`ledger
      ensures total == |old(db.ledger)|
      ensures OldestRows(surplus, PruneSafe(old(db.ledger), db.items), Min(cap, Max(0, total - maxRows)))
      ensures db.ledger == old(db.ledger) - surplus
    {
      total, surplus := |db.ledger|, {};
      if total > maxRows {
        surplus := OldestSet(PruneSafe(db.ledger, db.items), Min(cap, total - maxRows));
        db.ledger := db.ledger - surplus;
      }
    }

    method Prune(now: Time, retention: Time, maxRows: int, cap: nat)
      returns (stats: Option<PruneStats>, ghost gone: Deletion)
      modifies db`ledger
      ensures PrunePass(old(db.ledger), db.items, now, retention, maxRows, cap, gone, stats, db.ledger)
      ensures old(db.Valid()) ==> db.Valid()
    {
      ghost var before := db.ledger;
      var aged := PruneAged(Cutoff(now, retention), cap);
      if aged == None {
        NothingPruned(before, db.items, now, retention, maxRows, cap);
        return None, NOTHING;
      }
      var surplus, total := PruneSurplus(maxRows, cap);
      stats := Some(PruneStats(|aged.value|, |surplus|, total - |surplus|));
      gone := Deletion(aged.value, surplus);
      StagesMakePass(before, db.items, now, retention, maxRows, cap, gone, db.ledger);
    }

    method OldestSet(from: set<Signal>, n: nat) returns (rows: set<Signal>)
      ensures OldestRows(rows, from, n)
    {
      var chosen := OldestFirst(from, EmittedAt(from), n);
      rows := Elems(chosen);
      ElemsCard(chosen);
    }
  }
}
