/** Durable work: the rows of `work_items` and `runtime_signals`, and what each repository
    operation means, as functions on those rows.  Times are seconds, as reals. */
module WorkModel {
  import opened Prelude

  type Time = real
  type Id = string
  type Worker = string

  datatype Status = Pending | Leased | Running | Succeeded | Failed | Dead | Cancelled
  datatype WakeKind = TimeWake | EventWake

  datatype Item = Item(
    status: Status,
    wakeKind: WakeKind,
    wakeEvent: Option<string>,
    watermark: Option<Time>,
    expiresAt: Option<Time>,
    availableAt: Time,
    attempts: nat,
    maxAttempts: nat,
    leaseOwner: Option<Worker>,
    leaseExpiresAt: Option<Time>)
  {
    predicate InFlight() { status == Leased || status == Running }

    predicate Terminal() { status == Succeeded || status == Dead || status == Cancelled }

    /** The lease is `worker`'s: the fencing test of every outcome write. */
    predicate OwnedBy(worker: Worker) { InFlight() && leaseOwner == Some(worker) }

    function Release(next: Status): Item {
      this.(status := next, leaseOwner := None, leaseExpiresAt := None)
    }
  }

  type Table = map<Id, Item>

  datatype Signal = Signal(id: nat, name: string, emittedAt: Time, emittedBy: string)

  const RUNNER := "work_runner"

  /** Every id in use lies below the next one, so a new row is new. */
  ghost predicate FreshIds(ledger: set<Signal>, nextSignal: nat) {
    forall sig :: sig in ledger ==> sig.id < nextSignal
  }

  // --- The names under which the runner announces an end -----------------------------------

  function SucceededName(id: Id): string { "work.succeeded:" + id }
  function DeadName(id: Id): string { "work.dead:" + id }
  function ExpiredName(id: Id): string { "work.expired:" + id }

  // --- schedule ----------------------------------------------------------------------------

  /** Why `schedule` refuses a wake condition; `None` means it is accepted. */
  datatype ScheduleError = EventNameMissing | EventNameUnexpected

  function WakeError(wakeKind: WakeKind, wakeEvent: Option<string>): Option<ScheduleError> {
    var named := wakeEvent.Some? && wakeEvent.value != "";
    if wakeKind == EventWake && !named then Some(EventNameMissing)
    else if wakeKind == TimeWake && named then Some(EventNameUnexpected)
    else None
  }

  function NewItem(wakeAt: Time, maxAttempts: int, wakeKind: WakeKind, wakeEvent: Option<string>,
                   expiresAt: Option<Time>, now: Time): Item {
    Item(Pending, wakeKind, wakeEvent, if wakeKind == EventWake then Some(now) else None, expiresAt, wakeAt,
         0, Max(1, maxAttempts), None, None)
  }

  // --- claim_due ---------------------------------------------------------------------------

  predicate ExpiredWait(it: Item, now: Time) {
    it.status == Pending && it.expiresAt.Some? && it.expiresAt.value <= now
  }

  /** The deadline sweep: every pending wait past its deadline is dead. */
  function Sweep(items: Table, now: Time): Table {
    map id | id in items :: if ExpiredWait(items[id], now) then items[id].(status := Dead) else items[id]
  }

  /** The ledger holds a signal with the awaited name, strictly after the watermark. */
  predicate Fired(it: Item, ledger: set<Signal>) {
    exists sig :: sig in ledger && Wakes(sig, it)
  }

  predicate Wakes(sig: Signal, it: Item) {
    it.wakeEvent == Some(sig.name) && it.watermark.Some? && sig.emittedAt > it.watermark.value
  }

  predicate LeaseLapsed(it: Item, now: Time) {
    it.InFlight() && it.leaseExpiresAt.Some? && it.leaseExpiresAt.value < now
  }

  /** The WHERE clause of the claim query. */
  predicate Claimable(it: Item, ledger: set<Signal>, now: Time) {
    || (it.status == Pending && it.wakeKind == TimeWake && it.availableAt <= now)
    || (it.status == Pending && it.wakeKind == EventWake && it.availableAt <= now && Fired(it, ledger))
    || LeaseLapsed(it, now)
  }

  function Due(items: Table, ledger: set<Signal>, now: Time, locked: set<Id>): set<Id> {
    set id | id in items && id !in locked && Claimable(items[id], ledger, now)
  }

  /** A lapsed lease whose attempts are used up: claiming it kills it. */
  predicate OutOfAttempts(it: Item) {
    it.InFlight() && it.attempts >= it.maxAttempts
  }

  /** What claiming does to one selected row. */
  function ClaimRow(it: Item, worker: Worker, expiry: Time): Item {
    if OutOfAttempts(it) then it.Release(Dead)
    else it.(status := Leased, leaseOwner := Some(worker), leaseExpiresAt := Some(expiry), attempts := it.attempts + 1)
  }

  function AvailableAt(items: Table): map<Id, Time> {
    map id | id in items :: items[id].availableAt
  }

  /** Each claimed row is known to `key` and no younger than the one after it. */
  ghost predicate InClaimOrder(claimed: seq<Id>, key: map<Id, Time>) {
    && (forall k :: 0 <= k < |claimed| ==> claimed[k] in key)
    && (forall i, j :: 0 <= i < j < |claimed| ==> key[claimed[i]] <= key[claimed[j]])
  }

  datatype ClaimBatch = ClaimBatch(claimed: seq<Id>, expired: seq<Id>, reclaimDead: seq<Id>, reclaimed: nat) {
    function Taken(): set<Id> { Elems(claimed) + Elems(reclaimDead) }
  }

  /** The declarative specification of one claim pass over the tables `items` and `ledger`. */
  ghost predicate ClaimPass(items: Table, ledger: set<Signal>, now: Time, worker: Worker, lease: Time, limit: nat,
                            locked: set<Id>, batch: ClaimBatch, items': Table)
  {
    ClaimFrom(items, Sweep(items, now), Due(Sweep(items, now), ledger, now, locked), now, worker, lease, limit, batch, items')
  }

  /** The same, over the swept table and the set of rows the claim query selects from. */
  ghost predicate ClaimFrom(items: Table, swept: Table, due: set<Id>, now: Time, worker: Worker, lease: Time,
                            limit: nat, batch: ClaimBatch, items': Table)
    requires items.Keys == swept.Keys && due <= swept.Keys
  {
    // Three disjoint lists without repetitions.
    && NoDuplicates(batch.claimed) && NoDuplicates(batch.expired) && NoDuplicates(batch.reclaimDead)
    && Elems(batch.claimed) !! Elems(batch.reclaimDead)
    && batch.Taken() !! Elems(batch.expired)
    // Exactly the overdue waits expire.
    && (forall id :: id in batch.expired <==> id in items && ExpiredWait(items[id], now))
    // The rows taken are the `limit` oldest due ones, each in the list its attempts call for.
    && (forall id :: id in batch.claimed ==> id in due && !OutOfAttempts(swept[id]))
    && (forall id :: id in batch.reclaimDead ==> id in due && OutOfAttempts(swept[id]))
    && |batch.claimed| + |batch.reclaimDead| == Min(limit, |due|)
    && (forall x, y :: x in batch.Taken() && y in due && y !in batch.Taken() ==>
                         swept[x].availableAt <= swept[y].availableAt)
    && InClaimOrder(batch.claimed, AvailableAt(swept))
    && batch.reclaimed == |TakenOver(batch.claimed, swept)|
    // What the table holds afterwards, row by row.
    && items'.Keys == items.Keys
    && (forall id :: id in items ==>
                       items'[id] == if id in batch.Taken() then ClaimRow(swept[id], worker, now + lease) else swept[id])
  }

  /** What a claim pass does to one existing row: it expires, is leased, is killed, or is left alone. */
  ghost predicate ClaimedAs(items: Table, ledger: set<Signal>, now: Time, worker: Worker, expiry: Time,
                            batch: ClaimBatch, items': Table, id: Id)
    requires id in items
  {
    var it := items[id];
    && id in items'
    && (id in batch.expired ==>
          && it.status == Pending && items'[id] == it.(status := Dead)
          && id !in batch.claimed && id !in batch.reclaimDead)
    && (id in batch.claimed ==>
          && id !in batch.reclaimDead && !OutOfAttempts(it) && Claimable(it, ledger, now)
          && items'[id] == ClaimRow(it, worker, expiry))
    && (id in batch.reclaimDead ==>
          OutOfAttempts(it) && LeaseLapsed(it, now) && items'[id] == it.Release(Dead))
    && (id !in batch.expired && id !in batch.claimed && id !in batch.reclaimDead ==> items'[id] == it)
  }

  lemma ClaimEffect(items: Table, ledger: set<Signal>, now: Time, worker: Worker, lease: Time, limit: nat,
                    locked: set<Id>, batch: ClaimBatch, items': Table, id: Id)
    requires ClaimPass(items, ledger, now, worker, lease, limit, locked, batch, items')
    requires id in items
    ensures ClaimedAs(items, ledger, now, worker, now + lease, batch, items', id)
  {
    var swept := Sweep(items, now);
    assert id in batch.claimed ==> id in Elems(batch.claimed) && id in batch.Taken();
    assert id in batch.reclaimDead ==> id in Elems(batch.reclaimDead) && id in batch.Taken();
    assert id in batch.expired ==> id in Elems(batch.expired);
  }

  /** What the claim loop has done once it has visited exactly `rows`. */
  ghost predicate RowsTaken(rows: seq<Id>, swept: Table, worker: Worker, expiry: Time, claimed: seq<Id>,
                            reclaimDead: seq<Id>, reclaimed: nat, items': Table)
    requires forall id :: id in rows ==> id in swept
  {
    && NoDuplicates(claimed) && NoDuplicates(reclaimDead)
    && |claimed| + |reclaimDead| == |rows|
    && (forall id :: id in claimed <==> id in rows && !OutOfAttempts(swept[id]))
    && (forall id :: id in reclaimDead <==> id in rows && OutOfAttempts(swept[id]))
    && reclaimed == |TakenOver(claimed, swept)|
    && items'.Keys == swept.Keys
    && (forall id :: id in swept ==>
                       items'[id] == if id in rows then ClaimRow(swept[id], worker, expiry) else swept[id])
  }

  function TakenOver(claimed: seq<Id>, swept: Table): set<Id> {
    set id | id in claimed && id in swept && swept[id].InFlight()
  }

  /** The next row is still as it was swept. */
  lemma NextRow(rows: seq<Id>, k: nat, swept: Table, worker: Worker, expiry: Time, claimed: seq<Id>,
                reclaimDead: seq<Id>, reclaimed: nat, items: Table)
    requires k < |rows| && NoDuplicates(rows) && forall x :: x in rows ==> x in swept
    requires RowsTaken(rows[..k], swept, worker, expiry, claimed, reclaimDead, reclaimed, items)
    ensures rows[k] in items && items[rows[k]] == swept[rows[k]]
  {
    LeasedRowIsNew(rows, k);
  }

  /** The loop body extends `RowsTaken` by a row it kills … */
  lemma KillRow(rows: seq<Id>, k: nat, swept: Table, worker: Worker, expiry: Time, claimed: seq<Id>,
                reclaimDead: seq<Id>, reclaimed: nat, items: Table)
    requires k < |rows| && NoDuplicates(rows) && forall x :: x in rows ==> x in swept
    requires RowsTaken(rows[..k], swept, worker, expiry, claimed, reclaimDead, reclaimed, items)
    requires OutOfAttempts(swept[rows[k]])
    ensures RowsTaken(rows[..k + 1], swept, worker, expiry, claimed, reclaimDead + [rows[k]], reclaimed,
                      items[rows[k] := swept[rows[k]].Release(Dead)])
  {
    assert rows[..k + 1] == rows[..k] + [rows[k]];
    LeasedRowIsNew(rows, k);
  }

  /** … or by a row it leases, and keeps the claimed rows in age order. */
  lemma LeaseRow(rows: seq<Id>, k: nat, swept: Table, worker: Worker, expiry: Time, claimed: seq<Id>,
                 reclaimDead: seq<Id>, reclaimed: nat, items: Table)
    requires k < |rows| && NoDuplicates(rows) && InClaimOrder(rows, AvailableAt(swept))
    requires forall x :: x in rows ==> x in swept
    requires RowsTaken(rows[..k], swept, worker, expiry, claimed, reclaimDead, reclaimed, items)
    requires InClaimOrder(claimed, AvailableAt(swept))
    requires !OutOfAttempts(swept[rows[k]])
    ensures RowsTaken(rows[..k + 1], swept, worker, expiry, claimed + [rows[k]], reclaimDead,
                      reclaimed + (if swept[rows[k]].InFlight() then 1 else 0),
                      items[rows[k] := ClaimRow(swept[rows[k]], worker, expiry)])
    ensures InClaimOrder(claimed + [rows[k]], AvailableAt(swept))
  {
    var id := rows[k];
    assert rows[..k + 1] == rows[..k] + [id];
    LeasedRowIsNew(rows, k);
    TakenOverGrows(claimed, id, swept);
    forall j | 0 <= j < |claimed|
      ensures swept[claimed[j]].availableAt <= swept[id].availableAt
    {
      assert claimed[j] in rows[..k];
    }
  }

  lemma LeasedRowIsNew(rows: seq<Id>, k: nat)
    requires k < |rows| && NoDuplicates(rows)
    ensures rows[k] !in rows[..k]
  {
  }

  lemma TakenOverGrows(claimed: seq<Id>, id: Id, swept: Table)
    requires id in swept && id !in claimed
    ensures |TakenOver(claimed + [id], swept)| == |TakenOver(claimed, swept)| + (if swept[id].InFlight() then 1 else 0)
  {
    assert TakenOver(claimed + [id], swept) == TakenOver(claimed, swept) + (if swept[id].InFlight() then {id} else {});
  }

  /** Once every selected row has been visited, the pass is the one specified. */
  lemma VisitedAll(items: Table, ledger: set<Signal>, now: Time, worker: Worker, lease: Time, limit: nat,
                   locked: set<Id>, rows: seq<Id>, batch: ClaimBatch, items': Table)
    requires var swept := Sweep(items, now);
             && IsOldestFirst(rows, Due(swept, ledger, now, locked), AvailableAt(swept), limit)
             && RowsTaken(rows, swept, worker, now + lease, batch.claimed, batch.reclaimDead, batch.reclaimed, items')
             && InClaimOrder(batch.claimed, AvailableAt(swept))
    requires NoDuplicates(batch.expired)
    requires forall id :: id in batch.expired <==> id in items && ExpiredWait(items[id], now)
    ensures ClaimPass(items, ledger, now, worker, lease, limit, locked, batch, items')
  {
    assert forall id :: id in batch.Taken() <==> id in rows;
  }

  // --- The fenced single-row writes --------------------------------------------------------

  datatype WriteResult = Wrote(status: Status) | Fenced | Stale

  predicate FencedOut(it: Item, expected: Option<Worker>) {
    expected.Some? && it.leaseOwner != expected
  }

  function Renew(items: Table, id: Id, worker: Worker, until: Time): (Table, bool) {
    if id in items && items[id].OwnedBy(worker)
    then (items[id := items[id].(leaseExpiresAt := Some(until))], true)
    else (items, false)
  }

  function MarkRunning(items: Table, id: Id, expected: Option<Worker>): (Table, WriteResult) {
    if id !in items || items[id].status != Leased then (items, Stale)
    else if FencedOut(items[id], expected) then (items, Fenced)
    else (items[id := items[id].(status := Running)], Wrote(Running))
  }

  function MarkSucceeded(items: Table, id: Id, expected: Option<Worker>): (Table, WriteResult) {
    if id !in items || !items[id].InFlight() then (items, Stale)
    else if FencedOut(items[id], expected) then (items, Fenced)
    else (items[id := items[id].Release(Succeeded)], Wrote(Succeeded))
  }

  function MarkFailed(items: Table, id: Id, expected: Option<Worker>, retryAt: Time): (Table, WriteResult) {
    if id !in items || !items[id].InFlight() then (items, Stale)
    else if FencedOut(items[id], expected) then (items, Fenced)
    else if items[id].attempts >= items[id].maxAttempts then (items[id := items[id].Release(Dead)], Wrote(Dead))
    else (items[id := items[id].Release(Pending).(availableAt := retryAt)], Wrote(Pending))
  }

  function Cancel(items: Table, id: Id): (Table, Option<Status>) {
    if id !in items then (items, None)
    else if items[id].Terminal() then (items, Some(items[id].status))
    else (items[id := items[id].Release(Cancelled)], Some(Cancelled))
  }

  // --- prune -------------------------------------------------------------------------------

  /** Some pending event wait can still be woken by this signal. */
  predicate Needed(sig: Signal, items: Table) {
    exists id :: id in items && items[id].status == Pending && items[id].wakeKind == EventWake && Wakes(sig, items[id])
  }

  function PruneSafe(ledger: set<Signal>, items: Table): set<Signal> {
    set sig | sig in ledger && !Needed(sig, items)
  }

  function PruneSafeBefore(ledger: set<Signal>, items: Table, cutoff: Time): set<Signal> {
    set sig | sig in ledger && !Needed(sig, items) && sig.emittedAt < cutoff
  }

  function EmittedAt(ledger: set<Signal>): map<Signal, Time> {
    map sig | sig in ledger :: sig.emittedAt
  }

  datatype PruneStats = PruneStats(retentionDeleted: nat, boundDeleted: nat, ledgerTotalAfter: int)

  function Cutoff(now: Time, retention: Time): Time { now - (if retention > 0.0 then retention else 0.0) }

  /** `rows` is an oldest-first choice of at most `n` rows of `from`. */
  ghost predicate OldestRows(rows: set<Signal>, from: set<Signal>, n: nat) {
    && rows <= from
    && |rows| == Min(n, |from|)
    && (forall x, y :: x in rows && y in from - rows ==> x.emittedAt <= y.emittedAt)
  }

  /** The rows a pass deletes: `aged` by age, then `surplus` by count. */
  datatype Deletion = Deletion(aged: set<Signal>, surplus: set<Signal>)

  const NOTHING := Deletion({}, {})

  /** One retention pass.  `None` is the IndexError of a zero per-pass cap with rows to delete. */
  ghost predicate PrunePass(ledger: set<Signal>, items: Table, now: Time, retention: Time, maxRows: int, cap: nat,
                            gone: Deletion, stats: Option<PruneStats>, ledger': set<Signal>)
  {
    var overdue := PruneSafeBefore(ledger, items, Cutoff(now, retention));
    if cap == 0 && overdue != {} then stats == None && gone == NOTHING && ledger' == ledger
    else stats.Some? && PruneStages(ledger, items, overdue, maxRows, cap, gone, stats.value, ledger')
  }

  /** The two stages of a pass. */
  ghost predicate PruneStages(ledger: set<Signal>, items: Table, overdue: set<Signal>, maxRows: int, cap: nat,
                              gone: Deletion, stats: PruneStats, ledger': set<Signal>)
  {
    var aged, surplus := gone.aged, gone.surplus;
    && OldestRows(aged, overdue, cap)
    && OldestRows(surplus, PruneSafe(ledger - aged, items), Min(cap, Max(0, |ledger - aged| - maxRows)))
    && ledger' == ledger - aged - surplus
    && stats == PruneStats(|aged|, |surplus|, |ledger - aged| - |surplus|)
  }

  lemma StagesMakePass(ledger: set<Signal>, items: Table, now: Time, retention: Time, maxRows: int, cap: nat,
                       gone: Deletion, ledger': set<Signal>)
    requires cap == 0 ==> PruneSafeBefore(ledger, items, Cutoff(now, retention)) == {}
    requires OldestRows(gone.aged, PruneSafeBefore(ledger, items, Cutoff(now, retention)), cap)
    requires OldestRows(gone.surplus, PruneSafe(ledger - gone.aged, items),
                        Min(cap, Max(0, |ledger - gone.aged| - maxRows)))
    requires ledger' == ledger - gone.aged - gone.surplus
    ensures PrunePass(ledger, items, now, retention, maxRows, cap, gone,
                      Some(PruneStats(|gone.aged|, |gone.surplus|, |ledger - gone.aged| - |gone.surplus|)), ledger')
  {
    var stats := PruneStats(|gone.aged|, |gone.surplus|, |ledger - gone.aged| - |gone.surplus|);
    assert PruneStages(ledger, items, PruneSafeBefore(ledger, items, Cutoff(now, retention)), maxRows, cap, gone, stats,
                       ledger');
  }

  lemma NothingPruned(ledger: set<Signal>, items: Table, now: Time, retention: Time, maxRows: int, cap: nat)
    requires cap == 0 && PruneSafeBefore(ledger, items, Cutoff(now, retention)) != {}
    ensures PrunePass(ledger, items, now, retention, maxRows, cap, NOTHING, None, ledger)
  {
  }
}
