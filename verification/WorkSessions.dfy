/** What the runner's database sessions mean.  Each session is one transaction: a repository
    write and the announcement of whatever it ended. */
module WorkSessions {
  import opened Prelude
  import opened WorkModel

  /** What every worker sees. */
  datatype Shared = Shared(items: Table, ledger: set<Signal>, nextSignal: nat)

  function Rows(names: seq<string>, first: nat, at: Time): set<Signal> {
    set k | 0 <= k < |names| :: Signal(first + k, names[k], at, RUNNER)
  }

  lemma RowOf(names: seq<string>, k: nat, first: nat, at: Time)
    requires k < |names|
    ensures Signal(first + k, names[k], at, RUNNER) in Rows(names, first, at)
  {
  }

  function Named(rows: set<Signal>, name: string): set<Signal> {
    set sig | sig in rows && sig.name == name
  }

  /** As many rows as names, and as many rows of a name as the name occurs. */
  lemma {:induction false} RowsCount(names: seq<string>, first: nat, at: Time, name: string)
    ensures |Rows(names, first, at)| == |names|
    ensures |Named(Rows(names, first, at), name)| == multiset(names)[name]
  {
    if names != [] {
      var n := |names| - 1;
      var last := Signal(first + n, names[n], at, RUNNER);
      RowsCount(names[..n], first, at, name);
      RowsGrow(names, n, first, at);
      assert names[..n + 1] == names == names[..n] + [names[n]];
      OneMoreRow(Rows(names[..n], first, at), last, name);
    }
  }

  lemma OneMoreRow(rows: set<Signal>, last: Signal, name: string)
    requires last !in rows
    ensures |rows + {last}| == |rows| + 1
    ensures |Named(rows + {last}, name)| == |Named(rows, name)| + (if last.name == name then 1 else 0)
  {
    assert Named(rows + {last}, name) == Named(rows, name) + (if last.name == name then {last} else {});
  }

  lemma RowsGrow(names: seq<string>, k: nat, first: nat, at: Time)
    requires k < |names|
    ensures Rows(names[..k + 1], first, at) == Rows(names[..k], first, at) + {Signal(first + k, names[k], at, RUNNER)}
  {
    var prefix, longer := names[..k], names[..k + 1];
    assert longer[k] == names[k];
    forall j | 0 <= j < k
      ensures longer[j] == prefix[j]
    {
    }
  }

  /** Append one runner signal per name. */
  function Publish(d: Shared, names: seq<string>, at: Time): Shared {
    Shared(d.items, d.ledger + Rows(names, d.nextSignal, at), d.nextSignal + |names|)
  }

  lemma PublishNothing(d: Shared, names: seq<string>, at: Time)
    ensures Publish(d, names[..0], at) == d
  {
  }

  lemma PublishGrows(d: Shared, names: seq<string>, k: nat, at: Time)
    requires k < |names|
    ensures var p := Publish(d, names[..k], at);
            Publish(d, names[..k + 1], at)
            == Shared(p.items, p.ledger + {Signal(p.nextSignal, names[k], at, RUNNER)}, p.nextSignal + 1)
  {
    RowsGrow(names, k, d.nextSignal, at);
  }

  /** With fresh ids, publishing inserts exactly one new row per name. */
  lemma PublishInserts(d: Shared, names: seq<string>, at: Time, name: string)
    requires FreshIds(d.ledger, d.nextSignal)
    ensures var d' := Publish(d, names, at);
            && FreshIds(d'.ledger, d'.nextSignal) && |d'.ledger| == |d.ledger| + |names|
            && |Named(d'.ledger - d.ledger, name)| == multiset(names)[name]
  {
    var rows := Rows(names, d.nextSignal, at);
    RowsCount(names, d.nextSignal, at, name);
    assert rows !! d.ledger;
    assert Publish(d, names, at).ledger - d.ledger == rows;
  }

  function Prefixed(prefix: string, ids: seq<Id>): seq<string> {
    if ids == [] then [] else Prefixed(prefix, ids[..|ids| - 1]) + [prefix + ids[|ids| - 1]]
  }

  /** The deaths of a claim pass, as signal names. */
  function ClaimNews(batch: ClaimBatch): seq<string> {
    Prefixed("work.expired:", batch.expired) + Prefixed("work.dead:", batch.reclaimDead)
  }

  ghost predicate ClaimSession(d: Shared, worker: Worker, lease: Time, limit: nat, locked: set<Id>, now: Time,
                               batch: ClaimBatch, d': Shared)
  {
    && ClaimPass(d.items, d.ledger, now, worker, lease, limit, locked, batch, d'.items)
    && d' == Publish(d.(items := d'.items), ClaimNews(batch), now)
  }

  function SucceedSession(d: Shared, worker: Worker, id: Id, now: Time): (Shared, WriteResult) {
    var (items, r) := MarkSucceeded(d.items, id, Some(worker));
    if r == Wrote(Succeeded) then (Publish(d.(items := items), [SucceededName(id)], now), r) else (d, r)
  }

  /** `retryCommitted` says whether the retry write of a non-final failure is committed; as coded
      the commit belongs to the `dead` branch only, so it is rolled back (`false`). */
  function FailSession(d: Shared, worker: Worker, id: Id, backoff: Time, now: Time, retryCommitted: bool)
    : (Shared, WriteResult)
  {
    var (items, r) := MarkFailed(d.items, id, Some(worker), now + backoff);
    if r == Wrote(Dead) then (Publish(d.(items := items), [DeadName(id)], now), r)
    else if r == Wrote(Pending) && retryCommitted then (d.(items := items), r)
    else (d, r)
  }

  /** What happens when an item's handler is looked up and called. */
  datatype Handler = Missing | Raises | Returns

  /** `_process_item` from start to end, with nobody else in between. */
  function Processed(d: Shared, worker: Worker, id: Id, handler: Handler, backoff: Time, now: Time): Shared {
    if handler == Missing then FailSession(d, worker, id, backoff, now, false).0
    else
      var (items, r) := MarkRunning(d.items, id, Some(worker));
      if r != Wrote(Running) then d
      else if handler == Raises then FailSession(d.(items := items), worker, id, backoff, now, false).0
      else SucceedSession(d.(items := items), worker, id, now).0
  }

  /** The items of one batch, one after the other. */
  function ProcessedAll(d: Shared, worker: Worker, ids: seq<Id>, handlers: Id -> Handler, backoff: Time,
                        clock: Id -> Time): Shared
  {
    if ids == [] then d
    else
      var last := ids[|ids| - 1];
      Processed(ProcessedAll(d, worker, ids[..|ids| - 1], handlers, backoff, clock), worker, last, handlers(last),
                backoff, clock(last))
  }

  predicate Announced(d: Shared, name: string, at: Time) {
    exists sig :: sig in d.ledger && sig.name == name && sig.emittedAt == at && sig.emittedBy == RUNNER
  }

  /** How the item `it`, leased to the worker, comes out under `id`.  A failure that is not the last one leaves it
      in flight under its lease: as coded, the retry write is rolled back and the item waits for its lease to expire. */
  predicate ComesOut(it: Item, id: Id, handler: Handler, now: Time, d': Shared) {
    && id in d'.items
    && (handler == Returns ==>
          d'.items[id] == it.Release(Succeeded) && Announced(d', SucceededName(id), now))
    && (handler != Returns && it.attempts >= it.maxAttempts ==>
          d'.items[id] == it.Release(Dead) && Announced(d', DeadName(id), now))
    && (handler == Raises && it.attempts < it.maxAttempts ==> d'.items[id] == it.(status := Running))
    && (handler == Missing && it.attempts < it.maxAttempts ==> d'.items[id] == it)
  }

  lemma LeasedItemComesOut(d: Shared, worker: Worker, id: Id, handler: Handler, backoff: Time, now: Time)
    requires id in d.items && d.items[id].status == Leased && d.items[id].leaseOwner == Some(worker)
    ensures var d' := Processed(d, worker, id, handler, backoff, now);
            && ComesOut(d.items[id], id, handler, now, d')
            && (handler != Returns && d.items[id].attempts < d.items[id].maxAttempts ==> d'.ledger == d.ledger)
  {
    var d' := Processed(d, worker, id, handler, backoff, now);
    if handler == Returns {
      RowOf([SucceededName(id)], 0, d.nextSignal, now);
    } else if d.items[id].attempts >= d.items[id].maxAttempts {
      RowOf([DeadName(id)], 0, d.nextSignal, now);
    }
  }

  /** An item whose lease has moved on comes out as it went in. */
  lemma MovedItemIsLeftAlone(d: Shared, worker: Worker, id: Id, handler: Handler, backoff: Time, now: Time)
    requires id in d.items && !d.items[id].OwnedBy(worker)
    ensures Processed(d, worker, id, handler, backoff, now) == d
  {
  }

  // --- A whole batch -----------------------------------------------------------------------

  /** The signal announces an end of `id` that the table shows. */
  predicate TellsEnd(sig: Signal, id: Id, items: Table) {
    && sig.emittedBy == RUNNER && id in items
    && ((sig.name == SucceededName(id) && items[id].status == Succeeded)
        || (sig.name == DeadName(id) && items[id].status == Dead))
  }

  predicate TellsEndAmong(sig: Signal, ids: seq<Id>, items: Table) {
    exists id :: id in ids && TellsEnd(sig, id, items)
  }

  /** What processing `ids` leaves alone: the rows of other items and of items that moved on; what was in the ledger
      stays, and what is new there tells of an end among `ids`. */
  ghost predicate OthersUntouched(d: Shared, worker: Worker, ids: seq<Id>, d': Shared) {
    && d'.items.Keys == d.items.Keys && d.ledger <= d'.ledger
    && (forall x :: x in d.items && (x !in ids || !d.items[x].OwnedBy(worker)) ==> d'.items[x] == d.items[x])
    && (forall sig :: sig in d'.ledger && sig !in d.ledger ==> TellsEndAmong(sig, ids, d'.items))
  }

  lemma ProcessedUntouched(d: Shared, worker: Worker, id: Id, handler: Handler, backoff: Time, now: Time)
    ensures OthersUntouched(d, worker, [id], Processed(d, worker, id, handler, backoff, now))
  {
    var d' := Processed(d, worker, id, handler, backoff, now);
    forall sig | sig in d'.ledger && sig !in d.ledger
      ensures TellsEndAmong(sig, [id], d'.items)
    {
      assert id in [id] && TellsEnd(sig, id, d'.items);
    }
  }

  /** Adding an item that was not processed before. */
  lemma UntouchedGrows(d: Shared, worker: Worker, ids: seq<Id>, mid: Shared, last: Id, d': Shared)
    requires OthersUntouched(d, worker, ids, mid) && OthersUntouched(mid, worker, [last], d') && last !in ids
    ensures OthersUntouched(d, worker, ids + [last], d')
  {
    forall sig | sig in d'.ledger && sig !in d.ledger
      ensures TellsEndAmong(sig, ids + [last], d'.items)
    {
      if sig in mid.ledger {
        var id :| id in ids && TellsEnd(sig, id, mid.items);
        assert id in ids + [last] && TellsEnd(sig, id, d'.items);
      } else {
        var id :| id in [last] && TellsEnd(sig, id, d'.items);
        assert id in ids + [last];
      }
    }
  }

  lemma {:induction false} BatchUntouched(d: Shared, worker: Worker, ids: seq<Id>, handlers: Id -> Handler, backoff: Time,
                                          clock: Id -> Time)
    requires NoDuplicates(ids)
    ensures OthersUntouched(d, worker, ids, ProcessedAll(d, worker, ids, handlers, backoff, clock))
  {
    if ids != [] {
      var n := |ids| - 1;
      var mid, last := ProcessedAll(d, worker, ids[..n], handlers, backoff, clock), ids[n];
      BatchUntouched(d, worker, ids[..n], handlers, backoff, clock);
      ProcessedUntouched(mid, worker, last, handlers(last), backoff, clock(last));
      LeasedRowIsNew(ids, n);
      UntouchedGrows(d, worker, ids[..n], mid, last, ProcessedAll(d, worker, ids, handlers, backoff, clock));
      assert ids[..n] + [last] == ids;
    }
  }

  /** Each leased item of a batch comes out as it would have alone. */
  lemma {:induction false} BatchComesOut(d: Shared, worker: Worker, ids: seq<Id>, handlers: Id -> Handler, backoff: Time,
                                         clock: Id -> Time, x: Id)
    requires NoDuplicates(ids) && x in ids
    requires x in d.items && d.items[x].status == Leased && d.items[x].leaseOwner == Some(worker)
    ensures ComesOut(d.items[x], x, handlers(x), clock(x), ProcessedAll(d, worker, ids, handlers, backoff, clock))
  {
    var n := |ids| - 1;
    var mid, last := ProcessedAll(d, worker, ids[..n], handlers, backoff, clock), ids[n];
    assert ids[..n] + [last] == ids;
    LeasedRowIsNew(ids, n);
    if x == last {
      BatchUntouched(d, worker, ids[..n], handlers, backoff, clock);
      LeasedItemComesOut(mid, worker, x, handlers(x), backoff, clock(x));
    } else {
      BatchComesOut(d, worker, ids[..n], handlers, backoff, clock, x);
      ProcessedUntouched(mid, worker, last, handlers(last), backoff, clock(last));
      StaysOut(d.items[x], worker, x, handlers(x), clock(x), mid, last,
               ProcessedAll(d, worker, ids, handlers, backoff, clock));
    }
  }

  lemma StaysOut(it: Item, worker: Worker, x: Id, handler: Handler, now: Time, mid: Shared, last: Id, d': Shared)
    requires ComesOut(it, x, handler, now, mid) && OthersUntouched(mid, worker, [last], d') && x != last
    ensures ComesOut(it, x, handler, now, d')
  {
  }

  // --- What one worker remembers -----------------------------------------------------------

  /** `Reported`: a success write was committed, but its acknowledgement was lost. */
  datatype Phase = Queued | Handling | Reported

  /** A claimed item in process: the attempt it was claimed as, and the lease end last granted. */
  datatype Token = Token(attempt: nat, until: Time, phase: Phase)

  type Held = map<Id, Token>

  function Granted(batch: ClaimBatch, items: Table, until: Time): Held {
    map id | id in batch.claimed && id in items :: Token(items[id].attempts, until, Queued)
  }

  /** A heard claim leaves the worker holding exactly the claimed items. */
  lemma GrantedKeys(d: Shared, worker: Worker, lease: Time, limit: nat, locked: set<Id>, now: Time, batch: ClaimBatch,
                    d': Shared, until: Time)
    requires ClaimSession(d, worker, lease, limit, locked, now, batch, d')
    ensures NoDuplicates(batch.claimed)
    ensures forall id :: id in Granted(batch, d'.items, until) <==> id in batch.claimed
  {
  }

  // --- Counting announcements --------------------------------------------------------------

  /** The three kinds of announcement are told apart by their first characters. */
  predicate Apart(p: string, q: string) {
    exists k :: 0 <= k < |p| && k < |q| && p[k] != q[k]
  }

  lemma ApartNames(p: string, q: string, x: Id, y: Id)
    requires Apart(p, q)
    ensures p + x != q + y
  {
    var k :| 0 <= k < |p| && k < |q| && p[k] != q[k];
    assert (p + x)[k] == p[k] && (q + y)[k] == q[k];
  }

  lemma SameSuffix(p: string, x: Id, y: Id)
    requires p + x == p + y
    ensures x == y
  {
    assert x == (p + x)[|p|..] && y == (p + y)[|p|..];
  }

  lemma {:induction false} PrefixedCount(p: string, ids: seq<Id>, x: Id)
    requires NoDuplicates(ids)
    ensures multiset(Prefixed(p, ids))[p + x] == if x in ids then 1 else 0
  {
    if ids == [] {
    } else {
      var n := |ids| - 1;
      PrefixedCount(p, ids[..n], x);
      assert ids == ids[..n] + [ids[n]];
      if p + ids[n] == p + x {
        SameSuffix(p, ids[n], x);
      }
    }
  }

  lemma {:induction false} PrefixedMisses(p: string, ids: seq<Id>, q: string, x: Id)
    requires Apart(p, q)
    ensures multiset(Prefixed(p, ids))[q + x] == 0
  {
    if ids == [] {
    } else {
      var n := |ids| - 1;
      PrefixedMisses(p, ids[..n], q, x);
      ApartNames(p, q, ids[n], x);
    }
  }

  lemma KindsApart()
    ensures Apart("work.succeeded:", "work.dead:") && Apart("work.dead:", "work.succeeded:")
    ensures Apart("work.succeeded:", "work.expired:") && Apart("work.expired:", "work.succeeded:")
    ensures Apart("work.dead:", "work.expired:") && Apart("work.expired:", "work.dead:")
  {
    assert "work.succeeded:"[5] == 's' && "work.dead:"[5] == 'd' && "work.expired:"[5] == 'e';
  }

  /** What a claim pass announces about one item. */
  lemma ClaimNewsCount(batch: ClaimBatch, x: Id)
    requires NoDuplicates(batch.expired) && NoDuplicates(batch.reclaimDead)
    ensures multiset(ClaimNews(batch))[SucceededName(x)] == 0
    ensures multiset(ClaimNews(batch))[DeadName(x)] == if x in batch.reclaimDead then 1 else 0
    ensures multiset(ClaimNews(batch))[ExpiredName(x)] == if x in batch.expired then 1 else 0
  {
    KindsApart();
    PrefixedMisses("work.expired:", batch.expired, "work.succeeded:", x);
    PrefixedMisses("work.dead:", batch.reclaimDead, "work.succeeded:", x);
    PrefixedMisses("work.expired:", batch.expired, "work.dead:", x);
    PrefixedMisses("work.dead:", batch.reclaimDead, "work.expired:", x);
    PrefixedCount("work.expired:", batch.expired, x);
    PrefixedCount("work.dead:", batch.reclaimDead, x);
  }

  lemma NamesApart(x: Id, y: Id)
    ensures SucceededName(x) != DeadName(y) && SucceededName(x) != ExpiredName(y) && DeadName(x) != ExpiredName(y)
    ensures SucceededName(x) == SucceededName(y) ==> x == y
    ensures DeadName(x) == DeadName(y) ==> x == y
  {
    KindsApart();
    ApartNames("work.succeeded:", "work.dead:", x, y);
    ApartNames("work.succeeded:", "work.expired:", x, y);
    ApartNames("work.dead:", "work.expired:", x, y);
    if SucceededName(x) == SucceededName(y) {
      SameSuffix("work.succeeded:", x, y);
    }
    if DeadName(x) == DeadName(y) {
      SameSuffix("work.dead:", x, y);
    }
  }
}
