/** What a retention pass guarantees: it deletes only rows no waiter needs, oldest first, it
    counts what it did, and no claim pass can tell that it ran. */
module Retention {
  import opened Prelude
  import opened WorkModel

  /** The sizes of what a pass deletes and leaves. */
  lemma Sizes(ledger: set<Signal>, items: Table, overdue: set<Signal>, maxRows: int, cap: nat,
              gone: Deletion, stats: PruneStats, ledger': set<Signal>)
    requires PruneStages(ledger, items, overdue, maxRows, cap, gone, stats, ledger') && overdue <= ledger
    ensures |ledger - gone.aged| == |ledger| - |gone.aged|
    ensures |ledger'| == |ledger - gone.aged| - |gone.surplus|
  {
    CardSplit(ledger, gone.aged);
    CardSplit(ledger - gone.aged, gone.surplus);
  }

  /** Rows a pending wait needs survive, only ledger rows go, and the reported total is the true one. */
  lemma PruneAccounting(ledger: set<Signal>, items: Table, now: Time, retention: Time, maxRows: int, cap: nat,
                        gone: Deletion, stats: Option<PruneStats>, ledger': set<Signal>)
    requires PrunePass(ledger, items, now, retention, maxRows, cap, gone, stats, ledger')
    ensures ledger' <= ledger
    ensures forall sig :: sig in ledger && Needed(sig, items) ==> sig in ledger'
    ensures stats.Some? ==>
              && stats.value.ledgerTotalAfter == |ledger'|
              && stats.value.retentionDeleted + stats.value.boundDeleted + |ledger'| == |ledger|
              && stats.value.retentionDeleted <= cap && stats.value.boundDeleted <= cap
  {
    if stats.Some? {
      Sizes(ledger, items, PruneSafeBefore(ledger, items, Cutoff(now, retention)), maxRows, cap, gone, stats.value, ledger');
    }
  }

  lemma CardSplit<T>(whole: set<T>, part: set<T>)
    requires part <= whole
    ensures |whole - part| == |whole| - |part|
  {
    assert whole == (whole - part) + part;
  }

  lemma CardIsSubset<T>(part: set<T>, whole: set<T>)
    requires part <= whole && |part| >= |whole|
    ensures part == whole
  {
    CardSplit(whole, part);
  }

  /** A deleted row is never younger than a surviving row that was just as deletable; and if it was not overdue, the
      row bound took it. */
  lemma PruneTakesOldest(ledger: set<Signal>, items: Table, now: Time, retention: Time, maxRows: int, cap: nat,
                         gone: Deletion, stats: Option<PruneStats>, ledger': set<Signal>, lost: Signal, kept: Signal)
    requires PrunePass(ledger, items, now, retention, maxRows, cap, gone, stats, ledger')
    requires lost in ledger && lost !in ledger' && kept in ledger' && !Needed(kept, items)
    ensures kept in ledger && !Needed(lost, items)
    ensures lost.emittedAt <= kept.emittedAt
    ensures lost.emittedAt >= Cutoff(now, retention) ==> stats.value.boundDeleted > 0
  {
    var overdue := PruneSafeBefore(ledger, items, Cutoff(now, retention));
    assert lost in gone.aged || lost in gone.surplus;
    if lost in gone.aged && kept in overdue {
      assert kept in overdue - gone.aged;
    } else if lost in gone.surplus {
      assert kept in PruneSafe(ledger - gone.aged, items) - gone.surplus;
    }
  }

  /** Neither stage had more rows to delete than the per-pass cap allows. */
  predicate CapsSuffice(ledger: set<Signal>, items: Table, now: Time, retention: Time, maxRows: int, cap: nat,
                        stats: PruneStats)
  {
    && |PruneSafeBefore(ledger, items, Cutoff(now, retention))| <= cap
    && |ledger| - stats.retentionDeleted - maxRows <= cap
  }

  /** A pass whose cap did not bind leaves nothing deletable that it should have deleted. */
  lemma PruneComplete(ledger: set<Signal>, items: Table, now: Time, retention: Time, maxRows: int, cap: nat,
                      gone: Deletion, stats: Option<PruneStats>, ledger': set<Signal>)
    requires PrunePass(ledger, items, now, retention, maxRows, cap, gone, stats, ledger')
    requires stats.Some? && CapsSuffice(ledger, items, now, retention, maxRows, cap, stats.value)
    ensures PruneSafeBefore(ledger', items, Cutoff(now, retention)) == {}
    ensures |ledger'| <= maxRows || PruneSafe(ledger', items) == {}
  {
    var overdue := PruneSafeBefore(ledger, items, Cutoff(now, retention));
    Sizes(ledger, items, overdue, maxRows, cap, gone, stats.value, ledger');
    CardIsSubset(gone.aged, overdue);
    assert PruneSafeBefore(ledger', items, Cutoff(now, retention)) <= overdue - gone.aged;
    if |ledger'| > maxRows {
      CardIsSubset(gone.surplus, PruneSafe(ledger - gone.aged, items));
      assert PruneSafe(ledger', items) <= PruneSafe(ledger - gone.aged, items) - gone.surplus;
    }
  }

  /** Repeating such a pass at the same instant deletes nothing. */
  lemma PruneIdempotent(ledger: set<Signal>, items: Table, now: Time, retention: Time, maxRows: int, cap: nat,
                        gone: Deletion, stats: Option<PruneStats>, ledger': set<Signal>,
                        goneAgain: Deletion, again: Option<PruneStats>, ledger'': set<Signal>)
    requires PrunePass(ledger, items, now, retention, maxRows, cap, gone, stats, ledger')
    requires stats.Some? && CapsSuffice(ledger, items, now, retention, maxRows, cap, stats.value)
    requires PrunePass(ledger', items, now, retention, maxRows, cap, goneAgain, again, ledger'')
    ensures ledger'' == ledger' && goneAgain == NOTHING && again == Some(PruneStats(0, 0, |ledger'|))
  {
    PruneComplete(ledger, items, now, retention, maxRows, cap, gone, stats, ledger');
    assert goneAgain.aged == {};
    assert ledger' - goneAgain.aged == ledger';
    assert |goneAgain.surplus| == 0;
  }

  /** A pending wait has fired after the pass exactly if it had fired before. */
  lemma PruneKeepsFired(ledger: set<Signal>, items: Table, now: Time, retention: Time, maxRows: int, cap: nat,
                        gone: Deletion, stats: Option<PruneStats>, ledger': set<Signal>, id: Id)
    requires PrunePass(ledger, items, now, retention, maxRows, cap, gone, stats, ledger')
    requires id in items && items[id].status == Pending && items[id].wakeKind == EventWake
    ensures Fired(items[id], ledger') <==> Fired(items[id], ledger)
  {
    PruneAccounting(ledger, items, now, retention, maxRows, cap, gone, stats, ledger');
    if Fired(items[id], ledger) {
      var sig :| sig in ledger && Wakes(sig, items[id]);
      assert Needed(sig, items);
    }
  }

  /** … so the claim query selects from the same rows. */
  lemma PruneKeepsDue(ledger: set<Signal>, items: Table, now: Time, retention: Time, maxRows: int, cap: nat,
                      gone: Deletion, stats: Option<PruneStats>, ledger': set<Signal>, at: Time, locked: set<Id>)
    requires PrunePass(ledger, items, now, retention, maxRows, cap, gone, stats, ledger')
    ensures Due(Sweep(items, at), ledger', at, locked) == Due(Sweep(items, at), ledger, at, locked)
  {
    var swept := Sweep(items, at);
    forall id | id in swept
      ensures Claimable(swept[id], ledger', at) <==> Claimable(swept[id], ledger, at)
    {
      if swept[id].status == Pending && swept[id].wakeKind == EventWake {
        assert swept[id] == items[id];
        PruneKeepsFired(ledger, items, now, retention, maxRows, cap, gone, stats, ledger', id);
      }
    }
  }

  /** Pruning first changes nothing a claim pass can produce: the same batches and the same table. */
  lemma PruneInvisible(ledger: set<Signal>, items: Table, now: Time, retention: Time, maxRows: int, cap: nat,
                       gone: Deletion, stats: Option<PruneStats>, ledger': set<Signal>, at: Time, worker: Worker,
                       lease: Time, limit: nat, locked: set<Id>, batch: ClaimBatch, items': Table)
    requires PrunePass(ledger, items, now, retention, maxRows, cap, gone, stats, ledger')
    ensures ClaimPass(items, ledger', at, worker, lease, limit, locked, batch, items')
       <==> ClaimPass(items, ledger, at, worker, lease, limit, locked, batch, items')
  {
    PruneKeepsDue(ledger, items, now, retention, maxRows, cap, gone, stats, ledger', at, locked);
  }

  // --- The same on the columns of the rows -------------------------------------------------

  /** A pending event wait of that name began strictly before the signal. */
  ghost predicate Awaited(sig: Signal, items: Table) {
    exists id ::
      && id in items && items[id].status == Pending && items[id].wakeKind == EventWake
      && items[id].wakeEvent == Some(sig.name)
      && items[id].watermark.Some? && items[id].watermark.value < sig.emittedAt
  }

  lemma AwaitedIsNeeded(sig: Signal, items: Table)
    ensures Needed(sig, items) <==> Awaited(sig, items)
  {
    if Awaited(sig, items) {
      var id :| && id in items && items[id].status == Pending && items[id].wakeKind == EventWake
                && items[id].wakeEvent == Some(sig.name)
                && items[id].watermark.Some? && items[id].watermark.value < sig.emittedAt;
      assert Wakes(sig, items[id]);
    }
  }

  /** A pass deletes no awaited row; and one inside the retention time only because the ledger was over its bound. */
  lemma LostForAReason(ledger: set<Signal>, items: Table, now: Time, retention: Time, maxRows: int, cap: nat,
                       gone: Deletion, stats: Option<PruneStats>, ledger': set<Signal>, lost: Signal)
    requires PrunePass(ledger, items, now, retention, maxRows, cap, gone, stats, ledger')
    requires lost in ledger && lost !in ledger'
    ensures !Awaited(lost, items) && stats.Some?
    ensures (retention >= 0.0 && lost.emittedAt >= now - retention) || lost.emittedAt >= now ==>
              && stats.value.boundDeleted > 0
              && stats.value.boundDeleted <= |ledger| - stats.value.retentionDeleted - maxRows
  {
    AwaitedIsNeeded(lost, items);
    var overdue := PruneSafeBefore(ledger, items, Cutoff(now, retention));
    Sizes(ledger, items, overdue, maxRows, cap, gone, stats.value, ledger');
    assert lost in gone.aged ==> lost in overdue;
    assert lost in gone.surplus ==> lost in PruneSafe(ledger - gone.aged, items);
  }

  /** A pass that did not reach its cap deletes every row past the retention time that nobody awaits … */
  lemma OldGoes(ledger: set<Signal>, items: Table, now: Time, retention: Time, maxRows: int, cap: nat,
                gone: Deletion, stats: Option<PruneStats>, ledger': set<Signal>, old_: Signal)
    requires PrunePass(ledger, items, now, retention, maxRows, cap, gone, stats, ledger')
    requires stats.Some? && stats.value.retentionDeleted < cap
    requires old_ in ledger && !Awaited(old_, items)
    requires if retention < 0.0 then old_.emittedAt < now else old_.emittedAt < now - retention
    ensures old_ !in ledger'
  {
    AwaitedIsNeeded(old_, items);
    CardIsSubset(gone.aged, PruneSafeBefore(ledger, items, Cutoff(now, retention)));
    assert old_ in gone.aged;
  }

  /** … and leaves the ledger within its bound, or all of it awaited. */
  lemma BoundHolds(ledger: set<Signal>, items: Table, now: Time, retention: Time, maxRows: int, cap: nat,
                   gone: Deletion, stats: Option<PruneStats>, ledger': set<Signal>, kept: Signal)
    requires PrunePass(ledger, items, now, retention, maxRows, cap, gone, stats, ledger')
    requires stats.Some? && stats.value.boundDeleted < cap && kept in ledger'
    ensures |ledger'| <= maxRows || Awaited(kept, items)
  {
    AwaitedIsNeeded(kept, items);
    Sizes(ledger, items, PruneSafeBefore(ledger, items, Cutoff(now, retention)), maxRows, cap, gone, stats.value, ledger');
    if !Awaited(kept, items) {
      assert kept in PruneSafe(ledger - gone.aged, items) && kept !in gone.surplus;
      if |ledger'| > maxRows {
        CardIsSubset(gone.surplus, PruneSafe(ledger - gone.aged, items));
        assert false;
      }
    }
  }

  /** A pass fails exactly with a cap of 0 and a row it would have to delete for its age. */
  lemma FailsExactly(ledger: set<Signal>, items: Table, now: Time, retention: Time, maxRows: int, cap: nat,
                     gone: Deletion, stats: Option<PruneStats>, ledger': set<Signal>)
    requires PrunePass(ledger, items, now, retention, maxRows, cap, gone, stats, ledger')
    ensures stats == None <==>
            cap == 0 && exists sig :: && sig in ledger && !Awaited(sig, items)
                                      && sig.emittedAt < (if retention < 0.0 then now else now - retention)
    ensures stats == None ==> ledger' == ledger
  {
    forall sig | sig in ledger
      ensures Needed(sig, items) <==> Awaited(sig, items)
    {
      AwaitedIsNeeded(sig, items);
    }
    var overdue := PruneSafeBefore(ledger, items, Cutoff(now, retention));
    if overdue != {} {
      var sig :| sig in overdue;
      assert sig in ledger && !Awaited(sig, items);
    }
  }
}
