/** Invariants of the work protocol, proved for every step and hence for every run. */
module WorkSafety {
  import opened Prelude
  import opened WorkModel
  import opened WorkSessions
  import opened WorkRow
  import opened WorkProtocol

  ghost predicate RowsOk(s: State) {
    forall id :: id in s.db.items ==> ItemOk(s.db.items[id])
  }

  ghost predicate TokensOk(s: State) {
    forall w, id :: Holds(s, w, id) ==>
                      id in s.db.items && TokenOk(s.db.items[id], s.now, w, s.workers[w].lease, TokenOf(s, w, id))
  }

  predicate Unexpired(s: State, w: Worker, id: Id)
    requires Holds(s, w, id)
  {
    s.now <= TokenOf(s, w, id).until
  }

  /** Two workers never have the same attempt of an item in process, nor two unexpired grants on it. */
  predicate Exclusive(s: State, v: Worker, w: Worker, id: Id)
    requires Holds(s, v, id) && Holds(s, w, id)
  {
    && TokenOf(s, v, id).attempt != TokenOf(s, w, id).attempt
    && !(Unexpired(s, v, id) && Unexpired(s, w, id))
  }

  ghost predicate GrantsApart(s: State) {
    forall v, w, id :: v != w && Holds(s, v, id) && Holds(s, w, id) ==> Exclusive(s, v, w, id)
  }

  /** Succeeded means announced so exactly once; dead means announced once, as dead or as expired. */
  predicate NewsRight(s: State, id: Id) {
    && s.announced[SucceededName(id)] == One(id in s.db.items && s.db.items[id].status == Succeeded)
    && s.announced[DeadName(id)] + s.announced[ExpiredName(id)]
       == One(id in s.db.items && s.db.items[id].status == Dead)
  }

  ghost predicate NewsOk(s: State) {
    forall id :: NewsRight(s, id)
  }

  /** A handler has started at most once per attempt; a leased attempt has not started yet. */
  predicate StartsRight(s: State, id: Id) {
    s.starts[id] <= if id in s.db.items then s.db.items[id].attempts - One(s.db.items[id].status == Leased) else 0
  }

  ghost predicate StartsOk(s: State) {
    forall id :: StartsRight(s, id)
  }

  /** Every runner row of the ledger was announced. */
  ghost predicate LedgerOk(s: State) {
    forall sig :: sig in s.db.ledger && sig.emittedBy == RUNNER ==> s.announced[sig.name] >= 1
  }

  /** No id of the ledger is ever used again. */
  ghost predicate IdsOk(s: State) {
    FreshIds(s.db.ledger, s.db.nextSignal)
  }

  ghost predicate Inv(s: State) {
    RowsOk(s) && TokensOk(s) && GrantsApart(s) && NewsOk(s) && StartsOk(s) && LedgerOk(s) && IdsOk(s)
  }

  lemma InitInv(s: State)
    requires Init(s)
    ensures Inv(s)
  {
  }

  lemma RowsStep(s: State, step: Step, s': State)
    requires Next(s, step, s') && RowsOk(s)
    ensures RowsOk(s')
  {
    forall id | id in s'.db.items
      ensures ItemOk(s'.db.items[id])
    {
      if id in s.db.items {
        RowChanges(s, step, s', id);
        ChangeKeepsItemOk(s.db.items[id], ChangeOf(s, step, id), s.now);
      } else {
        NewRow(s, step, s', id);
      }
    }
  }

  /** A token that was there before the step is still good after it … */
  lemma TokenStaysOk(s: State, step: Step, s': State, w: Worker, id: Id)
    requires step.Claim? || step.Beat? ==> step.worker in s.workers
    requires Holds(s, w, id) && Holds(s', w, id) && id in s.db.items && s.now <= s'.now
    requires ItemOk(s.db.items[id]) && TokenOk(s.db.items[id], s.now, w, s.workers[w].lease, TokenOf(s, w, id))
    requires RowFollows(s, step, s', id) && TokenFollows(s, step, s', w, id)
    ensures TokenOk(s'.db.items[id], s'.now, w, s'.workers[w].lease, TokenOf(s', w, id))
  {
    var it, c, lease := s.db.items[id], ChangeOf(s, step, id), s.workers[w].lease;
    if TokenOf(s', w, id) == TokenOf(s, w, id) && !ActsFor(c, w) {
      TokenSurvivesOthers(it, c, s.now, w, lease, TokenOf(s, w, id));
    } else {
      TokenSurvivesOwn(it, c, s.now, w, lease, TokenOf(s, w, id), TokenOf(s', w, id));
    }
    TokenAges(s'.db.items[id], s.now, s'.now, w, lease, TokenOf(s', w, id));
  }

  /** … and so is one it granted. */
  lemma TokenStep(s: State, step: Step, s': State, w: Worker, id: Id)
    requires Next(s, step, s') && RowsOk(s) && TokensOk(s) && Holds(s', w, id)
    ensures id in s'.db.items && w in s'.workers
    ensures TokenOk(s'.db.items[id], s'.now, w, s'.workers[w].lease, TokenOf(s', w, id))
  {
    TimeMoves(s, step, s');
    if Holds(s, w, id) {
      RowChanges(s, step, s', id);
      TokenStays(s, step, s', w, id);
      TokenStaysOk(s, step, s', w, id);
    } else {
      TokenAppears(s, step, s', w, id);
      RowChanges(s, step, s', id);
    }
  }

  lemma TokensStep(s: State, step: Step, s': State)
    requires Next(s, step, s') && RowsOk(s) && TokensOk(s)
    ensures TokensOk(s')
  {
    forall w, id | Holds(s', w, id)
      ensures id in s'.db.items && TokenOk(s'.db.items[id], s'.now, w, s'.workers[w].lease, TokenOf(s', w, id))
    {
      TokenStep(s, step, s', w, id);
    }
  }

  /** Two tokens that were both there stay exclusive: only the recorded owner's grant is extended. */
  lemma ExclusiveStays(s: State, step: Step, s': State, v: Worker, w: Worker, id: Id)
    requires Next(s, step, s') && RowsOk(s) && TokensOk(s) && v != w
    requires Holds(s, v, id) && Holds(s, w, id) && Holds(s', v, id) && Holds(s', w, id)
    requires Exclusive(s, v, w, id)
    ensures Exclusive(s', v, w, id)
  {
    TimeMoves(s, step, s');
    TokenStays(s, step, s', v, id);
    TokenStays(s, step, s', w, id);
    RowChanges(s, step, s', id);
    TokensExclude(s.db.items[id], ChangeOf(s, step, id), s.now, v, s.workers[v].lease, TokenOf(s, v, id), TokenOf(s', v, id),
                  w, s.workers[w].lease, TokenOf(s, w, id), TokenOf(s', w, id));
  }

  /** A freshly granted token excludes every other one. */
  lemma FreshExcludes(s: State, step: Step, s': State, v: Worker, w: Worker, id: Id)
    requires Next(s, step, s') && RowsOk(s) && TokensOk(s) && v != w
    requires !Holds(s, v, id) && Holds(s', v, id) && Holds(s', w, id)
    ensures Exclusive(s', v, w, id)
  {
    TokenAppears(s, step, s', v, id);
    if !Holds(s, w, id) {
      TokenAppears(s, step, s', w, id);
      assert false;
    } else {
      TokenStays(s, step, s', w, id);
      RowChanges(s, step, s', id);
      TimeMoves(s, step, s');
      GrantBlocksLease(s.db.items[id], s.now, w, s.workers[w].lease, TokenOf(s, w, id), v, s.now + s.workers[v].lease);
    }
  }

  lemma ApartStep(s: State, step: Step, s': State)
    requires Next(s, step, s') && RowsOk(s) && TokensOk(s) && GrantsApart(s)
    ensures GrantsApart(s')
  {
    forall v, w, id | v != w && Holds(s', v, id) && Holds(s', w, id)
      ensures Exclusive(s', v, w, id)
    {
      if !Holds(s, v, id) {
        FreshExcludes(s, step, s', v, w, id);
      } else if !Holds(s, w, id) {
        FreshExcludes(s, step, s', w, v, id);
      } else {
        ExclusiveStays(s, step, s', v, w, id);
      }
    }
  }

  /** The books still agree with a row after a change that was announced as `NewsFollows` says … */
  lemma NewsStays(s: State, step: Step, s': State, id: Id)
    requires step.Claim? || step.Beat? ==> step.worker in s.workers
    requires id in s.db.items && ItemOk(s.db.items[id]) && NewsRight(s, id)
    requires RowFollows(s, step, s', id) && NewsFollows(s, step, s', id)
    ensures NewsRight(s', id)
  {
  }

  /** … and with the absence of a row, or a new one. */
  lemma NoNewsYet(s: State, step: Step, s': State, id: Id)
    requires Next(s, step, s') && id !in s.db.items && NewsRight(s, id)
    ensures NewsRight(s', id)
  {
    NewsChanges(s, step, s', id);
    if id in s'.db.items {
      NewRow(s, step, s', id);
    }
  }

  lemma NewsStepOf(s: State, step: Step, s': State, id: Id)
    requires Next(s, step, s') && RowsOk(s) && NewsRight(s, id)
    ensures NewsRight(s', id)
  {
    if id in s.db.items {
      RowChanges(s, step, s', id);
      NewsChanges(s, step, s', id);
      NewsStays(s, step, s', id);
    } else {
      NoNewsYet(s, step, s', id);
    }
  }

  lemma NewsStep(s: State, step: Step, s': State)
    requires Next(s, step, s') && RowsOk(s) && NewsOk(s)
    ensures NewsOk(s')
  {
    forall id
      ensures NewsRight(s', id)
    {
      NewsStepOf(s, step, s', id);
    }
  }

  lemma StartsStay(s: State, step: Step, s': State, id: Id)
    requires step.Claim? || step.Beat? ==> step.worker in s.workers
    requires id in s.db.items && ItemOk(s.db.items[id]) && StartsRight(s, id)
    requires RowFollows(s, step, s', id)
    requires s'.starts[id] <= s.starts[id] + One(ChangeOf(s, step, id).Run?)
    ensures StartsRight(s', id)
  {
  }

  lemma StartsStepOf(s: State, step: Step, s': State, id: Id)
    requires Next(s, step, s') && RowsOk(s) && StartsRight(s, id)
    ensures StartsRight(s', id)
  {
    StartsChange(s, step, s', id);
    if id in s.db.items {
      RowChanges(s, step, s', id);
      StartsStay(s, step, s', id);
    } else if id in s'.db.items {
      NewRow(s, step, s', id);
    }
  }

  lemma StartsStep(s: State, step: Step, s': State)
    requires Next(s, step, s') && RowsOk(s) && StartsOk(s)
    ensures StartsOk(s')
  {
    forall id
      ensures StartsRight(s', id)
    {
      StartsStepOf(s, step, s', id);
    }
  }

  lemma AnnouncedGrows(s: State, step: Step, s': State)
    requires Next(s, step, s')
    ensures s.announced <= s'.announced
  {
  }

  lemma LedgerStep(s: State, step: Step, s': State)
    requires Next(s, step, s') && LedgerOk(s)
    ensures LedgerOk(s')
  {
    AnnouncedGrows(s, step, s');
    forall sig | sig in s'.db.ledger && sig.emittedBy == RUNNER
      ensures s'.announced[sig.name] >= 1
    {
      if sig in s.db.ledger {
        assert s.announced[sig.name] >= 1;
      } else {
        LedgerChanges(s, step, s', sig);
        assert !step.Emit?;
      }
    }
  }

  lemma IdsStep(s: State, step: Step, s': State)
    requires Next(s, step, s') && IdsOk(s)
    ensures IdsOk(s')
  {
    if step.Claim? {
      PublishInserts(s.db.(items := s'.db.items), ClaimNews(step.batch), s.now, "");
    } else if step.Succeed? {
      PublishInserts(s.db.(items := s'.db.items), [SucceededName(step.id)], s.now, "");
    } else if step.Fail? {
      PublishInserts(s.db.(items := s'.db.items), [DeadName(step.id)], s.now, "");
    } else {
      QuietIds(s, step, s');
    }
  }

  lemma QuietIds(s: State, step: Step, s': State)
    requires Next(s, step, s') && !step.Claim? && !step.Succeed? && !step.Fail? && IdsOk(s)
    ensures IdsOk(s')
  {
  }

  lemma InvStep(s: State, step: Step, s': State)
    requires Next(s, step, s') && Inv(s)
    ensures Inv(s')
  {
    RowsStep(s, step, s');
    TokensStep(s, step, s');
    ApartStep(s, step, s');
    NewsStep(s, step, s');
    StartsStep(s, step, s');
    LedgerStep(s, step, s');
    IdsStep(s, step, s');
  }
}
