/** Accepting an inbound message exactly once, however many deliveries of it race: each delivery is a
    transaction of several statements, and the statements of different deliveries interleave. */
module InboundAcceptance {
  import opened Prelude

  type Pid = nat
  type RowId = nat

  /** (interface_kind, interface_message_id), and (credential kind, normalized value). */
  datatype MessageKey = MessageKey(interfaceKind: string, messageId: string)
  datatype Credential = Credential(kind: string, value: string)

  datatype CredentialRow = CredentialRow(credential: Credential, principal: Pid)
  datatype ProcessedRow = ProcessedRow(id: RowId, key: MessageKey, principal: Pid)
  datatype WorkRow = WorkRow(id: RowId, key: MessageKey, principal: Pid)

  /** The committed rows. */
  datatype Tables = Tables(principals: set<Pid>, credentials: set<CredentialRow>, processed: set<ProcessedRow>,
                           work: set<WorkRow>)
  {
    predicate Knows(c: Credential) { exists row :: row in credentials && row.credential == c }
    predicate Seen(k: MessageKey) { exists row :: row in processed && row.key == k }
    predicate Scheduled(k: MessageKey) { exists row :: row in work && row.key == k }
  }

  datatype Stage = Resolving | Creating | Attaching | RolledBack | Inserting | Scheduling | Committing(accepted: bool)

  /** One delivery: where it is, the principal it resolved, and its uncommitted writes: whether the principal is
      its own, whether it attached the credential, and its rows. */
  datatype Delivery = Delivery(key: MessageKey, credential: Credential, stage: Stage, principal: Option<Pid>,
                               created: bool, attached: bool, row: Option<ProcessedRow>, work: Option<WorkRow>)
  {
    function RollBack(): Delivery {
      this.(stage := RolledBack, principal := None, created := false, attached := false, row := None, work := None)
    }
  }

  /** `accepted` has one entry per committed delivery that returned accepted. */
  datatype State = State(db: Tables, live: map<nat, Delivery>, accepted: multiset<MessageKey>)

  datatype Step =
    | Begin(d: nat, key: MessageKey, credential: Credential)
    | Found(d: nat, principal: Pid)
    | NotFound(d: nat)
    | Create(d: nat, principal: Pid)
    | Attach(d: nat)
    | Conflict(d: nat)
    | RefoundNothing(d: nat)
    | Insert(d: nat, id: RowId)
    | Duplicate(d: nat)
    | Schedule(d: nat, id: RowId)
    | Commit(d: nat)
    | Abort(d: nat)

  function With(s: State, d: nat, t: Delivery): State {
    s.(live := s.live[d := t])
  }

  function Ended(s: State, d: nat): State {
    s.(live := s.live - {d})
  }

  /** A unique constraint lets an insert through only when nobody else holds the value: a committed row is a
      conflict, an open transaction's row makes it wait. */
  ghost predicate CredentialFree(s: State, d: nat, c: Credential) {
    !s.db.Knows(c) && forall e :: e in s.live && e != d && s.live[e].attached ==> s.live[e].credential != c
  }

  ghost predicate KeyFree(s: State, d: nat, k: MessageKey) {
    !s.db.Seen(k) && forall e :: e in s.live && e != d && s.live[e].row.Some? ==> s.live[e].key != k
  }

  /** `p` is a fresh ULID. */
  ghost predicate PrincipalFree(s: State, d: nat, p: Pid) {
    p !in s.db.principals && forall e :: e in s.live && e != d && s.live[e].created ==> s.live[e].principal != Some(p)
  }

  function Added<T>(b: bool, x: Option<T>): set<T> {
    if b && x.Some? then {x.value} else {}
  }

  /** The committed rows once the delivery's own have joined them. */
  function Joined(db: Tables, t: Delivery): Tables {
    Tables(
      db.principals + Added(t.created, t.principal),
      db.credentials + (if t.attached && t.principal.Some? then {CredentialRow(t.credential, t.principal.value)} else {}),
      db.processed + Added(true, t.row),
      db.work + Added(true, t.work))
  }

  ghost predicate Next(s: State, step: Step, s': State) {
    if step.Begin? then
      && step.d !in s.live
      && s' == With(s, step.d, Delivery(step.key, step.credential, Resolving, None, false, false, None, None))
    else
      step.d in s.live && Statement(s, s.live[step.d], step, s')
  }

  /** One statement of delivery `step.d`, now `t`. */
  ghost predicate Statement(s: State, t: Delivery, step: Step, s': State)
    requires !step.Begin?
  {
    match step
    case Found(d, p) =>
      && (t.stage == Resolving || t.stage == RolledBack) && CredentialRow(t.credential, p) in s.db.credentials
      && s' == With(s, d, t.(stage := Inserting, principal := Some(p)))
    case NotFound(d) =>
      t.stage == Resolving && !s.db.Knows(t.credential) && s' == With(s, d, t.(stage := Creating))
    case Create(d, p) =>
      && t.stage == Creating && PrincipalFree(s, d, p)
      && s' == With(s, d, t.(stage := Attaching, principal := Some(p), created := true))
    case Attach(d) =>
      && t.stage == Attaching && CredentialFree(s, d, t.credential)
      && s' == With(s, d, t.(stage := Inserting, attached := true))
    case Conflict(d) =>
      // "already attached" or IntegrityError: roll back and resolve again.
      t.stage == Attaching && s.db.Knows(t.credential) && s' == With(s, d, t.RollBack())
    case RefoundNothing(d) =>
      // RuntimeError: the transaction is rolled back.
      t.stage == RolledBack && !s.db.Knows(t.credential) && s' == Ended(s, d)
    case Insert(d, id) =>
      && t.stage == Inserting && t.principal.Some? && KeyFree(s, d, t.key)
      && s' == With(s, d, t.(stage := Scheduling, row := Some(ProcessedRow(id, t.key, t.principal.value))))
    case Duplicate(d) =>
      t.stage == Inserting && s.db.Seen(t.key) && s' == With(s, d, t.(stage := Committing(false)))
    case Schedule(d, id) =>
      && t.stage == Scheduling && t.principal.Some?
      && s' == With(s, d, t.(stage := Committing(true), work := Some(WorkRow(id, t.key, t.principal.value))))
    case Commit(d) =>
      && t.stage.Committing?
      && s' == State(Joined(s.db, t), s.live - {d},
                     if t.stage.accepted then s.accepted + multiset{t.key} else s.accepted)
    case Abort(d) =>
      s' == Ended(s, d)
  }

  // --- Invariant ---------------------------------------------------------------------------

  ghost predicate UniqueCredentials(t: Tables) {
    forall a, b :: a in t.credentials && b in t.credentials && a.credential == b.credential ==> a == b
  }

  ghost predicate UniqueKeys(t: Tables) {
    && (forall a, b :: a in t.processed && b in t.processed && a.key == b.key ==> a == b)
    && (forall a, b :: a in t.work && b in t.work && a.key == b.key ==> a == b)
  }

  predicate HasCredential(t: Tables, p: Pid) {
    exists row :: row in t.credentials && row.principal == p
  }

  /** Every principal has a credential, and every credential a principal. */
  ghost predicate NoOrphans(t: Tables) {
    && (forall p :: p in t.principals ==> HasCredential(t, p))
    && (forall row :: row in t.credentials ==> row.principal in t.principals)
  }

  /** Processed and scheduled are the same keys, and of each exactly one delivery returned accepted. */
  predicate MatchedKey(t: Tables, accepted: multiset<MessageKey>, k: MessageKey) {
    (t.Seen(k) <==> t.Scheduled(k)) && accepted[k] == if t.Seen(k) then 1 else 0
  }

  ghost predicate Matched(t: Tables, accepted: multiset<MessageKey>) {
    forall k :: MatchedKey(t, accepted, k)
  }

  /** What is processed and what is scheduled for one message belong to the same principal, which exists. */
  ghost predicate SamePrincipal(t: Tables) {
    && (forall a, b :: a in t.processed && b in t.work && a.key == b.key ==> a.principal == b.principal)
    && (forall a :: a in t.processed ==> a.principal in t.principals)
  }

  ghost predicate Consistent(t: Tables, accepted: multiset<MessageKey>) {
    UniqueCredentials(t) && UniqueKeys(t) && NoOrphans(t) && SamePrincipal(t) && Matched(t, accepted)
  }

  /** What a delivery has written at its stage. */
  predicate OwnRight(t: Delivery) {
    && (t.stage == Resolving || t.stage == Creating || t.stage == RolledBack ==> !t.created)
    && (t.stage == Attaching ==> t.created)
    && (t.attached <==> t.created && t.stage != Attaching)
    && (t.stage != Resolving && t.stage != Creating && t.stage != RolledBack ==> t.principal.Some?)
    && (t.row.Some? <==> t.stage == Scheduling || t.stage == Committing(true))
    && (t.work.Some? <==> t.stage == Committing(true))
    && (t.row.Some? ==> t.row.value.key == t.key && t.principal == Some(t.row.value.principal))
    && (t.work.Some? ==> t.work.value.key == t.key && t.principal == Some(t.work.value.principal))
  }

  /** Its uncommitted rows collide with nothing committed and with no other delivery's; and what it has found
      committed is there to stay. */
  ghost predicate Apart(s: State, d: nat)
    requires d in s.live
  {
    var t := s.live[d];
    && (t.created && t.principal.Some? ==> PrincipalFree(s, d, t.principal.value))
    && (t.attached ==> CredentialFree(s, d, t.credential))
    && (t.principal.Some? && !t.created ==> CredentialRow(t.credential, t.principal.value) in s.db.credentials)
    && (t.row.Some? ==> KeyFree(s, d, t.key))
    && (t.stage == RolledBack ==> s.db.Knows(t.credential))
    && (t.stage == Committing(false) ==> s.db.Seen(t.key))
  }

  ghost predicate Inv(s: State) {
    && Consistent(s.db, s.accepted)
    && forall d :: d in s.live ==> OwnRight(s.live[d]) && Apart(s, d)
  }

  ghost predicate Init(s: State) {
    s.live == map[] && Consistent(s.db, s.accepted)
  }

  lemma OwnStep(s: State, step: Step, s': State, e: nat)
    requires Next(s, step, s') && e in s'.live
    requires e in s.live ==> OwnRight(s.live[e])
    ensures OwnRight(s'.live[e])
  {
  }

  /** Every statement but a commit leaves the committed rows alone; it keeps its own delivery apart from the rest … */
  lemma MoverApart(s: State, step: Step, s': State)
    requires Next(s, step, s') && !step.Commit? && step.d in s'.live
    requires step.d in s.live ==> OwnRight(s.live[step.d]) && Apart(s, step.d)
    ensures Apart(s', step.d)
  {
  }

  /** … and every other delivery apart from it … */
  lemma OtherApart(s: State, step: Step, s': State, e: nat)
    requires Next(s, step, s') && !step.Commit? && e in s'.live && e != step.d
    requires step.d in s.live ==> OwnRight(s.live[step.d])
    requires e in s.live ==> OwnRight(s.live[e]) && Apart(s, e)
    ensures Apart(s', e)
  {
  }

  /** … and a commit adds rows that collide with nothing. */
  lemma CommitApart(s: State, d: nat, s': State, e: nat)
    requires Next(s, Commit(d), s') && Inv(s) && e in s'.live
    ensures Apart(s', e)
  {
    assert OwnRight(s.live[e]) && Apart(s, e);
    assert OwnRight(s.live[d]) && Apart(s, d);
  }

  lemma JoinedKeys(db: Tables, t: Delivery, k: MessageKey)
    requires OwnRight(t) && t.stage.Committing?
    ensures Joined(db, t).Seen(k) <==> db.Seen(k) || (t.stage.accepted && t.key == k)
    ensures Joined(db, t).Scheduled(k) <==> db.Scheduled(k) || (t.stage.accepted && t.key == k)
  {
    var j := Joined(db, t);
    if t.stage.accepted {
      assert t.row.value in j.processed && t.work.value in j.work;
    }
    assert forall row :: row in db.processed ==> row in j.processed;
    assert forall row :: row in db.work ==> row in j.work;
  }

  lemma JoinedNoOrphans(db: Tables, t: Delivery)
    requires NoOrphans(db) && OwnRight(t) && t.stage.Committing?
    ensures NoOrphans(Joined(db, t))
  {
    var j := Joined(db, t);
    forall p | p in j.principals
      ensures HasCredential(j, p)
    {
      if p in db.principals {
        assert HasCredential(db, p);
        var row :| row in db.credentials && row.principal == p;
        assert row in j.credentials;
      } else {
        assert CredentialRow(t.credential, p) in j.credentials;
      }
    }
  }

  lemma CommitConsistent(s: State, d: nat, s': State)
    requires Next(s, Commit(d), s') && Inv(s)
    ensures Consistent(s'.db, s'.accepted)
  {
    var t := s.live[d];
    assert OwnRight(t) && Apart(s, d);
    JoinedNoOrphans(s.db, t);
    forall k
      ensures MatchedKey(s'.db, s'.accepted, k)
    {
      assert MatchedKey(s.db, s.accepted, k);
      JoinedKeys(s.db, t, k);
    }
    CommitUnique(s, d, s');
    CommitSamePrincipal(s, d, s');
  }

  lemma CommitSamePrincipal(s: State, d: nat, s': State)
    requires Next(s, Commit(d), s') && Consistent(s.db, s.accepted) && OwnRight(s.live[d]) && Apart(s, d)
    ensures SamePrincipal(s'.db)
  {
    var t := s.live[d];
    if t.work.Some? {
      assert MatchedKey(s.db, s.accepted, t.key);
    }
  }

  lemma CommitUnique(s: State, d: nat, s': State)
    requires Next(s, Commit(d), s') && Consistent(s.db, s.accepted) && OwnRight(s.live[d]) && Apart(s, d)
    ensures UniqueCredentials(s'.db) && UniqueKeys(s'.db)
  {
    var t := s.live[d];
    if t.work.Some? {
      assert MatchedKey(s.db, s.accepted, t.key);
    }
  }

  lemma InvStep(s: State, step: Step, s': State)
    requires Next(s, step, s') && Inv(s)
    ensures Inv(s')
  {
    forall e | e in s'.live
      ensures OwnRight(s'.live[e]) && Apart(s', e)
    {
      OwnStep(s, step, s', e);
      if step.Commit? {
        CommitApart(s, step.d, s', e);
      } else if e == step.d {
        MoverApart(s, step, s');
      } else {
        OtherApart(s, step, s', e);
      }
    }
    if step.Commit? {
      CommitConsistent(s, step.d, s');
    } else {
      Quiet(s, step, s');
    }
  }

  lemma Quiet(s: State, step: Step, s': State)
    requires Next(s, step, s') && !step.Commit?
    ensures s'.db == s.db && s'.accepted == s.accepted
  {
  }

  // --- Every interleaving ------------------------------------------------------------------

  ghost predicate StepAt(states: seq<State>, steps: seq<Step>, k: nat)
    requires k < |steps| && |states| == |steps| + 1
  {
    Next(states[k], steps[k], states[k + 1])
  }

  ghost predicate Run(states: seq<State>, steps: seq<Step>) {
    && |states| == |steps| + 1 && Init(states[0])
    && forall k :: 0 <= k < |steps| ==> StepAt(states, steps, k)
  }

  lemma {:induction false} RunInv(states: seq<State>, steps: seq<Step>, k: nat)
    requires Run(states, steps) && k < |states|
    ensures Inv(states[k])
  {
    if k > 0 {
      RunInv(states, steps, k - 1);
      assert StepAt(states, steps, k - 1);
      InvStep(states[k - 1], steps[k - 1], states[k]);
    }
  }

  /** At every point of every interleaving: of each key at most one processed row and one work item are committed,
      both or neither, and exactly then exactly one delivery of it has returned accepted. */
  lemma AcceptOnce(states: seq<State>, steps: seq<Step>, k: nat, key: MessageKey)
    requires Run(states, steps) && k < |states|
    ensures states[k].accepted[key] <= 1
    ensures states[k].accepted[key] == 1 <==> states[k].db.Seen(key)
    ensures states[k].db.Seen(key) <==> states[k].db.Scheduled(key)
    ensures forall a, b :: a in states[k].db.processed && b in states[k].db.processed && a.key == b.key ==> a == b
    ensures forall a, b :: a in states[k].db.work && b in states[k].db.work && a.key == b.key ==> a == b
  {
    RunInv(states, steps, k);
    assert MatchedKey(states[k].db, states[k].accepted, key);
  }

  /** A delivery that returns "duplicate" does so because the key is committed. */
  lemma DuplicateIsSeen(states: seq<State>, steps: seq<Step>, k: nat)
    requires Run(states, steps) && k < |steps| && steps[k].Commit?
    requires steps[k].d in states[k].live && states[k].live[steps[k].d].stage == Committing(false)
    ensures states[k].accepted[states[k].live[steps[k].d].key] == 1
  {
    RunInv(states, steps, k);
    var t := states[k].live[steps[k].d];
    assert Apart(states[k], steps[k].d);
    assert MatchedKey(states[k].db, states[k].accepted, t.key);
  }

  /** A credential never has two principals, and the losers of a first-contact race leave no principal behind. */
  lemma OnePrincipalPerCredential(states: seq<State>, steps: seq<Step>, k: nat)
    requires Run(states, steps) && k < |states|
    ensures UniqueCredentials(states[k].db) && NoOrphans(states[k].db)
  {
    RunInv(states, steps, k);
  }

  /** An accepted message is recorded and scheduled for the one principal its sender's credential belongs to. */
  lemma AcceptedForItsSender(states: seq<State>, steps: seq<Step>, k: nat)
    requires Run(states, steps) && k < |steps| && steps[k].Commit? && steps[k].d in states[k].live
    requires states[k].live[steps[k].d].stage == Committing(true)
    ensures var t, db := states[k].live[steps[k].d], states[k + 1].db;
            && t.principal.Some? && t.principal.value in db.principals
            && (forall row :: row in db.credentials && row.credential == t.credential <==>
                              row == CredentialRow(t.credential, t.principal.value))
            && (forall row :: row in db.processed && row.key == t.key ==> row.principal == t.principal.value)
            && (forall row :: row in db.work && row.key == t.key ==> row.principal == t.principal.value)
            && db.Seen(t.key) && db.Scheduled(t.key)
  {
    RunInv(states, steps, k);
    RunInv(states, steps, k + 1);
    assert StepAt(states, steps, k);
    CommitForSender(states[k], steps[k].d, states[k + 1]);
  }

  lemma CommitForSender(s: State, d: nat, s': State)
    requires Next(s, Commit(d), s') && Inv(s) && s.live[d].stage == Committing(true)
    requires UniqueCredentials(s'.db) && UniqueKeys(s'.db) && NoOrphans(s'.db)
    ensures var t := s.live[d];
            && t.principal.Some? && t.principal.value in s'.db.principals
            && (forall row :: row in s'.db.credentials && row.credential == t.credential <==>
                              row == CredentialRow(t.credential, t.principal.value))
            && (forall row :: row in s'.db.processed && row.key == t.key ==> row.principal == t.principal.value)
            && (forall row :: row in s'.db.work && row.key == t.key ==> row.principal == t.principal.value)
            && s'.db.Seen(t.key) && s'.db.Scheduled(t.key)
  {
    var t := s.live[d];
    assert OwnRight(t) && Apart(s, d);
    assert CredentialRow(t.credential, t.principal.value) in s'.db.credentials;
    assert t.row.value in s'.db.processed && t.work.value in s'.db.work;
  }

  /** After the race rollback the credential is always found: the RuntimeError is never raised. */
  lemma RaceResolves(states: seq<State>, steps: seq<Step>, k: nat)
    requires Run(states, steps) && k < |steps|
    ensures !steps[k].RefoundNothing?
  {
    RunInv(states, steps, k);
    assert StepAt(states, steps, k);
    if steps[k].d in states[k].live {
      assert Apart(states[k], steps[k].d);
    }
  }

  // --- Waiting for each other --------------------------------------------------------------

  /** The delivery's next insert is blocked by another open transaction. */
  ghost predicate Waiting(s: State, d: nat)
    requires d in s.live
  {
    var t := s.live[d];
    || (t.stage == Attaching && !s.db.Knows(t.credential) && !CredentialFree(s, d, t.credential))
    || (t.stage == Inserting && !s.db.Seen(t.key) && !KeyFree(s, d, t.key))
  }

  /** Whoever is not waiting has a statement to execute. */
  lemma MovesUnlessWaiting(s: State, d: nat, newId: Pid) returns (step: Step, s': State)
    requires Inv(s) && d in s.live && !Waiting(s, d) && PrincipalFree(s, d, newId)
    ensures Next(s, step, s') && step.d == d && !step.Abort?
  {
    var t := s.live[d];
    assert OwnRight(t) && Apart(s, d);
    match t.stage
    case Resolving =>
      if s.db.Knows(t.credential) {
        var row :| row in s.db.credentials && row.credential == t.credential;
        step, s' := Found(d, row.principal), With(s, d, t.(stage := Inserting, principal := Some(row.principal)));
      } else {
        step, s' := NotFound(d), With(s, d, t.(stage := Creating));
      }
    case Creating =>
      step, s' := Create(d, newId), With(s, d, t.(stage := Attaching, principal := Some(newId), created := true));
    case Attaching =>
      if s.db.Knows(t.credential) {
        step, s' := Conflict(d), With(s, d, t.RollBack());
      } else {
        step, s' := Attach(d), With(s, d, t.(stage := Inserting, attached := true));
      }
    case RolledBack =>
      var row :| row in s.db.credentials && row.credential == t.credential;
      step, s' := Found(d, row.principal), With(s, d, t.(stage := Inserting, principal := Some(row.principal)));
    case Inserting =>
      if s.db.Seen(t.key) {
        step, s' := Duplicate(d), With(s, d, t.(stage := Committing(false)));
      } else {
        step, s' := Insert(d, 0), With(s, d, t.(stage := Scheduling, row := Some(ProcessedRow(0, t.key, t.principal.value))));
      }
    case Scheduling =>
      step := Schedule(d, 0);
      s' := With(s, d, t.(stage := Committing(true), work := Some(WorkRow(0, t.key, t.principal.value))));
    case Committing(accepted) =>
      step := Commit(d);
      s' := State(Joined(s.db, t), s.live - {d}, if accepted then s.accepted + multiset{t.key} else s.accepted);
  }

  lemma RowHolderMoves(s: State, d: nat)
    requires Inv(s) && d in s.live && s.live[d].row.Some?
    ensures !Waiting(s, d)
  {
    assert OwnRight(s.live[d]);
  }

  /** The deliveries in flight never all wait for each other: following who waits for whom ends, after at most two
      steps, at one that can go on. */
  lemma NoDeadlock(states: seq<State>, steps: seq<Step>, k: nat, d: nat) returns (mover: nat)
    requires Run(states, steps) && k < |states| && d in states[k].live
    ensures mover in states[k].live && !Waiting(states[k], mover)
  {
    var s := states[k];
    RunInv(states, steps, k);
    mover := d;
    if s.live[mover].stage == Attaching && Waiting(s, mover) {
      mover :| mover in s.live && mover != d && s.live[mover].attached && s.live[mover].credential == s.live[d].credential;
      assert OwnRight(s.live[mover]);
    }
    if Waiting(s, mover) {
      var asker := mover;
      mover :| mover in s.live && mover != asker && s.live[mover].row.Some? && s.live[mover].key == s.live[asker].key;
      RowHolderMoves(s, mover);
    }
  }

  // --- One delivery on its own -------------------------------------------------------------

  class Session {
    var db: Tables

    constructor (db: Tables)
      ensures this.db == db
    {
      this.db := db;
    }

    method ResolvePrincipalByCredential(c: Credential) returns (found: Option<Pid>)
      ensures found.Some? <==> db.Knows(c)
      ensures found.Some? ==> CredentialRow(c, found.value) in db.credentials
    {
      var matching := set row | row in db.credentials && row.credential == c;
      if matching == {} {
        assert forall row :: row in db.credentials && row.credential == c ==> row in matching;
        return None;
      }
      var row :| row in matching;
      found := Some(row.principal);
    }

    /** `accept_inbound_message` followed by the caller's commit, undisturbed: the race branch is not reached. */
    method AcceptInboundMessage(key: MessageKey, c: Credential, freshPrincipal: Pid, rowId: RowId, workId: RowId)
      returns (accepted: bool, principal: Pid)
      requires freshPrincipal !in db.principals
      modifies this
      ensures accepted <==> !old(db).Seen(key)
      ensures CredentialRow(c, principal) in db.credentials
      ensures old(db).Knows(c) ==> db.principals == old(db).principals && db.credentials == old(db).credentials
      ensures !old(db).Knows(c) ==>
                && principal == freshPrincipal && db.principals == old(db).principals + {principal}
                && db.credentials == old(db).credentials + {CredentialRow(c, principal)}
      ensures db.processed == old(db).processed + (if accepted then {ProcessedRow(rowId, key, principal)} else {})
      ensures db.work == old(db).work + (if accepted then {WorkRow(workId, key, principal)} else {})
    {
      var found := ResolvePrincipalByCredential(c);
      if found == None {
        principal := freshPrincipal;
        db := db.(principals := db.principals + {principal});
        db := db.(credentials := db.credentials + {CredentialRow(c, principal)});
      } else {
        principal := found.value;
      }
      if exists row :: row in db.processed && row.key == key {
        return false, principal;
      }
      db := db.(processed := db.processed + {ProcessedRow(rowId, key, principal)});
      db := db.(work := db.work + {WorkRow(workId, key, principal)});
      accepted := true;
    }
  }
}
