/** The lifecycle of memory records, and when `superseded_by` chains come to an end. */
module MemoryRepository {
  import opened Prelude

  type Id = string

  datatype MemoryStatus = Active | Superseded | Forgotten

  /** `born` is the record's place in the order of creation. */
  datatype Memory = Memory(status: MemoryStatus, supersededBy: Option<Id>, born: nat)

  type Rows = map<Id, Memory>

  function SupersedeRow(rows: Rows, old_: Id, new_: Id): (Rows, bool) {
    if old_ in rows && rows[old_].status == Active
    then (rows[old_ := rows[old_].(status := Superseded, supersededBy := Some(new_))], true)
    else (rows, false)
  }

  function ForgetRow(rows: Rows, id: Id): (Rows, bool) {
    if id in rows && rows[id].status == Active then (rows[id := rows[id].(status := Forgotten)], true) else (rows, false)
  }

  class MemoryRepository {
    var rows: Rows
    var created: nat

    constructor ()
      ensures rows == map[] && created == 0
    {
      rows, created := map[], 0;
    }

    method Create(id: Id)
      requires id !in rows
      modifies this
      ensures rows == old(rows)[id := Memory(Active, None, old(created))] && created == old(created) + 1
    {
      rows := rows[id := Memory(Active, None, created)];
      created := created + 1;
    }

    method Supersede(oldId: Id, newId: Id) returns (done: bool)
      modifies this`rows
      ensures (rows, done) == SupersedeRow(old(rows), oldId, newId)
      ensures done <==> oldId in old(rows) && old(rows)[oldId].status == Active
      ensures rows == if done then old(rows)[oldId := old(rows)[oldId].(status := Superseded, supersededBy := Some(newId))]
                      else old(rows)
    {
      if oldId !in rows || rows[oldId].status != Active {
        return false;
      }
      rows := rows[oldId := rows[oldId].(status := Superseded, supersededBy := Some(newId))];
      done := true;
    }

    method Forget(id: Id) returns (done: bool)
      modifies this`rows
      ensures (rows, done) == ForgetRow(old(rows), id)
      ensures done <==> id in old(rows) && old(rows)[id].status == Active
      ensures rows == if done then old(rows)[id := old(rows)[id].(status := Forgotten)] else old(rows)
    {
      if id !in rows || rows[id].status != Active {
        return false;
      }
      rows := rows[id := rows[id].(status := Forgotten)];
      done := true;
    }
  }

  /** A forgotten record is forgotten for good: it keeps its place, and can be neither superseded nor forgotten again. */
  lemma ForgottenIsFinal(rows: Rows, id: Id, newId: Id)
    requires id in rows && rows[id].status == Active
    ensures var after := ForgetRow(rows, id).0;
            && id in after && after[id].status == Forgotten && after[id].supersededBy == rows[id].supersededBy
            && SupersedeRow(after, id, newId) == (after, false) && ForgetRow(after, id) == (after, false)
  {
  }

  /** So is a superseded one: it keeps the successor it was given first. */
  lemma SupersededIsFinal(rows: Rows, id: Id, newId: Id, other: Id)
    requires id in rows && rows[id].status == Active
    ensures var after := SupersedeRow(rows, id, newId).0;
            && id in after && after[id].status == Superseded && after[id].supersededBy == Some(newId)
            && SupersedeRow(after, id, other) == (after, false) && ForgetRow(after, id) == (after, false)
  {
  }

  /** A record is superseded exactly if it names a successor, which exists and is younger. */
  predicate RowForward(rows: Rows, id: Id)
    requires id in rows
  {
    && (rows[id].status == Superseded <==> rows[id].supersededBy.Some?)
    && (rows[id].supersededBy.Some? ==>
          rows[id].supersededBy.value in rows && rows[id].born < rows[rows[id].supersededBy.value].born)
  }

  ghost predicate Forward(rows: Rows) {
    forall id :: id in rows ==> RowForward(rows, id)
  }

  ghost predicate BornBefore(rows: Rows, created: nat) {
    forall id :: id in rows ==> rows[id].born < created
  }

  lemma CreateKeepsForward(rows: Rows, created: nat, id: Id)
    requires Forward(rows) && BornBefore(rows, created) && id !in rows
    ensures Forward(rows[id := Memory(Active, None, created)])
    ensures BornBefore(rows[id := Memory(Active, None, created)], created + 1)
  {
    forall x | x in rows
      ensures RowForward(rows[id := Memory(Active, None, created)], x)
    {
      assert RowForward(rows, x);
    }
  }

  lemma ForgetKeepsForward(rows: Rows, id: Id)
    requires Forward(rows)
    ensures Forward(ForgetRow(rows, id).0)
  {
    forall x | x in rows
      ensures RowForward(ForgetRow(rows, id).0, x)
    {
      assert RowForward(rows, x);
    }
  }

  /** A supersession keeps chains running forward exactly if it writes nothing or names a younger record. */
  lemma SupersedeKeepsForwardIff(rows: Rows, oldId: Id, newId: Id)
    requires Forward(rows)
    ensures Forward(SupersedeRow(rows, oldId, newId).0) <==>
            (oldId in rows && rows[oldId].status == Active ==> newId in rows && rows[oldId].born < rows[newId].born)
  {
    var after := SupersedeRow(rows, oldId, newId).0;
    forall x | x in rows && x != oldId
      ensures RowForward(after, x)
    {
      assert RowForward(rows, x);
    }
    assert oldId in rows ==> RowForward(rows, oldId);
    assert Forward(after) && oldId in rows ==> RowForward(after, oldId);
  }

  /** Nothing in `supersede` itself asks for that: two calls close a cycle. */
  lemma SupersedeCanCycle(a: Id, b: Id)
    requires a != b
    ensures var rows: Rows := map[a := Memory(Active, None, 0), b := Memory(Active, None, 1)];
            var one := SupersedeRow(rows, a, b);
            var two := SupersedeRow(one.0, b, a);
            one.1 && two.1 && two.0[a].supersededBy == Some(b) && two.0[b].supersededBy == Some(a)
  {
  }

  /** Each record of the path is superseded by the next, and the last one is not superseded. */
  ghost predicate ChainFrom(rows: Rows, id: Id, path: seq<Id>) {
    && |path| > 0 && path[0] == id
    && (forall k :: 0 <= k < |path| ==> path[k] in rows)
    && (forall k :: 0 <= k < |path| - 1 ==> rows[path[k]].supersededBy == Some(path[k + 1]))
    && rows[path[|path| - 1]].supersededBy == None
  }

  ghost function Younger(rows: Rows, id: Id): set<Id>
    requires id in rows
  {
    set x | x in rows && rows[x].born > rows[id].born
  }

  /** Forward chains are acyclic: from every record the chain visits ever younger records and ends at one that
      nothing supersedes. */
  lemma {:induction false} ChainEnds(rows: Rows, id: Id) returns (path: seq<Id>)
    requires Forward(rows) && id in rows
    ensures ChainFrom(rows, id, path)
    ensures forall i, j :: 0 <= i < j < |path| ==> rows[path[i]].born < rows[path[j]].born
    decreases Younger(rows, id)
  {
    assert RowForward(rows, id);
    if rows[id].supersededBy == None {
      path := [id];
    } else {
      var next := rows[id].supersededBy.value;
      assert next in Younger(rows, id) && next !in Younger(rows, next);
      var rest := ChainEnds(rows, next);
      path := [id] + rest;
      assert forall k :: 1 <= k < |path| ==> path[k] == rest[k - 1];
    }
  }

  // --- Exactly when chains go on ending ----------------------------------------------------

  /** The chain from `id` ends, and it ends at `end`. */
  ghost predicate EndsAt(rows: Rows, id: Id, end: Id) {
    exists path :: ChainFrom(rows, id, path) && path[|path| - 1] == end
  }

  ghost predicate Ends(rows: Rows, id: Id) {
    exists path :: ChainFrom(rows, id, path)
  }

  /** Every chain ends: there is no cycle and no missing successor. */
  ghost predicate AllEnd(rows: Rows) {
    forall id {:trigger Ends(rows, id)} :: id in rows ==> Ends(rows, id)
  }

  /** All chains end, and active records have no successor. */
  ghost predicate Ending(rows: Rows) {
    AllEnd(rows) && forall id :: id in rows && rows[id].status == Active ==> rows[id].supersededBy == None
  }

  lemma ForwardEnds(rows: Rows)
    requires Forward(rows)
    ensures Ending(rows)
  {
    forall id | id in rows
      ensures Ends(rows, id)
      ensures rows[id].status == Active ==> rows[id].supersededBy == None
    {
      var path := ChainEnds(rows, id);
      assert RowForward(rows, id);
    }
  }

  lemma ChainTail(rows: Rows, id: Id, path: seq<Id>)
    requires ChainFrom(rows, id, path) && |path| > 1
    ensures ChainFrom(rows, path[1], path[1..])
  {
  }

  /** A record has at most one chain, so it is for the caller to walk. */
  lemma {:induction false} ChainIsUnique(rows: Rows, id: Id, p: seq<Id>, q: seq<Id>)
    requires ChainFrom(rows, id, p) && ChainFrom(rows, id, q)
    ensures p == q
    decreases |p|
  {
    if |p| > 1 {
      ChainTail(rows, id, p);
      ChainTail(rows, id, q);
      ChainIsUnique(rows, p[1], p[1..], q[1..]);
      assert p == [id] + p[1..] && q == [id] + q[1..];
    }
  }

  /** A chain that never leaves a set of records with successors cannot end. */
  lemma {:induction false} Trapped(rows: Rows, id: Id, path: seq<Id>, trap: set<Id>)
    requires ChainFrom(rows, id, path) && id in trap
    requires forall x :: x in trap && x in rows ==> rows[x].supersededBy.Some? && rows[x].supersededBy.value in trap
    ensures false
    decreases |path|
  {
    if |path| > 1 {
      assert rows[path[0]].supersededBy == Some(path[1]);
      ChainTail(rows, id, path);
      Trapped(rows, path[1], path[1..], trap);
    }
  }

  /** What a supersession that is carried out does to the links: one more, and no other change. */
  ghost predicate OneMoreLink(rows: Rows, oldId: Id, newId: Id, after: Rows) {
    && oldId in rows && rows[oldId].supersededBy == None && after.Keys == rows.Keys
    && after[oldId].supersededBy == Some(newId)
    && forall x :: x in rows && x != oldId ==> after[x].supersededBy == rows[x].supersededBy
  }

  lemma Linked(rows: Rows, id: Id, path: seq<Id>, k: nat)
    requires ChainFrom(rows, id, path) && k < |path| - 1
    ensures path[k] in rows && rows[path[k]].supersededBy == Some(path[k + 1])
  {
  }

  /** A chain passes a record without successor only at its end. */
  lemma OnlyAtTheEnd(rows: Rows, id: Id, path: seq<Id>, last: Id)
    requires ChainFrom(rows, id, path) && last in path && last in rows && rows[last].supersededBy == None
    ensures path[|path| - 1] == last
  {
    var k :| 0 <= k < |path| && path[k] == last;
    if k < |path| - 1 {
      Linked(rows, id, path, k);
      assert false;
    }
  }

  /** A chain none of whose links has changed is still one. */
  lemma SameChain(rows: Rows, after: Rows, id: Id, path: seq<Id>)
    requires ChainFrom(rows, id, path) && rows.Keys <= after.Keys
    requires forall k :: 0 <= k < |path| ==> after[path[k]].supersededBy == rows[path[k]].supersededBy
    ensures Ends(after, id)
  {
    assert ChainFrom(after, id, path);
  }

  lemma ChainContinues(rows: Rows, oldId: Id, newId: Id, after: Rows, id: Id, path: seq<Id>, rest: seq<Id>)
    requires OneMoreLink(rows, oldId, newId, after)
    requires ChainFrom(rows, id, path) && ChainFrom(rows, newId, rest) && oldId !in rest
    ensures Ends(after, id)
  {
    if oldId in path {
      OnlyAtTheEnd(rows, id, path, oldId);
      var longer, n := path + rest, |path| - 1;
      forall k | 0 <= k < n
        ensures after[path[k]].supersededBy == Some(path[k + 1])
      {
        assert rows[path[k]].supersededBy == Some(path[k + 1]);
      }
      assert forall k :: n < k < |longer| ==> longer[k] == rest[k - n - 1];
      assert ChainFrom(after, id, longer);
    } else {
      SameChain(rows, after, id, path);
    }
  }

  /** After the new link, chains still end exactly if the new record exists and its chain does not lead back. */
  lemma LinkKeepsEnds(rows: Rows, oldId: Id, newId: Id, after: Rows)
    requires OneMoreLink(rows, oldId, newId, after) && AllEnd(rows)
    ensures AllEnd(after) <==> newId in rows && !EndsAt(rows, newId, oldId)
  {
    if newId in rows && !EndsAt(rows, newId, oldId) {
      assert Ends(rows, newId);
      var rest :| ChainFrom(rows, newId, rest);
      if oldId in rest {
        OnlyAtTheEnd(rows, newId, rest, oldId);
      }
      forall id | id in after
        ensures Ends(after, id)
      {
        assert Ends(rows, id);
        var path :| ChainFrom(rows, id, path);
        ChainContinues(rows, oldId, newId, after, id, path, rest);
      }
    } else if Ends(after, oldId) {
      var path :| ChainFrom(after, oldId, path);
      assert |path| > 1 && path[1] == newId;
      LoopIsClosed(rows, oldId, newId, after, path);
    }
  }

  lemma LoopIsClosed(rows: Rows, oldId: Id, newId: Id, after: Rows, path: seq<Id>)
    requires OneMoreLink(rows, oldId, newId, after) && newId in rows && EndsAt(rows, newId, oldId)
    requires ChainFrom(after, oldId, path)
    ensures false
  {
    var loop :| ChainFrom(rows, newId, loop) && loop[|loop| - 1] == oldId;
    forall x | x in Elems(loop) && x in after
      ensures after[x].supersededBy.Some? && after[x].supersededBy.value in Elems(loop)
    {
      var k :| 0 <= k < |loop| && loop[k] == x;
      if x == oldId {
        assert newId == loop[0];
      } else {
        assert k < |loop| - 1 && loop[k + 1] in loop;
      }
    }
    Trapped(after, oldId, path, Elems(loop));
  }

  /** Exactly when `supersede` keeps every chain ending: it writes nothing, or names an existing record whose own
      chain does not end at the record superseded. */
  lemma SupersedeKeepsEndingIff(rows: Rows, oldId: Id, newId: Id)
    requires Ending(rows)
    ensures Ending(SupersedeRow(rows, oldId, newId).0) <==>
            (oldId in rows && rows[oldId].status == Active ==> newId in rows && !EndsAt(rows, newId, oldId))
  {
    if oldId in rows && rows[oldId].status == Active {
      LinkKeepsEnds(rows, oldId, newId, SupersedeRow(rows, oldId, newId).0);
    }
  }

  lemma CreateKeepsEnding(rows: Rows, created: nat, id: Id)
    requires Ending(rows) && id !in rows
    ensures Ending(rows[id := Memory(Active, None, created)])
  {
    var after := rows[id := Memory(Active, None, created)];
    assert ChainFrom(after, id, [id]);
    SameLinksEnd(rows, after, {id});
  }

  /** Where no link changes, and every new record's chain ends, all chains go on ending. */
  lemma SameLinksEnd(rows: Rows, after: Rows, added: set<Id>)
    requires AllEnd(rows) && after.Keys == rows.Keys + added
    requires forall x :: x in rows ==> after[x].supersededBy == rows[x].supersededBy
    requires forall x :: x in added ==> Ends(after, x)
    ensures AllEnd(after)
  {
    forall x | x in rows
      ensures Ends(after, x)
    {
      assert Ends(rows, x);
      var path :| ChainFrom(rows, x, path);
      SameChain(rows, after, x, path);
    }
  }

  lemma ForgetKeepsEnding(rows: Rows, id: Id)
    requires Ending(rows)
    ensures Ending(ForgetRow(rows, id).0)
  {
    SameLinksEnd(rows, ForgetRow(rows, id).0, {});
  }
}
