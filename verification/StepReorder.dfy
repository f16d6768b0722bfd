/**
  Reordering the steps of a workflow in two phases under the constraint that no
  two active steps share an order (backend/agent/views.py, StepReorderView).
 */
module StepReorder {
  datatype Row = Row(workflow: nat, order: nat, deleted: bool)
  type Rows = map<nat, Row>

  /** An active step of the workflow. */
  predicate ActiveIn(rows: Rows, id: nat, workflow: nat) {
    id in rows && rows[id].workflow == workflow && !rows[id].deleted
  }

  /** The partial unique constraint of the table. */
  ghost predicate UniqueOrders(rows: Rows) {
    forall a, b | a in rows && b in rows && a != b && !rows[a].deleted && !rows[b].deleted ::
      rows[a].workflow == rows[b].workflow ==> rows[a].order != rows[b].order
  }

  ghost predicate Distinct(ids: seq<nat>) {
    forall i, j :: 0 <= i < j < |ids| ==> ids[i] != ids[j]
  }

  /** The ids a reorder request may name: active steps of the workflow, each once. */
  ghost predicate ValidIds(rows: Rows, workflow: nat, ids: seq<nat>) {
    Distinct(ids) && forall i :: 0 <= i < |ids| ==> ActiveIn(rows, ids[i], workflow)
  }

  /** Some active step that the request does not name holds an order that phase two assigns. */
  ghost predicate Blocked(rows: Rows, workflow: nat, ids: seq<nat>) {
    exists id :: ActiveIn(rows, id, workflow) && id !in ids && 1 <= rows[id].order <= |ids|
  }

  /** Each listed step i gets order base + i + 1, for the first n of them. */
  function Placed(rows: Rows, ids: seq<nat>, base: nat, n: nat): Rows
    requires n <= |ids| && forall i :: 0 <= i < |ids| ==> ids[i] in rows
  {
    if n == 0 then rows
    else
      var before := Placed(rows, ids, base, n - 1);
      if ids[n - 1] in before then before[ids[n - 1] := before[ids[n - 1]].(order := base + n)] else before
  }

  /** The step is among the first n listed. */
  ghost predicate InFirst(ids: seq<nat>, n: nat, id: nat) {
    exists i :: 0 <= i < n && i < |ids| && ids[i] == id
  }

  /** In r the first n listed steps have their new orders, and nothing else has changed. */
  ghost predicate IsPlaced(rows: Rows, r: Rows, ids: seq<nat>, base: nat, n: nat)
    requires n <= |ids| && forall i :: 0 <= i < |ids| ==> ids[i] in rows
  {
    && r.Keys == rows.Keys
    && (forall i :: 0 <= i < n ==> r[ids[i]] == rows[ids[i]].(order := base + i + 1))
    && (forall id :: id in rows && !InFirst(ids, n, id) ==> r[id] == rows[id])
  }

  lemma {:induction false} OneMorePlaced(rows: Rows, before: Rows, ids: seq<nat>, base: nat, n: nat)
    requires n < |ids| && Distinct(ids) && forall i :: 0 <= i < |ids| ==> ids[i] in rows
    requires IsPlaced(rows, before, ids, base, n)
    ensures before[ids[n]] == rows[ids[n]]
    ensures IsPlaced(rows, before[ids[n] := before[ids[n]].(order := base + n + 1)], ids, base, n + 1)
  {
    assert !InFirst(ids, n, ids[n]);
    forall id | id in rows && !InFirst(ids, n + 1, id)
      ensures id != ids[n] && !InFirst(ids, n, id)
    {
    }
  }

  /** What placing n of the steps leaves and what it changes. */
  lemma {:induction false} PlacedIs(rows: Rows, ids: seq<nat>, base: nat, n: nat)
    requires n <= |ids| && Distinct(ids) && forall i :: 0 <= i < |ids| ==> ids[i] in rows
    ensures IsPlaced(rows, Placed(rows, ids, base, n), ids, base, n)
  {
    if n > 0 {
      PlacedIs(rows, ids, base, n - 1);
      OneMorePlaced(rows, Placed(rows, ids, base, n - 1), ids, base, n - 1);
    }
  }

  function IdSet(ids: seq<nat>): set<nat> {
    set id | id in ids
  }

  lemma {:induction false} IdSetSize(ids: seq<nat>)
    ensures |IdSet(ids)| <= |ids|
    ensures |IdSet(ids)| == |ids| <==> Distinct(ids)
  {
    if ids != [] {
      var n := |ids| - 1;
      var init := ids[..n];
      assert ids == init + [ids[n]];
      IdSetSize(init);
      assert IdSet(ids) == IdSet(init) + {ids[n]};
      if ids[n] in init {
        assert IdSet(ids) == IdSet(init);
        var j :| 0 <= j < n && init[j] == ids[n];
        assert ids[j] == ids[n];
      } else {
        assert forall i :: 0 <= i < n ==> init[i] == ids[i];
      }
    }
  }

  /** The count check of the view accepts exactly the valid lists: it also catches repeated ids. */
  lemma {:induction false} CountCheckIsExact(rows: Rows, workflow: nat, ids: seq<nat>)
    ensures |set id | id in ids && ActiveIn(rows, id, workflow)| == |ids| <==> ValidIds(rows, workflow, ids)
  {
    var found := set id | id in ids && ActiveIn(rows, id, workflow);
    IdSetSize(ids);
    assert found <= IdSet(ids);
    SubsetSize(found, IdSet(ids));
    if |found| == |ids| {
      forall i | 0 <= i < |ids|
        ensures ActiveIn(rows, ids[i], workflow)
      {
        assert ids[i] in IdSet(ids);
      }
    }
    if ValidIds(rows, workflow, ids) {
      assert found == IdSet(ids);
    }
  }

  lemma {:induction false} SubsetSize(a: set<nat>, b: set<nat>)
    requires a <= b
    ensures |a| <= |b| && (|a| == |b| ==> a == b)
  {
    assert b == a + (b - a);
    assert |b| == |a| + |b - a|;
  }

  datatype Outcome = InvalidIds | Conflict | Reordered

  class StepTable {
    var rows: Rows

    /** One `UPDATE ... SET order` of one row; the constraint may refuse it. */
    method Update(id: nat, order: nat) returns (ok: bool)
      requires UniqueOrders(rows)
      modifies this
      ensures UniqueOrders(rows)
      ensures ok ==> id in old(rows) && rows == old(rows)[id := old(rows)[id].(order := order)]
      ensures !ok ==> rows == old(rows)
      ensures id in old(rows) ==>
        (ok <==> !exists other :: other in old(rows) && other != id && !old(rows)[id].deleted
                   && ActiveIn(old(rows), other, old(rows)[id].workflow) && old(rows)[other].order == order)
    {
      if id !in rows {
        return false;
      }
      if exists other :: other in rows && other != id && !rows[id].deleted
           && ActiveIn(rows, other, rows[id].workflow) && rows[other].order == order {
        return false;
      }
      rows := rows[id := rows[id].(order := order)];
      return true;
    }

    method MaxOrder(workflow: nat) returns (highest: nat)
      ensures forall id :: id in rows && rows[id].workflow == workflow ==> rows[id].order <= highest
      ensures highest == 0 || exists id :: id in rows && rows[id].workflow == workflow && rows[id].order == highest
    {
      highest := 0;
      var todo := rows.Keys;
      while todo != {}
        invariant todo <= rows.Keys
        invariant forall id :: id in rows && id !in todo && rows[id].workflow == workflow ==> rows[id].order <= highest
        invariant highest == 0 || exists id :: id in rows && rows[id].workflow == workflow && rows[id].order == highest
      {
        var id :| id in todo;
        if rows[id].workflow == workflow && rows[id].order > highest {
          highest := rows[id].order;
        }
        todo := todo - {id};
      }
    }

    /**
      Reorder in one transaction. It goes through exactly when the list is
      valid and no unlisted active step holds one of the orders 1..n; orders
      stay unique after every single update, and nothing else changes.
     */
    method Reorder(workflow: nat, ids: seq<nat>) returns (outcome: Outcome)
      requires UniqueOrders(rows)
      modifies this
      ensures UniqueOrders(rows)
      ensures outcome == InvalidIds <==> !ValidIds(old(rows), workflow, ids)
      ensures outcome == Conflict <==> ValidIds(old(rows), workflow, ids) && Blocked(old(rows), workflow, ids)
      ensures outcome != Reordered ==> rows == old(rows)
      ensures outcome == Reordered ==>
        && rows.Keys == old(rows).Keys
        && (forall i :: 0 <= i < |ids| ==> rows[ids[i]] == old(rows)[ids[i]].(order := i + 1))
        && (forall id :: id in rows && id !in ids ==> rows[id] == old(rows)[id])
    {
      CountCheckIsExact(rows, workflow, ids);
      if |set id | id in ids && ActiveIn(rows, id, workflow)| != |ids| {
        return InvalidIds;
      }
      var before := rows;
      var highest := MaxOrder(workflow);
      var base := highest + |ids| + 1000;
      Park(workflow, ids, base);
      ParkedRows(before, workflow, ids, base);
      var ok := Assign(workflow, ids, base);
      if !ok {
        rows := before;
        return Conflict;
      }
      TwoPhases(before, ids, base);
      return Reordered;
    }

    /** Phase one: the listed steps move above every order in use; no update is refused. */
    method Park(workflow: nat, ids: seq<nat>, base: nat)
      requires UniqueOrders(rows) && ValidIds(rows, workflow, ids)
      requires forall id :: id in rows && rows[id].workflow == workflow ==> rows[id].order < base
      modifies this
      ensures UniqueOrders(rows) && rows == Placed(old(rows), ids, base, |ids|)
    {
      for i := 0 to |ids|
        invariant UniqueOrders(rows) && rows == Placed(old(rows), ids, base, i)
      {
        ParkedFree(old(rows), workflow, ids, base, i);
        var ok := Update(ids[i], base + i + 1);
      }
    }

    /** Phase two: orders 1..n, until one is held by a step that is not listed. */
    method Assign(workflow: nat, ids: seq<nat>, base: nat) returns (ok: bool)
      requires UniqueOrders(rows) && ValidIds(rows, workflow, ids) && |ids| < base
      requires forall i :: 0 <= i < |ids| ==> rows[ids[i]].order == base + i + 1
      modifies this
      ensures UniqueOrders(rows)
      ensures ok <==> !Blocked(old(rows), workflow, ids)
      ensures ok ==> rows == Placed(old(rows), ids, 0, |ids|)
    {
      ghost var before := rows;
      for i := 0 to |ids|
        invariant UniqueOrders(rows) && rows == Placed(before, ids, 0, i)
        invariant !BlockedUpTo(before, workflow, ids, i)
      {
        AssignedFree(before, workflow, ids, base, i);
        ghost var r := rows;
        ok := Update(ids[i], i + 1);
        if !ok {
          RefusedIsBlocked(before, r, workflow, ids, i);
          return;
        }
        AcceptedIsFree(before, r, workflow, ids, i);
      }
      return true;
    }
  }

  /** An update of phase two is refused only if an unlisted active step holds its order. */
  lemma {:induction false} RefusedIsBlocked(rows: Rows, r: Rows, workflow: nat, ids: seq<nat>, i: nat)
    requires i < |ids| && ids[i] in r
    requires exists other :: ActiveIn(r, other, workflow) && other != ids[i] && r[other].order == i + 1
    requires forall other :: ActiveIn(r, other, workflow) && other != ids[i] && r[other].order == i + 1 <==>
      ActiveIn(rows, other, workflow) && other !in ids && rows[other].order == i + 1
    ensures Blocked(rows, workflow, ids)
  {
    var other :| ActiveIn(r, other, workflow) && other != ids[i] && r[other].order == i + 1;
    assert ActiveIn(rows, other, workflow) && other !in ids && 1 <= rows[other].order <= |ids|;
  }

  /** Some active step that the request does not name holds one of the orders 1..n. */
  ghost predicate BlockedUpTo(rows: Rows, workflow: nat, ids: seq<nat>, n: nat) {
    exists id :: ActiveIn(rows, id, workflow) && id !in ids && 1 <= rows[id].order <= n
  }

  lemma {:induction false} AcceptedIsFree(rows: Rows, r: Rows, workflow: nat, ids: seq<nat>, i: nat)
    requires i < |ids| && ids[i] in r && !BlockedUpTo(rows, workflow, ids, i)
    requires !exists other :: ActiveIn(r, other, workflow) && other != ids[i] && r[other].order == i + 1
    requires forall other :: ActiveIn(r, other, workflow) && other != ids[i] && r[other].order == i + 1 <==>
      ActiveIn(rows, other, workflow) && other !in ids && rows[other].order == i + 1
    ensures !BlockedUpTo(rows, workflow, ids, i + 1)
  {
  }

  /** Parking changes neither which lists are valid nor which are blocked. */
  lemma {:induction false} ParkedRows(rows: Rows, workflow: nat, ids: seq<nat>, base: nat)
    requires ValidIds(rows, workflow, ids)
    ensures
      var r := Placed(rows, ids, base, |ids|);
      && ValidIds(r, workflow, ids)
      && (forall i :: 0 <= i < |ids| ==> r[ids[i]].order == base + i + 1)
      && (Blocked(r, workflow, ids) <==> Blocked(rows, workflow, ids))
  {
    var r := Placed(rows, ids, base, |ids|);
    PlacedIs(rows, ids, base, |ids|);
    forall id | id !in ids
      ensures !InFirst(ids, |ids|, id)
      ensures ActiveIn(r, id, workflow) && 1 <= r[id].order <= |ids| <==>
              ActiveIn(rows, id, workflow) && 1 <= rows[id].order <= |ids|
    {
    }
  }

  lemma {:induction false} TwoPhases(rows: Rows, ids: seq<nat>, base: nat)
    requires Distinct(ids) && forall i :: 0 <= i < |ids| ==> ids[i] in rows
    ensures
      var parked := Placed(rows, ids, base, |ids|);
      && (forall i :: 0 <= i < |ids| ==> ids[i] in parked)
      && var r := Placed(parked, ids, 0, |ids|);
      && r.Keys == rows.Keys
      && (forall i :: 0 <= i < |ids| ==> r[ids[i]] == rows[ids[i]].(order := i + 1))
      && (forall id :: id in r && id !in ids ==> r[id] == rows[id])
  {
    PlacedIs(rows, ids, base, |ids|);
    PlacedIs(Placed(rows, ids, base, |ids|), ids, 0, |ids|);
    assert forall id :: InFirst(ids, |ids|, id) ==> id in ids;
  }

  /** While the steps are parked, the next position is free. */
  lemma {:induction false} ParkedFree(rows: Rows, workflow: nat, ids: seq<nat>, base: nat, i: nat)
    requires i < |ids| && ValidIds(rows, workflow, ids)
    requires forall id :: id in rows && rows[id].workflow == workflow ==> rows[id].order < base
    ensures
      var r := Placed(rows, ids, base, i);
      && ids[i] in r && r[ids[i]] == rows[ids[i]]
      && forall other :: ActiveIn(r, other, workflow) && other != ids[i] ==> r[other].order != base + i + 1
  {
    var r := Placed(rows, ids, base, i);
    PlacedIs(rows, ids, base, i);
    assert !InFirst(ids, i, ids[i]);
    forall other | ActiveIn(r, other, workflow) && other != ids[i]
      ensures r[other].order != base + i + 1
    {
      if InFirst(ids, i, other) {
        var j :| 0 <= j < i && ids[j] == other;
      }
    }
  }

  /** While the orders are assigned, the next one is free unless an unlisted active step holds it. */
  lemma {:induction false} AssignedFree(rows: Rows, workflow: nat, ids: seq<nat>, base: nat, i: nat)
    requires i < |ids| && ValidIds(rows, workflow, ids) && |ids| < base
    requires forall k :: 0 <= k < |ids| ==> rows[ids[k]].order == base + k + 1
    ensures
      var r := Placed(rows, ids, 0, i);
      && ids[i] in r && ActiveIn(r, ids[i], workflow)
      && forall other :: ActiveIn(r, other, workflow) && other != ids[i] && r[other].order == i + 1 <==>
           ActiveIn(rows, other, workflow) && other !in ids && rows[other].order == i + 1
  {
    var r := Placed(rows, ids, 0, i);
    PlacedIs(rows, ids, 0, i);
    assert !InFirst(ids, i, ids[i]);
    forall other
      ensures ActiveIn(r, other, workflow) && other != ids[i] && r[other].order == i + 1 <==>
           ActiveIn(rows, other, workflow) && other !in ids && rows[other].order == i + 1
    {
      if other in ids {
        var j :| 0 <= j < |ids| && ids[j] == other;
        assert j >= i ==> !InFirst(ids, i, other);
      } else {
        assert !InFirst(ids, i, other);
      }
    }
  }

  lemma {:induction false} StillActive(rows: Rows, workflow: nat, ids: seq<nat>, id: nat)
    requires ValidIds(rows, workflow, ids) && ActiveIn(Placed(rows, ids, 0, |ids|), id, workflow)
    ensures ActiveIn(rows, id, workflow)
  {
    PlacedIs(rows, ids, 0, |ids|);
    if InFirst(ids, |ids|, id) {
      var j :| 0 <= j < |ids| && ids[j] == id;
    }
  }

  /**
    A list of all active steps is never blocked, and leaves them with exactly
    the orders 1..n in the requested sequence.
   */
  lemma {:induction false} FullListIsOneToN(rows: Rows, workflow: nat, ids: seq<nat>)
    requires ValidIds(rows, workflow, ids) && forall id :: ActiveIn(rows, id, workflow) ==> id in ids
    ensures !Blocked(rows, workflow, ids)
    ensures
      var r := Placed(rows, ids, 0, |ids|);
      forall id :: ActiveIn(r, id, workflow) ==> 1 <= r[id].order <= |ids| && ids[r[id].order - 1] == id
  {
    var r := Placed(rows, ids, 0, |ids|);
    PlacedIs(rows, ids, 0, |ids|);
    forall id | ActiveIn(r, id, workflow)
      ensures 1 <= r[id].order <= |ids| && ids[r[id].order - 1] == id
    {
      StillActive(rows, workflow, ids, id);
      var j :| 0 <= j < |ids| && ids[j] == id;
      assert r[id].order == j + 1;
    }
  }

  /** Naming one of two steps while the other holds order 1 is refused. */
  lemma {:induction false} PartialListBlocked()
    ensures
      var rows: Rows := map[1 := Row(0, 1, false), 2 := Row(0, 2, false)];
      UniqueOrders(rows) && ValidIds(rows, 0, [2]) && Blocked(rows, 0, [2])
  {
    var rows: Rows := map[1 := Row(0, 1, false), 2 := Row(0, 2, false)];
    assert ActiveIn(rows, 1, 0) && 1 !in [2] && 1 <= rows[1].order <= |[2]|;
  }
}
