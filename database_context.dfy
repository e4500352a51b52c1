/** The unit of work over one table. A context works on a session copy of
    the committed rows: saves, deletes and the bulk operations change only
    the session, calling the registered save and delete callbacks around
    every change, and nothing reaches the store until `SaveChanges`. */
module DatabaseContext {
  import opened Common

  /** A row: its identity and its data. An id that is not in the table (0
      for a new object) makes a save an insert. */
  datatype Entity<D> = Entity(id: int, data: D)

  /** A registered save callback. `beforeSave` is what it does to the data
      it is handed before the save; its after-save step only shows in the log. */
  datatype SaveCallback<!D> = SaveCallback(name: string, beforeSave: D -> D)

  /** The four callback hooks. */
  datatype Hook = BeforeSave | AfterSave | BeforeDelete | AfterDelete

  /** What happened, in order: callback invocations and the session writes. */
  datatype Event =
    | Called(hook: Hook, callback: string, id: int)
    | Persist(id: int)
    | Removed(id: int)

  /** Ids strictly ascend, so each identifies one row. */
  predicate Ascending<D>(rows: seq<Entity<D>>) {
    forall i, j | 0 <= i < j < |rows| :: rows[i].id < rows[j].id
  }

  /** Ids are positive, ascending and below the next id to hand out. */
  predicate WellFormed<D>(rows: seq<Entity<D>>, nextId: int) {
    nextId >= 1 && (forall i | 0 <= i < |rows| :: 1 <= rows[i].id < nextId) && Ascending(rows)
  }

  /** `WellFormed`, stated row by row from the last: each id is below the
      one after it (or below `nextId`), and the first is positive. */
  predicate ValidRows<D>(rows: seq<Entity<D>>, nextId: int)
    decreases |rows|
  {
    if |rows| == 0 then nextId >= 1
    else rows[|rows| - 1].id < nextId && ValidRows(rows[..|rows| - 1], rows[|rows| - 1].id)
  }

  /** A table valid row by row is well formed. */
  lemma {:induction false} ValidRowsWellFormed<D>(rows: seq<Entity<D>>, nextId: int)
    requires ValidRows(rows, nextId)
    ensures WellFormed(rows, nextId)
    decreases |rows|
  {
    if |rows| > 0 {
      var front := rows[..|rows| - 1];
      var last := rows[|rows| - 1];
      ValidRowsWellFormed(front, last.id);
      assert forall i | 0 <= i < |front| :: front[i] == rows[i];
      forall i, j | 0 <= i < j < |rows|
        ensures rows[i].id < rows[j].id
      {
        if j < |front| {
          assert front[i].id < front[j].id;
        } else {
          assert front[i].id < last.id;
        }
      }
    }
  }

  /** A well-formed table is valid row by row. */
  lemma {:induction false} WellFormedValidRows<D>(rows: seq<Entity<D>>, nextId: int)
    requires WellFormed(rows, nextId)
    ensures ValidRows(rows, nextId)
    decreases |rows|
  {
    if |rows| > 0 {
      var front := rows[..|rows| - 1];
      var last := rows[|rows| - 1];
      assert forall i | 0 <= i < |front| :: front[i] == rows[i];
      assert forall i | 0 <= i < |front| :: front[i].id < last.id;
      WellFormedValidRows(front, last.id);
    }
  }

  /** Two ascending tables, the first entirely below the second, join into one. */
  lemma ConcatAscending<D>(a: seq<Entity<D>>, b: seq<Entity<D>>)
    requires Ascending(a) && Ascending(b)
    requires |b| > 0 ==> forall j | 0 <= j < |a| :: a[j].id < b[0].id
    ensures Ascending(a + b)
  {
    var c := a + b;
    forall i, j | 0 <= i < j < |c|
      ensures c[i].id < c[j].id
    {
      if i >= |a| {
        assert c[i] == b[i - |a|] && c[j] == b[j - |a|];
      } else if j >= |a| {
        assert c[j] == b[j - |a|];
        assert b[0].id <= b[j - |a|].id;
      }
    }
  }

  /** Position of the row with identity `id`, or -1. */
  function IndexOfId<D>(rows: seq<Entity<D>>, id: int): (r: int)
    ensures -1 <= r < |rows|
    ensures r >= 0 ==> rows[r].id == id
    ensures r == -1 ==> forall j | 0 <= j < |rows| :: rows[j].id != id
  {
    if |rows| == 0 then -1
    else if rows[|rows| - 1].id == id then |rows| - 1
    else IndexOfId(rows[..|rows| - 1], id)
  }

  /** In an ascending table the row holding an id is found at its own position. */
  lemma IndexOfIdAt<D>(rows: seq<Entity<D>>, i: int)
    requires 0 <= i < |rows|
    requires forall j | 0 <= j < |rows| && j != i :: rows[j].id != rows[i].id
    ensures IndexOfId(rows, rows[i].id) == i
  {
  }

  /** Two tables with the same ids in the same places are equally valid. */
  lemma {:induction false} SameIdsValid<D>(a: seq<Entity<D>>, b: seq<Entity<D>>, nextId: int)
    requires ValidRows(a, nextId) && |a| == |b|
    requires forall j | 0 <= j < |a| :: a[j].id == b[j].id
    ensures ValidRows(b, nextId)
    decreases |a|
  {
    if |a| > 0 {
      SameIdsValid(a[..|a| - 1], b[..|b| - 1], a[|a| - 1].id);
    }
  }

  /** The session merge: a row with the same identity is replaced by `e`;
      otherwise `e`'s data is inserted under a fresh id. Returns the new
      rows, the stored instance and the next free id. */
  function Merge<D>(rows: seq<Entity<D>>, nextId: int, e: Entity<D>): (r: (seq<Entity<D>>, Entity<D>, int))
    ensures r.1 in r.0 && r.1.data == e.data
    ensures IndexOfId(rows, e.id) >= 0 ==> r == (rows[IndexOfId(rows, e.id) := e], e, nextId)
    ensures IndexOfId(rows, e.id) < 0 ==> r == (rows + [Entity(nextId, e.data)], Entity(nextId, e.data), nextId + 1)
  {
    var i := IndexOfId(rows, e.id);
    if i >= 0 then
      var r := rows[i := e];
      assert r[i] == e;
      (r, e, nextId)
    else
      var x := Entity(nextId, e.data);
      var r := rows + [x];
      assert r[|rows|] == x;
      (r, x, nextId + 1)
  }

  /** A merge keeps the table valid, with the returned next id. */
  lemma MergeValid<D>(rows: seq<Entity<D>>, nextId: int, e: Entity<D>)
    requires ValidRows(rows, nextId)
    ensures ValidRows(Merge(rows, nextId, e).0, Merge(rows, nextId, e).2)
  {
    var i := IndexOfId(rows, e.id);
    var m := Merge(rows, nextId, e);
    if i >= 0 {
      assert m.0 == rows[i := e] && m.2 == nextId;
      SameIdsValid(rows, rows[i := e], nextId);
    } else {
      var x := Entity(nextId, e.data);
      assert m.0 == rows + [x] && m.2 == nextId + 1;
      assert (rows + [x])[..|rows|] == rows;
    }
  }

  /** The session without the row of identity `id` (unchanged when there is none). */
  function RemoveId<D>(rows: seq<Entity<D>>, id: int): (r: seq<Entity<D>>)
    ensures IndexOfId(rows, id) < 0 ==> r == rows
    ensures IndexOfId(rows, id) >= 0 ==>
      |r| == |rows| - 1 && multiset(r) + multiset{rows[IndexOfId(rows, id)]} == multiset(rows)
  {
    var i := IndexOfId(rows, id);
    if i < 0 then rows
    else
      assert rows == rows[..i] + [rows[i]] + rows[i + 1..];
      rows[..i] + rows[i + 1..]
  }

  /** Removing a row from a valid table keeps it valid and leaves no row with that id. */
  lemma RemoveIdValid<D>(rows: seq<Entity<D>>, nextId: int, id: int)
    requires ValidRows(rows, nextId)
    ensures ValidRows(RemoveId(rows, id), nextId)
    ensures forall j | 0 <= j < |RemoveId(rows, id)| :: RemoveId(rows, id)[j].id != id
  {
    var i := IndexOfId(rows, id);
    if i >= 0 {
      ValidRowsWellFormed(rows, nextId);
      var r := RemoveId(rows, id);
      RemoveAtWellFormed(rows, nextId, i, r);
      WellFormedValidRows(r, nextId);
    }
  }

  /** Dropping the row at `i` from a well-formed table keeps it well formed,
      and no other row has its id. */
  lemma RemoveAtWellFormed<D>(rows: seq<Entity<D>>, nextId: int, i: int, r: seq<Entity<D>>)
    requires WellFormed(rows, nextId) && 0 <= i < |rows| && r == rows[..i] + rows[i + 1..]
    ensures WellFormed(r, nextId)
    ensures forall j | 0 <= j < |r| :: r[j].id != rows[i].id
  {
    forall j | 0 <= j < |r|
      ensures r[j] == rows[if j < i then j else j + 1]
    {
    }
    forall a, b | 0 <= a < b < |r|
      ensures r[a].id < r[b].id
    {
      assert rows[if a < i then a else a + 1].id < rows[if b < i then b else b + 1].id;
    }
    forall j | 0 <= j < |r|
      ensures 1 <= r[j].id < nextId && r[j].id != rows[i].id
    {
      var j' := if j < i then j else j + 1;
      assert r[j] == rows[j'] && j' != i;
    }
  }

  /** The data after every callback's `beforeSave`, in resolution order. */
  function ApplyBeforeSave<D>(callbacks: seq<SaveCallback<D>>, d: D): D
  {
    if |callbacks| == 0 then d
    else callbacks[|callbacks| - 1].beforeSave(ApplyBeforeSave(callbacks[..|callbacks| - 1], d))
  }

  /** The data a save stores: the callbacks' changes, then the update action. */
  function Prepared<D>(callbacks: seq<SaveCallback<D>>, update: Option<D -> D>, d: D): D
  {
    var before := ApplyBeforeSave(callbacks, d);
    if update.Some? then update.value(before) else before
  }

  /** The names of the save callbacks, in resolution order. */
  function Names<D>(callbacks: seq<SaveCallback<D>>): (r: seq<string>)
    ensures |r| == |callbacks| && forall i | 0 <= i < |r| :: r[i] == callbacks[i].name
  {
    seq(|callbacks|, i requires 0 <= i < |callbacks| => callbacks[i].name)
  }

  /** One call of `hook` per callback, in order. */
  function EachCallback(hook: Hook, callbacks: seq<string>, id: int): (r: seq<Event>)
    ensures |r| == |callbacks|
    ensures forall i | 0 <= i < |callbacks| :: r[i] == Called(hook, callbacks[i], id)
  {
    if |callbacks| == 0 then []
    else EachCallback(hook, callbacks[..|callbacks| - 1], id) + [Called(hook, callbacks[|callbacks| - 1], id)]
  }

  /** The events of one save: every BeforeSave in order, the write, every AfterSave in order. */
  function SaveEvents(callbacks: seq<string>, id: int, savedId: int): seq<Event>
  {
    EachCallback(BeforeSave, callbacks, id) + [Persist(savedId)] + EachCallback(AfterSave, callbacks, savedId)
  }

  /** The events of one delete. */
  function DeleteEvents(callbacks: seq<string>, id: int): seq<Event>
  {
    EachCallback(BeforeDelete, callbacks, id) + [Removed(id)] + EachCallback(AfterDelete, callbacks, id)
  }

  /** A save's events appended to a log, piece by piece. */
  lemma SaveEventsAppend(log0: seq<Event>, callbacks: seq<string>, id: int, savedId: int)
    ensures log0 + EachCallback(BeforeSave, callbacks, id) + [Persist(savedId)] + EachCallback(AfterSave, callbacks, savedId)
      == log0 + SaveEvents(callbacks, id, savedId)
  {
  }

  /** A delete's events appended to a log, piece by piece. */
  lemma DeleteEventsAppend(log0: seq<Event>, callbacks: seq<string>, id: int)
    ensures log0 + EachCallback(BeforeDelete, callbacks, id) + [Removed(id)] + EachCallback(AfterDelete, callbacks, id)
      == log0 + DeleteEvents(callbacks, id)
  {
  }

  /** Each callback is called exactly once before and once after the write. */
  lemma SaveEventsShape(callbacks: seq<string>, id: int, savedId: int)
    ensures var r := SaveEvents(callbacks, id, savedId);
      |r| == 2 * |callbacks| + 1 && r[|callbacks|] == Persist(savedId) &&
      forall i | 0 <= i < |callbacks| ::
        r[i] == Called(BeforeSave, callbacks[i], id) && r[|callbacks| + 1 + i] == Called(AfterSave, callbacks[i], savedId)
  {
  }

  lemma DeleteEventsShape(callbacks: seq<string>, id: int)
    ensures var r := DeleteEvents(callbacks, id);
      |r| == 2 * |callbacks| + 1 && r[|callbacks|] == Removed(id) &&
      forall i | 0 <= i < |callbacks| ::
        r[i] == Called(BeforeDelete, callbacks[i], id) && r[|callbacks| + 1 + i] == Called(AfterDelete, callbacks[i], id)
  {
  }

  /** `Get`: the first row (in id order) whose data satisfies `pred`. */
  function FirstMatch<D>(rows: seq<Entity<D>>, pred: D -> bool): (r: Option<Entity<D>>)
    ensures r.None? <==> forall j | 0 <= j < |rows| :: !pred(rows[j].data)
    ensures r.Some? ==> r.value in rows && pred(r.value.data)
  {
    if |rows| == 0 then None
    else if pred(rows[0].data) then Some(rows[0])
    else
      var r := FirstMatch(rows[1..], pred);
      assert forall j | 1 <= j < |rows| :: rows[j] == rows[1..][j - 1];
      r
  }

  /** `Count`: how many rows satisfy `pred`. */
  function CountMatching<D>(rows: seq<Entity<D>>, pred: D -> bool): (n: nat)
    ensures n <= |rows|
  {
    if |rows| == 0 then 0
    else CountMatching(rows[..|rows| - 1], pred) + (if pred(rows[|rows| - 1].data) then 1 else 0)
  }

  /** The rows that do not satisfy `pred`, in order. */
  function Unmatched<D>(rows: seq<Entity<D>>, pred: D -> bool): (r: seq<Entity<D>>)
    ensures forall j | 0 <= j < |r| :: !pred(r[j].data)
  {
    if |rows| == 0 then []
    else
      var front := Unmatched(rows[..|rows| - 1], pred);
      if pred(rows[|rows| - 1].data) then front else front + [rows[|rows| - 1]]
  }

  /** A bulk delete only keeps rows of the table. */
  lemma {:induction false} UnmatchedKeepsRows<D>(rows: seq<Entity<D>>, pred: D -> bool)
    ensures forall j | 0 <= j < |Unmatched(rows, pred)| :: Unmatched(rows, pred)[j] in rows
  {
    if |rows| > 0 {
      UnmatchedKeepsRows(rows[..|rows| - 1], pred);
      assert forall e | e in rows[..|rows| - 1] :: e in rows;
    }
  }

  /** A bulk delete keeps every row that does not match. */
  lemma {:induction false} UnmatchedKeepsNonMatching<D>(rows: seq<Entity<D>>, pred: D -> bool)
    ensures forall j | 0 <= j < |rows| && !pred(rows[j].data) :: rows[j] in Unmatched(rows, pred)
  {
    if |rows| > 0 {
      var front := rows[..|rows| - 1];
      UnmatchedKeepsNonMatching(front, pred);
      forall j | 0 <= j < |rows| - 1 && !pred(rows[j].data)
        ensures rows[j] in Unmatched(rows, pred)
      {
        assert front[j] == rows[j];
      }
    }
  }

  /** A bulk delete keeps the order of the rows: it works piece by piece. */
  lemma {:induction false} UnmatchedAppend<D>(a: seq<Entity<D>>, b: seq<Entity<D>>, pred: D -> bool)
    ensures Unmatched(a + b, pred) == Unmatched(a, pred) + Unmatched(b, pred)
    decreases |b|
  {
    if |b| == 0 {
      assert a + b == a;
    } else {
      var b' := b[..|b| - 1];
      assert (a + b)[..|a + b| - 1] == a + b';
      UnmatchedAppend(a, b', pred);
    }
  }

  /** A row as `UpdateWhere` leaves it. */
  function UpdatedRow<D>(row: Entity<D>, pred: D -> bool, callbacks: seq<SaveCallback<D>>, update: D -> D): Entity<D>
  {
    if pred(row.data) then Entity(row.id, Prepared(callbacks, Some(update), row.data)) else row
  }

  /** The rows after `UpdateWhere`: every row satisfying `pred` holds the
      prepared data, the others are untouched; ids and order stay. */
  function UpdatedRows<D>(rows: seq<Entity<D>>, pred: D -> bool, callbacks: seq<SaveCallback<D>>, update: D -> D)
    : (r: seq<Entity<D>>)
    ensures |r| == |rows|
    ensures forall j | 0 <= j < |r| :: r[j].id == rows[j].id
    ensures forall j | 0 <= j < |r| && !pred(rows[j].data) :: r[j] == rows[j]
    ensures forall j | 0 <= j < |r| && pred(rows[j].data) :: r[j].data == Prepared(callbacks, Some(update), rows[j].data)
  {
    if |rows| == 0 then []
    else
      var front := rows[..|rows| - 1];
      UpdatedRows(front, pred, callbacks, update) + [UpdatedRow(rows[|rows| - 1], pred, callbacks, update)]
  }

  /** The log of a bulk save over `rows`: one save's events per matching row. */
  function UpdateWhereEvents<D>(rows: seq<Entity<D>>, pred: D -> bool, callbacks: seq<SaveCallback<D>>): seq<Event>
  {
    if |rows| == 0 then []
    else
      var last := rows[|rows| - 1];
      UpdateWhereEvents(rows[..|rows| - 1], pred, callbacks)
      + (if pred(last.data) then SaveEvents(Names(callbacks), last.id, last.id) else [])
  }

  /** The log of a bulk delete over `rows`. */
  function DeleteWhereEvents<D>(rows: seq<Entity<D>>, pred: D -> bool, callbacks: seq<string>): seq<Event>
  {
    if |rows| == 0 then []
    else
      var last := rows[|rows| - 1];
      DeleteWhereEvents(rows[..|rows| - 1], pred, callbacks)
      + (if pred(last.data) then DeleteEvents(callbacks, last.id) else [])
  }

  /** Every row is counted exactly once: as matching or as kept. */
  lemma {:induction false} CountPlusUnmatched<D>(rows: seq<Entity<D>>, pred: D -> bool)
    ensures CountMatching(rows, pred) + |Unmatched(rows, pred)| == |rows|
  {
    if |rows| > 0 {
      CountPlusUnmatched(rows[..|rows| - 1], pred);
    }
  }

  /** A table of rows none of which match counts zero matches. */
  lemma {:induction false} NoneMatchCountsZero<D>(rows: seq<Entity<D>>, pred: D -> bool)
    requires forall j | 0 <= j < |rows| :: !pred(rows[j].data)
    ensures CountMatching(rows, pred) == 0
  {
    if |rows| > 0 {
      NoneMatchCountsZero(rows[..|rows| - 1], pred);
    }
  }

  /** No matching row survives a bulk delete: `Get` with the same predicate is null and `Count` is 0. */
  lemma NothingMatchesAfterDeleteWhere<D>(rows: seq<Entity<D>>, pred: D -> bool)
    ensures FirstMatch(Unmatched(rows, pred), pred) == None
    ensures CountMatching(Unmatched(rows, pred), pred) == 0
  {
    NoneMatchCountsZero(Unmatched(rows, pred), pred);
  }

  /** A bulk delete keeps exactly the rows that do not match: their number is
      the table size less the deleted count. */
  lemma BulkDeleteCount<D>(rows: seq<Entity<D>>, pred: D -> bool)
    ensures |Unmatched(rows, pred)| == |rows| - CountMatching(rows, pred)
  {
    CountPlusUnmatched(rows, pred);
  }

  /** A bulk update leaves exactly the rows that already satisfy `pred` changed. */
  lemma UpdateWhereTouchesOnlyMatches<D>(rows: seq<Entity<D>>, pred: D -> bool, callbacks: seq<SaveCallback<D>>,
                                         update: D -> D, j: int)
    requires 0 <= j < |rows|
    requires UpdatedRows(rows, pred, callbacks, update)[j] != rows[j]
    ensures pred(rows[j].data)
  {
  }

  /** A save of a row already in the session updates it in place and adds none. */
  lemma SaveOfExistingIsNoInsert<D>(rows: seq<Entity<D>>, nextId: int, i: int, d: D)
    requires ValidRows(rows, nextId) && 0 <= i < |rows|
    ensures var r := Merge(rows, nextId, Entity(rows[i].id, d));
      r.0 == rows[i := Entity(rows[i].id, d)] && r.2 == nextId
  {
    ValidRowsWellFormed(rows, nextId);
    IndexOfIdAt(rows, i);
  }

  /** A save of a new object adds exactly one row, found by its new id. */
  lemma SaveOfNewInserts<D>(rows: seq<Entity<D>>, nextId: int, d: D)
    requires ValidRows(rows, nextId)
    ensures var r := Merge(rows, nextId, Entity(0, d));
      |r.0| == |rows| + 1 && r.1.id == nextId && IndexOfId(r.0, r.1.id) == |rows| && r.0[|rows|].data == d
  {
    ValidRowsWellFormed(rows, nextId);
    var r := Merge(rows, nextId, Entity(0, d));
    IndexOfIdAt(r.0, |rows|);
  }

  /** One step of the bulk update: saving the i-th row extends the updated prefix. */
  lemma UpdateStep<D>(all: seq<Entity<D>>, i: int, pred: D -> bool, callbacks: seq<SaveCallback<D>>, update: D -> D,
                      nextId: int)
    requires ValidRows(all, nextId) && 0 <= i < |all|
    ensures var rows := UpdatedRows(all[..i], pred, callbacks, update) + all[i..];
      var m := Merge(rows, nextId, Entity(all[i].id, Prepared(callbacks, Some(update), all[i].data)));
      ValidRows(rows, nextId) && m.1.id == all[i].id && m.2 == nextId &&
      UpdatedRows(all[..i + 1], pred, callbacks, update) + all[i + 1..] == if pred(all[i].data) then m.0 else rows
  {
    var rows := UpdatedRows(all[..i], pred, callbacks, update) + all[i..];
    UpdatePrefixValid(all, i, pred, callbacks, update, nextId);
    ValidRowsWellFormed(rows, nextId);
    assert rows[i] == all[i];
    IndexOfIdAt(rows, i);
    UpdateStepShape(all, i, pred, callbacks, update);
  }

  /** Updating the i-th row of the partly updated table gives the table updated one row further. */
  lemma UpdateStepShape<D>(all: seq<Entity<D>>, i: int, pred: D -> bool, callbacks: seq<SaveCallback<D>>, update: D -> D)
    requires 0 <= i < |all|
    ensures var rows := UpdatedRows(all[..i], pred, callbacks, update) + all[i..];
      UpdatedRows(all[..i + 1], pred, callbacks, update) + all[i + 1..] ==
        rows[i := UpdatedRow(all[i], pred, callbacks, update)]
  {
    var done := UpdatedRows(all[..i], pred, callbacks, update);
    var rows := done + all[i..];
    assert all[..i + 1][..i] == all[..i];
    var next := UpdatedRows(all[..i + 1], pred, callbacks, update) + all[i + 1..];
    assert UpdatedRows(all[..i + 1], pred, callbacks, update) == done + [UpdatedRow(all[i], pred, callbacks, update)];
    forall j | 0 <= j < |rows|
      ensures next[j] == rows[i := UpdatedRow(all[i], pred, callbacks, update)][j]
    {
      if j > i {
        assert next[j] == all[j] && rows[j] == all[j];
      }
    }
  }

  /** Part way through a bulk update the session is still a valid table. */
  lemma UpdatePrefixValid<D>(all: seq<Entity<D>>, i: int, pred: D -> bool, callbacks: seq<SaveCallback<D>>,
                             update: D -> D, nextId: int)
    requires ValidRows(all, nextId) && 0 <= i <= |all|
    ensures ValidRows(UpdatedRows(all[..i], pred, callbacks, update) + all[i..], nextId)
  {
    var rows := UpdatedRows(all[..i], pred, callbacks, update) + all[i..];
    forall j | 0 <= j < |all|
      ensures rows[j].id == all[j].id
    {
      if j >= i {
        assert rows[j] == all[j];
      }
    }
    SameIdsValid(all, rows, nextId);
  }

  /** A bulk update of a valid table is a valid table. */
  lemma UpdatedRowsValid<D>(rows: seq<Entity<D>>, pred: D -> bool, callbacks: seq<SaveCallback<D>>, update: D -> D,
                            nextId: int)
    requires ValidRows(rows, nextId)
    ensures ValidRows(UpdatedRows(rows, pred, callbacks, update), nextId)
  {
    SameIdsValid(rows, UpdatedRows(rows, pred, callbacks, update), nextId);
  }

  /** A bulk delete keeps the ids ascending, and each kept row was in the table. */
  lemma {:induction false} UnmatchedAscending<D>(rows: seq<Entity<D>>, pred: D -> bool)
    requires Ascending(rows)
    ensures Ascending(Unmatched(rows, pred))
  {
    if |rows| > 0 {
      var front := rows[..|rows| - 1];
      UnmatchedAscending(front, pred);
      UnmatchedKeepsRows(front, pred);
      var u := Unmatched(front, pred);
      forall j | 0 <= j < |u|
        ensures u[j].id < rows[|rows| - 1].id
      {
        var k :| 0 <= k < |front| && front[k] == u[j];
      }
    }
  }

  /** Counting one more row adds one exactly when it matches. */
  lemma CountStep<D>(all: seq<Entity<D>>, i: int, pred: D -> bool)
    requires 0 <= i < |all|
    ensures CountMatching(all[..i + 1], pred) == CountMatching(all[..i], pred) + if pred(all[i].data) then 1 else 0
  {
    assert all[..i + 1][..i] == all[..i];
  }

  /** The bulk-save log over one more row gains that row's save events when it matches. */
  lemma UpdateEventsStep<D>(log0: seq<Event>, all: seq<Entity<D>>, i: int, pred: D -> bool, callbacks: seq<SaveCallback<D>>)
    requires 0 <= i < |all|
    ensures log0 + UpdateWhereEvents(all[..i + 1], pred, callbacks) ==
      log0 + UpdateWhereEvents(all[..i], pred, callbacks) +
      if pred(all[i].data) then SaveEvents(Names(callbacks), all[i].id, all[i].id) else []
  {
    assert all[..i + 1][..i] == all[..i];
  }

  /** The bulk-delete log over one more row gains that row's delete events when it matches. */
  lemma DeleteEventsStep<D>(log0: seq<Event>, all: seq<Entity<D>>, i: int, pred: D -> bool, callbacks: seq<string>)
    requires 0 <= i < |all|
    ensures log0 + DeleteWhereEvents(all[..i + 1], pred, callbacks) ==
      log0 + DeleteWhereEvents(all[..i], pred, callbacks) + if pred(all[i].data) then DeleteEvents(callbacks, all[i].id) else []
  {
    assert all[..i + 1][..i] == all[..i];
  }

  /** What a bulk delete keeps of a valid table is a valid table. */
  lemma UnmatchedValid<D>(rows: seq<Entity<D>>, pred: D -> bool, nextId: int)
    requires ValidRows(rows, nextId)
    ensures ValidRows(Unmatched(rows, pred), nextId)
  {
    ValidRowsWellFormed(rows, nextId);
    UnmatchedAscending(rows, pred);
    UnmatchedKeepsRows(rows, pred);
    WellFormedValidRows(Unmatched(rows, pred), nextId);
  }

  /** Part way through a bulk delete the session is still a valid table. */
  lemma DeleteStepValid<D>(all: seq<Entity<D>>, i: int, pred: D -> bool, nextId: int)
    requires ValidRows(all, nextId) && 0 <= i < |all|
    ensures ValidRows(Unmatched(all[..i], pred) + all[i..], nextId)
  {
    ValidRowsWellFormed(all, nextId);
    var kept := Unmatched(all[..i], pred);
    UnmatchedAscending(all[..i], pred);
    UnmatchedKeepsRows(all[..i], pred);
    forall j | 0 <= j < |kept|
      ensures 1 <= kept[j].id < all[i].id
    {
      var k :| 0 <= k < i && all[..i][k] == kept[j];
    }
    ConcatAscending(kept, all[i..]);
    WellFormedValidRows(kept + all[i..], nextId);
  }

  /** One step of the bulk delete: the kept prefix grows by the i-th row
      when it does not match, and deleting it when it matches leaves the
      kept prefix followed by the rest. */
  lemma DeleteStep<D>(all: seq<Entity<D>>, i: int, pred: D -> bool, nextId: int)
    requires ValidRows(all, nextId) && 0 <= i < |all|
    ensures var kept := Unmatched(all[..i], pred);
      ValidRows(kept + all[i..], nextId) &&
      Unmatched(all[..i + 1], pred) + all[i + 1..] ==
        if pred(all[i].data) then RemoveId(kept + all[i..], all[i].id) else kept + all[i..]
  {
    var kept := Unmatched(all[..i], pred);
    var rows := kept + all[i..];
    DeleteStepValid(all, i, pred, nextId);
    assert all[..i + 1][..i] == all[..i];
    assert rows[|kept|] == all[i];
    if pred(all[i].data) {
      ValidRowsWellFormed(rows, nextId);
      IndexOfIdAt(rows, |kept|);
      assert rows[..|kept|] == kept;
      assert rows[|kept| + 1..] == all[i + 1..];
    } else {
      assert kept + [all[i]] + all[i + 1..] == rows;
    }
  }

  /** The committed table: what other contexts see. */
  class Store<D> {
    var rows: seq<Entity<D>>
    var nextId: int

    constructor ()
      ensures rows == [] && nextId == 1
    {
      rows := [];
      nextId := 1;
    }
  }

  class DatabaseContext<D> {
    /** Where `SaveChanges` commits to. */
    const store: Store<D>
    /** The registered save and delete callbacks, in resolution order. */
    const saveCallbacks: seq<SaveCallback<D>>
    const deleteCallbacks: seq<string>
    /** The session's view of the table and its id counter. */
    var rows: seq<Entity<D>>
    var nextId: int
    /** Every callback invocation and session write so far. */
    var log: seq<Event>
    /** Set by `Dispose`: the session and its transaction are gone, and no
        operation may use them. */
    var disposed: bool
    /** Set by `SaveChanges`: the one transaction begun with the session is committed. */
    var committed: bool

    ghost predicate Valid()
      reads this
    {
      ValidRows(rows, nextId)
    }

    /** Opens a session on `store` (and begins its transaction). */
    constructor (store: Store<D>, saveCallbacks: seq<SaveCallback<D>>, deleteCallbacks: seq<string>)
      requires ValidRows(store.rows, store.nextId)
      ensures Valid()
      ensures this.store == store && this.saveCallbacks == saveCallbacks && this.deleteCallbacks == deleteCallbacks
      ensures rows == store.rows && nextId == store.nextId && log == [] && !disposed && !committed
    {
      this.store := store;
      this.saveCallbacks := saveCallbacks;
      this.deleteCallbacks := deleteCallbacks;
      rows := store.rows;
      nextId := store.nextId;
      log := [];
      disposed := false;
      committed := false;
    }

    /** Ends the session; the store keeps only what was committed. */
    method Dispose()
      modifies this
      ensures disposed && rows == old(rows) && nextId == old(nextId) && log == old(log)
      ensures committed == old(committed)
    {
      disposed := true;
    }

    method Get(pred: D -> bool) returns (r: Option<Entity<D>>)
      requires !disposed
      ensures r == FirstMatch(rows, pred)
    {
      r := FirstMatch(rows, pred);
    }

    method Count(pred: D -> bool) returns (n: int)
      requires !disposed
      ensures n == CountMatching(rows, pred)
    {
      n := CountMatching(rows, pred);
    }

    /** Appends one event per callback, in order. */
    method LogEach(hook: Hook, callbacks: seq<string>, id: int)
      modifies this
      ensures log == old(log) + EachCallback(hook, callbacks, id)
      ensures rows == old(rows) && nextId == old(nextId) && disposed == old(disposed) && committed == old(committed)
    {
      var i := 0;
      while i < |callbacks|
        invariant 0 <= i <= |callbacks|
        invariant log == old(log) + EachCallback(hook, callbacks[..i], id)
        invariant rows == old(rows) && nextId == old(nextId) && disposed == old(disposed) && committed == old(committed)
      {
        assert callbacks[..i + 1][..i] == callbacks[..i];
        log := log + [Called(hook, callbacks[i], id)];
        i := i + 1;
      }
      assert callbacks[..i] == callbacks;
    }

    /** Hands `d` to every save callback's `beforeSave`, in order. */
    method RunBeforeSave(d: D) returns (d': D)
      ensures d' == ApplyBeforeSave(saveCallbacks, d)
    {
      d' := d;
      var i := 0;
      while i < |saveCallbacks|
        invariant 0 <= i <= |saveCallbacks|
        invariant d' == ApplyBeforeSave(saveCallbacks[..i], d)
      {
        assert saveCallbacks[..i + 1][..i] == saveCallbacks[..i];
        d' := saveCallbacks[i].beforeSave(d');
        i := i + 1;
      }
      assert saveCallbacks[..i] == saveCallbacks;
    }

    /** Runs every BeforeSave, then `update`, merges the data into the
        session, runs every AfterSave, and returns the stored instance. */
    method Save(data: Entity<D>, update: Option<D -> D>) returns (saved: Entity<D>)
      requires Valid() && !disposed
      modifies this
      ensures Valid()
      ensures var m := Merge(old(rows), old(nextId), Entity(data.id, Prepared(saveCallbacks, update, data.data)));
        rows == m.0 && saved == m.1 && nextId == m.2
      ensures log == old(log) + SaveEvents(Names(saveCallbacks), data.id, saved.id)
      ensures disposed == old(disposed) && committed == old(committed)
    {
      LogEach(BeforeSave, Names(saveCallbacks), data.id);
      var d := RunBeforeSave(data.data);
      if update.Some? {
        d := update.value(d);
      }
      saved := MergeIntoSession(Entity(data.id, d));
      LogEach(AfterSave, Names(saveCallbacks), saved.id);
      SaveEventsAppend(old(log), Names(saveCallbacks), data.id, saved.id);
    }

    /** The write step of a save: merges `e` into the session and logs it. */
    method MergeIntoSession(e: Entity<D>) returns (saved: Entity<D>)
      requires Valid()
      modifies this
      ensures Valid()
      ensures var m := Merge(old(rows), old(nextId), e);
        rows == m.0 && saved == m.1 && nextId == m.2
      ensures log == old(log) + [Persist(saved.id)]
      ensures disposed == old(disposed) && committed == old(committed)
    {
      MergeValid(rows, nextId, e);
      var m := Merge(rows, nextId, e);
      rows, saved, nextId := m.0, m.1, m.2;
      log := log + [Persist(saved.id)];
    }

    /** Runs every BeforeDelete, removes the row from the session, runs every AfterDelete. */
    method Delete(data: Entity<D>)
      requires Valid() && !disposed
      modifies this
      ensures Valid()
      ensures rows == RemoveId(old(rows), data.id) && nextId == old(nextId)
      ensures log == old(log) + DeleteEvents(deleteCallbacks, data.id)
      ensures disposed == old(disposed) && committed == old(committed)
    {
      LogEach(BeforeDelete, deleteCallbacks, data.id);
      RemoveIdValid(rows, nextId, data.id);
      rows := RemoveId(rows, data.id);
      log := log + [Removed(data.id)];
      LogEach(AfterDelete, deleteCallbacks, data.id);
      DeleteEventsAppend(old(log), deleteCallbacks, data.id);
    }

    /** One turn of `UpdateWhere`'s loop: saves `row` with `update` when it matches. */
    method UpdateIfMatches(row: Entity<D>, pred: D -> bool, update: D -> D) returns (updated: bool)
      requires Valid() && !disposed
      modifies this
      ensures Valid()
      ensures updated == pred(row.data)
      ensures var m := Merge(old(rows), old(nextId), Entity(row.id, Prepared(saveCallbacks, Some(update), row.data)));
        rows == (if updated then m.0 else old(rows)) && nextId == (if updated then m.2 else old(nextId)) &&
        log == old(log) + if updated then SaveEvents(Names(saveCallbacks), row.id, m.1.id) else []
      ensures disposed == old(disposed) && committed == old(committed)
    {
      updated := pred(row.data);
      if updated {
        var _ := Save(row, Some(update));
      } else {
        assert log + [] == log;
      }
    }

    /** One turn of `UpdateWhere`'s loop, from the loop invariant at `i` to the one at `i + 1`. */
    method UpdateWhereStep(all: seq<Entity<D>>, i: int, pred: D -> bool, update: D -> D, count: int,
                           ghost log0: seq<Event>)
      returns (count': int)
      requires ValidRows(all, nextId) && 0 <= i < |all| && !disposed
      requires rows == UpdatedRows(all[..i], pred, saveCallbacks, update) + all[i..]
      requires count == CountMatching(all[..i], pred)
      requires log == log0 + UpdateWhereEvents(all[..i], pred, saveCallbacks)
      modifies this
      ensures nextId == old(nextId) && disposed == old(disposed) && committed == old(committed)
      ensures rows == UpdatedRows(all[..i + 1], pred, saveCallbacks, update) + all[i + 1..]
      ensures count' == CountMatching(all[..i + 1], pred)
      ensures log == log0 + UpdateWhereEvents(all[..i + 1], pred, saveCallbacks)
    {
      UpdateStep(all, i, pred, saveCallbacks, update, nextId);
      CountStep(all, i, pred);
      UpdateEventsStep(log0, all, i, pred, saveCallbacks);
      var updated := UpdateIfMatches(all[i], pred, update);
      count' := if updated then count + 1 else count;
    }

    /** Saves every row satisfying `pred` with `update`; returns how many. */
    method UpdateWhere(pred: D -> bool, update: D -> D) returns (count: int)
      requires Valid() && !disposed
      modifies this
      ensures Valid()
      ensures rows == UpdatedRows(old(rows), pred, saveCallbacks, update) && nextId == old(nextId)
      ensures count == CountMatching(old(rows), pred)
      ensures log == old(log) + UpdateWhereEvents(old(rows), pred, saveCallbacks)
      ensures disposed == old(disposed) && committed == old(committed)
    {
      var all := rows;
      ghost var n0 := nextId;
      ghost var log0 := log;
      count := 0;
      var i := 0;
      while i < |all|
        invariant 0 <= i <= |all|
        invariant nextId == n0 && disposed == old(disposed) && committed == old(committed)
        invariant rows == UpdatedRows(all[..i], pred, saveCallbacks, update) + all[i..]
        invariant count == CountMatching(all[..i], pred)
        invariant log == log0 + UpdateWhereEvents(all[..i], pred, saveCallbacks)
      {
        count := UpdateWhereStep(all, i, pred, update, count, log0);
        i := i + 1;
      }
      assert all[..i] == all && all[i..] == [];
      assert rows == UpdatedRows(all, pred, saveCallbacks, update);
      UpdatedRowsValid(all, pred, saveCallbacks, update, n0);
    }

    /** One turn of `DeleteWhere`'s loop: deletes `row` when it matches. */
    method DeleteIfMatches(row: Entity<D>, pred: D -> bool) returns (deleted: bool)
      requires Valid() && !disposed
      modifies this
      ensures Valid()
      ensures deleted == pred(row.data)
      ensures rows == if deleted then RemoveId(old(rows), row.id) else old(rows)
      ensures log == old(log) + if deleted then DeleteEvents(deleteCallbacks, row.id) else []
      ensures nextId == old(nextId) && disposed == old(disposed) && committed == old(committed)
    {
      deleted := pred(row.data);
      if deleted {
        Delete(row);
      } else {
        assert log + [] == log;
      }
    }

    /** One turn of `DeleteWhere`'s loop, from the loop invariant at `i` to the one at `i + 1`. */
    method DeleteWhereStep(all: seq<Entity<D>>, i: int, pred: D -> bool, count: int, ghost log0: seq<Event>)
      returns (count': int)
      requires ValidRows(all, nextId) && 0 <= i < |all| && !disposed
      requires rows == Unmatched(all[..i], pred) + all[i..]
      requires count == CountMatching(all[..i], pred)
      requires log == log0 + DeleteWhereEvents(all[..i], pred, deleteCallbacks)
      modifies this
      ensures nextId == old(nextId) && disposed == old(disposed) && committed == old(committed)
      ensures rows == Unmatched(all[..i + 1], pred) + all[i + 1..]
      ensures count' == CountMatching(all[..i + 1], pred)
      ensures log == log0 + DeleteWhereEvents(all[..i + 1], pred, deleteCallbacks)
    {
      DeleteStep(all, i, pred, nextId);
      CountStep(all, i, pred);
      DeleteEventsStep(log0, all, i, pred, deleteCallbacks);
      var deleted := DeleteIfMatches(all[i], pred);
      count' := if deleted then count + 1 else count;
    }

    /** Deletes every row satisfying `pred`; returns how many. */
    method DeleteWhere(pred: D -> bool) returns (count: int)
      requires Valid() && !disposed
      modifies this
      ensures Valid()
      ensures rows == Unmatched(old(rows), pred) && nextId == old(nextId)
      ensures count == CountMatching(old(rows), pred)
      ensures log == old(log) + DeleteWhereEvents(old(rows), pred, deleteCallbacks)
      ensures disposed == old(disposed) && committed == old(committed)
    {
      var all := rows;
      ghost var n0 := nextId;
      ghost var log0 := log;
      count := 0;
      var i := 0;
      while i < |all|
        invariant 0 <= i <= |all|
        invariant nextId == n0 && disposed == old(disposed) && committed == old(committed)
        invariant rows == Unmatched(all[..i], pred) + all[i..]
        invariant count == CountMatching(all[..i], pred)
        invariant log == log0 + DeleteWhereEvents(all[..i], pred, deleteCallbacks)
      {
        count := DeleteWhereStep(all, i, pred, count, log0);
        i := i + 1;
      }
      assert all[..i] == all && all[i..] == [];
      assert rows == Unmatched(all, pred);
      UnmatchedValid(all, pred, n0);
    }

    /** Commits the session to the store: flushes, then commits the
        transaction begun with the session, which can be done once. */
    method SaveChanges()
      requires Valid() && !disposed && !committed
      modifies this, store
      ensures committed && disposed == old(disposed)
      ensures rows == old(rows) && nextId == old(nextId) && log == old(log)
      ensures store.rows == rows && store.nextId == nextId
    {
      store.rows := rows;
      store.nextId := nextId;
      committed := true;
    }
  }
}
