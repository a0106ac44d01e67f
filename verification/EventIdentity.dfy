/**
 One event identity (api/notifications.py): every producer INSERT conflicts on it and does nothing,
 so a batch may be told again, by the same pass or by another worker, without telling anything twice.

 A row is an identity with the time it was inserted. `I` is the tuple of EVENT_IDENTITY's columns;
 NULLS NOT DISTINCT makes the index compare a NULL column as `==` compares None.
 */
module EventIdentity {

  datatype Row<+I> = Row(id: I, at: real)

  predicate Told<I(==)>(rows: seq<Row<I>>, id: I) {
    exists k :: 0 <= k < |rows| && rows[k].id == id
  }

  /** notification_dispatches_identity_uq. */
  ghost predicate Unique<I>(rows: seq<Row<I>>) {
    forall i, j :: 0 <= i < j < |rows| ==> rows[i].id != rows[j].id
  }

  /** ON CONFLICT DO NOTHING. */
  function Insert<I(==)>(rows: seq<Row<I>>, row: Row<I>): seq<Row<I>> {
    if Told(rows, row.id) then rows else rows + [row]
  }

  /** One producer statement: INSERT ... SELECT. */
  function InsertAll<I(==)>(rows: seq<Row<I>>, batch: seq<Row<I>>): seq<Row<I>> {
    if batch == [] then rows else Insert(InsertAll(rows, batch[..|batch| - 1]), batch[|batch| - 1])
  }

  lemma {:induction false} InsertAllTells<I>(rows: seq<Row<I>>, batch: seq<Row<I>>, id: I)
    ensures Told(InsertAll(rows, batch), id) <==> Told(rows, id) || Told(batch, id)
  {
    if batch != [] {
      var front, row := batch[..|batch| - 1], batch[|batch| - 1];
      InsertAllTells(rows, front, id);
      var was, now := InsertAll(rows, front), InsertAll(rows, batch);
      assert Told(batch, id) <==> Told(front, id) || row.id == id by {
        assert forall k :: 0 <= k < |front| ==> batch[k] == front[k];
      }
      assert Told(now, id) <==> Told(was, id) || row.id == id by {
        assert forall k :: 0 <= k < |was| ==> now[k] == was[k];
        assert !Told(was, row.id) ==> now[|was|] == row;
      }
    }
  }

  lemma {:induction false} InsertAllAppends<I>(rows: seq<Row<I>>, batch: seq<Row<I>>)
    requires Unique(rows)
    ensures Unique(InsertAll(rows, batch))
    ensures rows <= InsertAll(rows, batch)
  {
    if batch != [] {
      InsertAllAppends(rows, batch[..|batch| - 1]);
    }
  }

  /** A statement adds nothing exactly when everything it selects was told: a re-run, or a slower worker. */
  lemma NothingNewIffAllTold<I>(rows: seq<Row<I>>, batch: seq<Row<I>>)
    requires Unique(rows)
    ensures InsertAll(rows, batch) == rows <==> forall k :: 0 <= k < |batch| ==> Told(rows, batch[k].id)
  {
    var now := InsertAll(rows, batch);
    if now == rows {
      forall k | 0 <= k < |batch| ensures Told(rows, batch[k].id) {
        InsertAllTells(rows, batch, batch[k].id);
      }
    }
    if forall k :: 0 <= k < |batch| ==> Told(rows, batch[k].id) {
      AllToldAddsNothing(rows, batch);
    }
  }

  lemma {:induction false} AllToldAddsNothing<I>(rows: seq<Row<I>>, batch: seq<Row<I>>)
    requires forall k :: 0 <= k < |batch| ==> Told(rows, batch[k].id)
    ensures InsertAll(rows, batch) == rows
  {
    if batch != [] {
      AllToldAddsNothing(rows, batch[..|batch| - 1]);
    }
  }

  // ---- any number of passes and workers --------------------------------------------------------

  function Tell<I(==)>(rows: seq<Row<I>>, batches: seq<seq<Row<I>>>): seq<Row<I>> {
    if batches == [] then rows else InsertAll(Tell(rows, batches[..|batches| - 1]), batches[|batches| - 1])
  }

  lemma {:induction false} TellAppends<I>(rows: seq<Row<I>>, batches: seq<seq<Row<I>>>)
    requires Unique(rows)
    ensures Unique(Tell(rows, batches)) && rows <= Tell(rows, batches)
  {
    if batches != [] {
      var front := batches[..|batches| - 1];
      TellAppends(rows, front);
      InsertAllAppends(Tell(rows, front), batches[|batches| - 1]);
    }
  }

  ghost predicate Selected<I>(batches: seq<seq<Row<I>>>, id: I) {
    exists b :: 0 <= b < |batches| && Told(batches[b], id)
  }

  lemma {:induction false} TellsWhatWasSelected<I>(rows: seq<Row<I>>, batches: seq<seq<Row<I>>>, id: I)
    ensures Told(Tell(rows, batches), id) <==> Told(rows, id) || Selected(batches, id)
  {
    if batches != [] {
      var front, last := batches[..|batches| - 1], batches[|batches| - 1];
      TellsWhatWasSelected(rows, front, id);
      InsertAllTells(Tell(rows, front), last, id);
      assert Selected(batches, id) <==> Selected(front, id) || Told(last, id) by {
        assert forall b :: 0 <= b < |front| ==> batches[b] == front[b];
      }
    }
  }

  ghost function Ids<I(!new)>(rows: seq<Row<I>>): (s: set<I>)
    ensures forall id :: id in s <==> exists k :: 0 <= k < |rows| && rows[k].id == id
  {
    set k | 0 <= k < |rows| :: rows[k].id
  }

  lemma {:induction false} UniqueCount<I(!new)>(rows: seq<Row<I>>)
    requires Unique(rows)
    ensures |Ids(rows)| == |rows|
  {
    if rows != [] {
      var front, last := rows[..|rows| - 1], rows[|rows| - 1];
      assert forall k :: 0 <= k < |front| ==> front[k] == rows[k];
      UniqueCount(front);
      assert last.id !in Ids(front);
      assert Ids(rows) == Ids(front) + {last.id} by {
        forall id | id in Ids(rows) ensures id in Ids(front) + {last.id} {
          var k :| 0 <= k < |rows| && rows[k].id == id;
          if k < |front| { assert front[k].id == id; }
        }
        forall id | id in Ids(front) + {last.id} ensures id in Ids(rows) {
          if id == last.id { assert rows[|rows| - 1].id == id; }
        }
      }
    }
  }

  /** Two orders of the same work, from one worker or several, tell the same events, each once. */
  lemma OrderDoesNotMatter<I(!new)>(rows: seq<Row<I>>, xs: seq<seq<Row<I>>>, ys: seq<seq<Row<I>>>)
    requires Unique(rows)
    requires forall id :: Selected(xs, id) <==> Selected(ys, id)
    ensures Ids(Tell(rows, xs)) == Ids(Tell(rows, ys))
    ensures |Tell(rows, xs)| == |Tell(rows, ys)|
  {
    var a, b := Tell(rows, xs), Tell(rows, ys);
    forall id ensures id in Ids(a) <==> id in Ids(b) {
      TellsWhatWasSelected(rows, xs, id);
      TellsWhatWasSelected(rows, ys, id);
    }
    TellAppends(rows, xs);
    TellAppends(rows, ys);
    UniqueCount(a);
    UniqueCount(b);
  }
}
