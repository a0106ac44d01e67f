/**
 Keyset paging of the newest-first feeds (list_estimation_runs in api/estimation_runs.py, list_dispatches
 in api/notifications.py). A row is its sort key: a time in microseconds, what isoformat() keeps, and the
 id that breaks ties. Each fetch reads one statement's snapshot of the matching rows; between fetches rows
 come and go.
 */
module KeysetPaging {
  import opened Common

  datatype Key = Key(time: int, id: int)

  /** (a.time, a.id) < (b.time, b.id). */
  predicate Less(a: Key, b: Key) {
    a.time < b.time || (a.time == b.time && a.id < b.id)
  }

  ghost predicate Descending(rows: seq<Key>) {
    forall i, j :: 0 <= i < j < |rows| ==> Less(rows[j], rows[i])
  }

  lemma {:induction false} NewestExists(rows: set<Key>)
    requires rows != {}
    ensures exists top :: top in rows && forall k :: k in rows && k != top ==> Less(k, top)
  {
    var a := SomeElement(rows);
    var rest := rows - {a};
    if rest == {} {
      assert forall k :: k in rows ==> k == a || k in rest;
    } else {
      NewestExists(rest);
      var b :| b in rest && forall k :: k in rest && k != b ==> Less(k, b);
      var top := if Less(a, b) then b else a;
      assert forall k :: k in rows ==> k == a || k in rest;
      assert top in rows && forall k :: k in rows && k != top ==> Less(k, top);
    }
  }

  function Top(rows: set<Key>): (top: Key)
    requires rows != {}
    ensures top in rows && forall k :: k in rows && k != top ==> Less(k, top)
  {
    NewestExists(rows);
    var top :| top in rows && forall k :: k in rows && k != top ==> Less(k, top);
    top
  }

  /** ORDER BY time DESC, id DESC. */
  function Newest(rows: set<Key>): (list: seq<Key>)
    ensures Descending(list) && |list| == |rows|
    ensures forall k :: k in list <==> k in rows
    decreases |rows|
  {
    if rows == {} then [] else
      var top := Top(rows);
      [top] + Newest(rows - {top})
  }

  /** (time, id) < cursor; no cursor, no predicate. */
  function Below(rows: set<Key>, cursor: Option<Key>): set<Key> {
    if cursor.None? then rows else set k | k in rows && Less(k, cursor.value)
  }

  function Page(rows: set<Key>, cursor: Option<Key>, limit: nat): (page: seq<Key>)
    ensures Descending(page) && |page| <= limit
    ensures forall k :: k in page ==> k in Below(rows, cursor)
  {
    var list := Newest(Below(rows, cursor));
    if |list| <= limit then list else list[..limit]
  }

  /** A full page names its last row; a short page ends the feed. */
  function NextCursor(page: seq<Key>, limit: nat): Option<Key> {
    if |page| == limit && page != [] then Some(page[|page| - 1]) else None
  }

  /** One reader: page after page, each from the snapshot its fetch finds, until a page names no next. */
  function Pages(snapshots: seq<set<Key>>, cursor: Option<Key>, limit: nat): seq<seq<Key>> {
    if snapshots == [] then [] else
      var page := Page(snapshots[0], cursor, limit);
      var next := NextCursor(page, limit);
      [page] + (if next.None? then [] else Pages(snapshots[1..], next, limit))
  }

  function Flatten(pages: seq<seq<Key>>): seq<Key> {
    if pages == [] then [] else pages[0] + Flatten(pages[1..])
  }

  function Read(snapshots: seq<set<Key>>, cursor: Option<Key>, limit: nat): seq<Key> {
    Flatten(Pages(snapshots, cursor, limit))
  }

  /** The reader reached a page that names no next. */
  predicate Ended(snapshots: seq<set<Key>>, cursor: Option<Key>, limit: nat) {
    && snapshots != []
    && var next := NextCursor(Page(snapshots[0], cursor, limit), limit);
       next.None? || Ended(snapshots[1..], next, limit)
  }

  lemma ReadUnfolds(snapshots: seq<set<Key>>, cursor: Option<Key>, limit: nat)
    requires snapshots != []
    ensures var page := Page(snapshots[0], cursor, limit);
            var next := NextCursor(page, limit);
            Read(snapshots, cursor, limit) == page + (if next.None? then [] else Read(snapshots[1..], next, limit))
  {
    var page := Page(snapshots[0], cursor, limit);
    var next := NextCursor(page, limit);
    if next.None? {
      assert Flatten([page]) == page + Flatten([]);
    } else {
      var rest := Pages(snapshots[1..], next, limit);
      assert ([page] + rest)[1..] == rest;
    }
  }

  /** What a page holds: the rows below the cursor down to its last one, or all of them when it is short. */
  lemma PageHolds(rows: set<Key>, cursor: Option<Key>, limit: nat, k: Key)
    requires limit >= 1 && k in Below(rows, cursor)
    ensures var page := Page(rows, cursor, limit);
            k in page <==> NextCursor(page, limit).None? || !Less(k, NextCursor(page, limit).value)
  {}

  // ---- the seam --------------------------------------------------------------------------------

  lemma DescendingJoin(xs: seq<Key>, ys: seq<Key>)
    requires Descending(xs) && Descending(ys)
    requires xs != [] && forall k :: k in ys ==> Less(k, xs[|xs| - 1])
    ensures Descending(xs + ys)
  {
    forall i, j | 0 <= i < |xs| && 0 <= j < |ys| ensures Less(ys[j], xs[i]) {
      assert ys[j] in ys;
    }
  }

  /** Every page goes strictly down from the one before, whatever came or went: no row is read twice. */
  lemma {:induction false} NoRowTwice(snapshots: seq<set<Key>>, cursor: Option<Key>, limit: nat)
    ensures Descending(Read(snapshots, cursor, limit))
    ensures cursor.Some? ==> forall k :: k in Read(snapshots, cursor, limit) ==> Less(k, cursor.value)
    decreases |snapshots|
  {
    if snapshots != [] {
      ReadUnfolds(snapshots, cursor, limit);
      var page := Page(snapshots[0], cursor, limit);
      var next := NextCursor(page, limit);
      if next.Some? {
        NoRowTwice(snapshots[1..], next, limit);
        DescendingJoin(page, Read(snapshots[1..], next, limit));
        assert page[|page| - 1] in page;
      }
    }
  }

  /** A row that matched at every fetch is read by the time the reader ends. */
  lemma {:induction false} SteadyRowIsRead(snapshots: seq<set<Key>>, cursor: Option<Key>, limit: nat, k: Key)
    requires limit >= 1 && Ended(snapshots, cursor, limit)
    requires forall i :: 0 <= i < |snapshots| ==> k in Below(snapshots[i], cursor)
    ensures k in Read(snapshots, cursor, limit)
    decreases |snapshots|
  {
    ReadUnfolds(snapshots, cursor, limit);
    var page := Page(snapshots[0], cursor, limit);
    var next := NextCursor(page, limit);
    PageHolds(snapshots[0], cursor, limit, k);
    if k !in page {
      SteadyRowIsRead(snapshots[1..], next, limit, k);
    }
  }

  /** ... exactly once. */
  lemma SteadyRowReadOnce(snapshots: seq<set<Key>>, limit: nat, k: Key) returns (i: nat)
    requires limit >= 1 && Ended(snapshots, None, limit)
    requires forall s :: s in snapshots ==> k in s
    ensures i < |Read(snapshots, None, limit)| && Read(snapshots, None, limit)[i] == k
    ensures forall j :: 0 <= j < |Read(snapshots, None, limit)| && Read(snapshots, None, limit)[j] == k ==> j == i
  {
    SteadyRowIsRead(snapshots, None, limit, k);
    NoRowTwice(snapshots, None, limit);
    var list := Read(snapshots, None, limit);
    i :| 0 <= i < |list| && list[i] == k;
  }

  /** Only rows some fetch saw. */
  lemma {:induction false} ReadsOnlyRows(snapshots: seq<set<Key>>, cursor: Option<Key>, limit: nat, k: Key)
    requires k in Read(snapshots, cursor, limit)
    ensures exists i :: 0 <= i < |snapshots| && k in Below(snapshots[i], cursor)
    decreases |snapshots|
  {
    ReadUnfolds(snapshots, cursor, limit);
    var page := Page(snapshots[0], cursor, limit);
    var next := NextCursor(page, limit);
    if k in page {
      assert k in Below(snapshots[0], cursor);
    } else {
      ReadsOnlyRows(snapshots[1..], next, limit, k);
      var i :| 0 <= i < |snapshots[1..]| && k in Below(snapshots[1..][i], next);
      assert page[|page| - 1] in page && page[|page| - 1] in Below(snapshots[0], cursor);
      assert k in Below(snapshots[i + 1], cursor);
    }
  }

  // ---- termination -----------------------------------------------------------------------------

  lemma {:induction false} UnendedPagesAreFull(snapshots: seq<set<Key>>, cursor: Option<Key>, limit: nat)
    requires !Ended(snapshots, cursor, limit)
    ensures var pages := Pages(snapshots, cursor, limit);
            |pages| == |snapshots| && forall i :: 0 <= i < |pages| ==> |pages[i]| == limit
    decreases |snapshots|
  {
    if snapshots != [] {
      UnendedPagesAreFull(snapshots[1..], NextCursor(Page(snapshots[0], cursor, limit), limit), limit);
    }
  }

  lemma {:induction false} FullPagesFill(pages: seq<seq<Key>>, limit: nat)
    requires forall i :: 0 <= i < |pages| ==> |pages[i]| == limit
    ensures |Flatten(pages)| == |pages| * limit
  {
    if pages != [] {
      FullPagesFill(pages[1..], limit);
    }
  }

  lemma {:induction false} DescendingFits(rows: seq<Key>, universe: set<Key>)
    requires Descending(rows) && forall k :: k in rows ==> k in universe
    ensures |rows| <= |universe|
  {
    if rows != [] {
      DescendingFits(rows[1..], universe - {rows[0]});
    }
  }

  /** The reader ends once it has fetched more rows than ever matched below where it started. */
  lemma ReaderEnds(snapshots: seq<set<Key>>, cursor: Option<Key>, limit: nat, universe: set<Key>)
    requires forall i :: 0 <= i < |snapshots| ==> Below(snapshots[i], cursor) <= universe
    requires |snapshots| * limit > |universe|
    ensures Ended(snapshots, cursor, limit)
  {
    if !Ended(snapshots, cursor, limit) {
      UnendedPagesAreFull(snapshots, cursor, limit);
      FullPagesFill(Pages(snapshots, cursor, limit), limit);
      NoRowTwice(snapshots, cursor, limit);
      forall k | k in Read(snapshots, cursor, limit) ensures k in universe {
        ReadsOnlyRows(snapshots, cursor, limit, k);
      }
      DescendingFits(Read(snapshots, cursor, limit), universe);
    }
  }

  // ---- the whole list --------------------------------------------------------------------------

  lemma {:induction false} SameListByContent(xs: seq<Key>, ys: seq<Key>)
    requires Descending(xs) && Descending(ys) && forall k :: k in xs <==> k in ys
    ensures xs == ys
  {
    assert (ys != [] ==> ys[0] in xs) && (xs != [] ==> xs[0] in ys);
    if xs != [] {
      assert xs[0] == ys[0];
      forall k ensures k in xs[1..] <==> k in ys[1..] {
        assert k in xs <==> k == xs[0] || k in xs[1..];
        assert k in ys <==> k == ys[0] || k in ys[1..];
      }
      SameListByContent(xs[1..], ys[1..]);
    }
  }

  /** Snapshots that agree below the cursor give exactly the sorted list below it. */
  lemma AgreeingSnapshotsGiveTheList(snapshots: seq<set<Key>>, cursor: Option<Key>, limit: nat, rows: set<Key>)
    requires limit >= 1 && Ended(snapshots, cursor, limit)
    requires forall i :: 0 <= i < |snapshots| ==> Below(snapshots[i], cursor) == Below(rows, cursor)
    ensures Read(snapshots, cursor, limit) == Newest(Below(rows, cursor))
  {
    var list := Read(snapshots, cursor, limit);
    NoRowTwice(snapshots, cursor, limit);
    forall k ensures k in list <==> k in Newest(Below(rows, cursor)) {
      if k in list { ReadsOnlyRows(snapshots, cursor, limit, k); }
      if k in Below(rows, cursor) { SteadyRowIsRead(snapshots, cursor, limit, k); }
    }
    SameListByContent(list, Newest(Below(rows, cursor)));
  }

  /** `later` is `rows` with newer rows inserted. */
  ghost predicate GrewNewer(rows: set<Key>, later: set<Key>) {
    rows <= later && forall k, r :: k in later && k !in rows && r in rows ==> Less(r, k)
  }

  /**
   On a feed that only gains newer rows the concatenated pages are the sorted list the first fetch saw:
   with no inserts at all, the whole list.
   */
  lemma LiveInsertsDoNotShow(snapshots: seq<set<Key>>, limit: nat)
    requires limit >= 1 && Ended(snapshots, None, limit)
    requires forall i :: 0 <= i < |snapshots| ==> GrewNewer(snapshots[0], snapshots[i])
    ensures Read(snapshots, None, limit) == Newest(snapshots[0])
  {
    var rows := snapshots[0];
    ReadUnfolds(snapshots, None, limit);
    NoRowTwice(snapshots, None, limit);
    var next := NextCursor(Page(rows, None, limit), limit);
    if next.Some? {
      forall i | 0 <= i < |snapshots[1..]| ensures Below(snapshots[1..][i], next) == Below(rows, next) {
        NewerRowsStayAbove(rows, snapshots[i + 1], next.value);
      }
      AgreeingSnapshotsGiveTheList(snapshots[1..], next, limit, rows);
      forall k ensures k in Read(snapshots, None, limit) <==> k in Newest(rows) {
        if k in rows { PageHolds(rows, None, limit, k); }
      }
      SameListByContent(Read(snapshots, None, limit), Newest(rows));
    }
  }

  lemma NewerRowsStayAbove(rows: set<Key>, later: set<Key>, cursor: Key)
    requires GrewNewer(rows, later) && cursor in rows
    ensures Below(later, Some(cursor)) == Below(rows, Some(cursor))
  {}

  /** ... and the reader ends: what arrives meanwhile does not keep it going. */
  lemma LiveReaderEnds(snapshots: seq<set<Key>>, limit: nat)
    requires snapshots != [] && |snapshots| * limit > |snapshots[0]|
    requires forall i :: 0 <= i < |snapshots| ==> GrewNewer(snapshots[0], snapshots[i])
    ensures Ended(snapshots, None, limit)
  {
    var rows := snapshots[0];
    if !Ended(snapshots, None, limit) {
      UnendedPagesAreFull(snapshots, None, limit);
      FullPagesFill(Pages(snapshots, None, limit), limit);
      NoRowTwice(snapshots, None, limit);
      ReadUnfolds(snapshots, None, limit);
      var next := NextCursor(Page(rows, None, limit), limit);
      forall k | k in Read(snapshots[1..], next, limit) ensures k in rows {
        ReadsOnlyRows(snapshots[1..], next, limit, k);
        var i :| 0 <= i < |snapshots[1..]| && k in Below(snapshots[1..][i], next);
        NewerRowsStayAbove(rows, snapshots[i + 1], next.value);
      }
      DescendingFits(Read(snapshots, None, limit), rows);
    }
  }

  /** What OFFSET would do: one newer row between two fetches and the second page repeats the first's last. */
  lemma OffsetRepeatsTheSeam(rows: set<Key>, newer: Key, limit: nat)
    requires 1 <= limit <= |rows| && forall r :: r in rows ==> Less(r, newer)
    ensures newer !in rows && Newest(rows + {newer})[limit] == Newest(rows)[..limit][limit - 1]
  {
    var list := [newer] + Newest(rows);
    assert newer !in rows;
    assert forall k :: k in Newest(rows) ==> Less(k, [newer][0]);
    DescendingJoin([newer], Newest(rows));
    SameListByContent(list, Newest(rows + {newer}));
  }
}
