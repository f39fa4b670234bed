/**
 * The delta endpoint: a page of journal rows after a cursor, compacted so
 * that each registration appears at most once, with its newest row.
 */
module VisitorChanges {
  import opened Wrappers
  import opened VisitorStore

  /** A journal row as the query returns it. */
  datatype Row = Row(id: nat, change: Change)

  function ClampChangesLimit(requested: Option<int>): (limit: nat)
    ensures 1 <= limit <= 1000
  {
    var asked := if requested.None? || requested.value == 0 then 500 else requested.value;
    if asked < 1 then 1 else if asked > 1000 then 1000 else asked
  }

  /** A limit within the bounds is used as it is, and 500 when none is asked for. */
  lemma LimitIsAsked(requested: Option<int>)
    ensures requested.Some? && 1 <= requested.value <= 1000 ==> ClampChangesLimit(requested) == requested.value
    ensures requested.None? ==> ClampChangesLimit(requested) == 500
  {
  }

  /** All rows of the event with an id above `after`, in id order. */
  function RowsAfter(journal: seq<Change>, e: EventId, after: nat): seq<Row>
    decreases |journal| - after
  {
    if after >= |journal| then []
    else
      var rest := RowsAfter(journal, e, after + 1);
      if journal[after].eventId == e then [Row(after + 1, journal[after])] + rest else rest
  }

  lemma {:induction false} RowsAfterAreRows(journal: seq<Change>, e: EventId, after: nat)
    ensures forall k :: 0 <= k < |RowsAfter(journal, e, after)| ==>
              IsRow(journal, e, RowsAfter(journal, e, after)[k]) && after < RowsAfter(journal, e, after)[k].id
    ensures Ascending(RowsAfter(journal, e, after))
    decreases |journal| - after
  {
    if after < |journal| {
      RowsAfterAreRows(journal, e, after + 1);
    }
  }

  lemma {:induction false} RowsAfterHasRow(journal: seq<Change>, e: EventId, after: nat, i: nat)
    requires after <= i < |journal| && journal[i].eventId == e
    ensures Row(i + 1, journal[i]) in RowsAfter(journal, e, after)
    decreases |journal| - after
  {
    if after < i {
      RowsAfterHasRow(journal, e, after + 1, i);
    }
  }

  datatype ChangesPage = ChangesPage(rows: seq<Row>, hasMore: bool, next: nat)

  function ReadChanges(journal: seq<Change>, e: EventId, after: nat, limit: nat): ChangesPage
    requires limit > 0
  {
    var all := RowsAfter(journal, e, after);
    var rows := if |all| > limit then all[..limit] else all;
    ChangesPage(rows, |all| > limit, if rows == [] then after else rows[|rows| - 1].id)
  }

  lemma PageCursorAdvances(journal: seq<Change>, e: EventId, after: nat, limit: nat)
    requires limit > 0
    ensures var page := ReadChanges(journal, e, after, limit);
            after <= page.next && (after <= |journal| ==> page.next <= |journal|) && Ascending(page.rows)
  {
    RowsAfterAreRows(journal, e, after);
  }

  /** Every row of the page is a journal row of the event between the two cursors. */
  lemma PageRowsAreJournalRows(journal: seq<Change>, e: EventId, after: nat, limit: nat, row: Row)
    requires limit > 0 && row in ReadChanges(journal, e, after, limit).rows
    ensures IsRow(journal, e, row) && after < row.id <= ReadChanges(journal, e, after, limit).next
  {
    RowsAfterAreRows(journal, e, after);
    var rows := ReadChanges(journal, e, after, limit).rows;
    var k :| 0 <= k < |rows| && rows[k] == row;
    assert RowsAfter(journal, e, after)[k] == row;
  }

  /** The cursor passes exactly the rows of the page: no journal row of the event is skipped. */
  lemma PageSkipsNothing(journal: seq<Change>, e: EventId, after: nat, limit: nat, i: nat)
    requires limit > 0 && after <= i < |journal| && journal[i].eventId == e
    requires i < ReadChanges(journal, e, after, limit).next
    ensures Row(i + 1, journal[i]) in ReadChanges(journal, e, after, limit).rows
  {
    var all, rows := RowsAfter(journal, e, after), ReadChanges(journal, e, after, limit).rows;
    RowsAfterAreRows(journal, e, after);
    RowsAfterHasRow(journal, e, after, i);
    var k :| 0 <= k < |all| && all[k] == Row(i + 1, journal[i]);
    assert rows != [];
    assert forall m :: 0 <= m < k ==> all[m].id < all[k].id;
    assert rows[k] == all[k];
  }

  ghost predicate IsRow(journal: seq<Change>, e: EventId, row: Row) {
    0 < row.id <= |journal| && journal[row.id - 1] == row.change && row.change.eventId == e
  }

  /** What remains after a page is the rest of the rows; hasMore tells whether there are any. */
  lemma PageLeavesRest(journal: seq<Change>, e: EventId, after: nat, limit: nat)
    requires limit > 0
    ensures var page := ReadChanges(journal, e, after, limit);
            var all := RowsAfter(journal, e, after);
            && |page.rows| == (if |all| > limit then limit else |all|)
            && RowsAfter(journal, e, page.next) == all[|page.rows|..]
            && page.hasMore == (RowsAfter(journal, e, page.next) != [])
  {
    RowsAfterSuffix(journal, e, after, |ReadChanges(journal, e, after, limit).rows|);
  }

  lemma {:induction false} RowsAfterSuffix(journal: seq<Change>, e: EventId, after: nat, n: nat)
    requires n <= |RowsAfter(journal, e, after)|
    ensures RowsAfter(journal, e, if n == 0 then after else RowsAfter(journal, e, after)[n - 1].id)
            == RowsAfter(journal, e, after)[n..]
    decreases |journal| - after
  {
    if n > 0 {
      var rest := RowsAfter(journal, e, after + 1);
      if journal[after].eventId == e {
        assert RowsAfter(journal, e, after)[n..] == rest[n - 1..];
        RowsAfterSuffix(journal, e, after + 1, n - 1);
        if n > 1 { assert RowsAfter(journal, e, after)[n - 1] == rest[n - 2]; }
      } else {
        RowsAfterSuffix(journal, e, after + 1, n);
      }
    }
  }

  /** The newest row about `r` in the page. */
  function Newest(rows: seq<Row>, r: RegistrationId): (newest: Option<Row>)
    ensures newest.Some? ==> newest.value in rows && newest.value.change.registrationId == r
    ensures newest.None? <==> forall row :: row in rows ==> row.change.registrationId != r
  {
    if rows == [] then None
    else if rows[|rows| - 1].change.registrationId == r then Some(rows[|rows| - 1])
    else Newest(rows[..|rows| - 1], r)
  }

  ghost predicate Ascending(rows: seq<Row>) {
    forall k, l :: 0 <= k < l < |rows| ==> rows[k].id < rows[l].id
  }

  lemma {:induction false} NewestHasLargestId(rows: seq<Row>, row: Row)
    requires Ascending(rows) && row in rows
    ensures Newest(rows, row.change.registrationId).Some? && row.id <= Newest(rows, row.change.registrationId).value.id
  {
    var last := rows[|rows| - 1];
    var k :| 0 <= k < |rows| && rows[k] == row;
    if last.change.registrationId != row.change.registrationId {
      assert rows[..|rows| - 1][k] == row;
      NewestHasLargestId(rows[..|rows| - 1], row);
    }
  }

  /** What compaction must return: the newest row of each registration of the page, in id order, and nothing else. */
  ghost predicate IsCompaction(rows: seq<Row>, effective: seq<Row>) {
    && Ascending(effective)
    && (forall row :: row in effective <==> Newest(rows, row.change.registrationId) == Some(row))
  }

  /** Compaction as a filter: keep a row when no later row of the page is about the same registration. */
  function KeepNewest(all: seq<Row>, part: seq<Row>): seq<Row> {
    if part == [] then []
    else if Newest(all, part[0].change.registrationId) == Some(part[0]) then [part[0]] + KeepNewest(all, part[1..])
    else KeepNewest(all, part[1..])
  }

  function Effective(rows: seq<Row>): seq<Row> {
    KeepNewest(rows, rows)
  }

  lemma {:induction false} KeepNewestIsFilter(all: seq<Row>, part: seq<Row>)
    requires Ascending(part)
    ensures Ascending(KeepNewest(all, part))
    ensures forall row :: row in KeepNewest(all, part) <==>
              row in part && Newest(all, row.change.registrationId) == Some(row)
  {
    if part != [] {
      KeepNewestIsFilter(all, part[1..]);
      assert forall row :: row in part <==> row == part[0] || row in part[1..];
      assert forall row :: row in part[1..] ==> part[0].id < row.id;
      var rest := KeepNewest(all, part[1..]);
      assert forall k :: 0 <= k < |rest| ==> rest[k] in rest;
    }
  }

  lemma EffectiveIsCompaction(rows: seq<Row>)
    requires Ascending(rows)
    ensures IsCompaction(rows, Effective(rows))
  {
    KeepNewestIsFilter(rows, rows);
  }

  lemma {:induction false} SameRows(a: seq<Row>, b: seq<Row>)
    requires Ascending(a) && Ascending(b) && forall row :: row in a <==> row in b
    ensures a == b
  {
    if a != [] && b != [] {
      assert a[0] in b && b[0] in a;
      assert a[0] == b[0];
      forall row ensures row in a[1..] <==> row in b[1..] {
        if row in a[1..] { assert row in b; assert row != a[0]; }
        if row in b[1..] { assert row in a; assert row != b[0]; }
      }
      SameRows(a[1..], b[1..]);
    } else {
      var row := if a != [] then a[0] else if b != [] then b[0] else Row(0, Change(0, 0, Upsert, 0));
      assert row in a <==> row in b;
    }
  }

  /** The map the loop fills: each registration with its newest row so far. */
  function LatestMap(rows: seq<Row>): map<RegistrationId, Row> {
    if rows == [] then map[]
    else LatestMap(rows[..|rows| - 1])[rows[|rows| - 1].change.registrationId := rows[|rows| - 1]]
  }

  lemma {:induction false} LatestMapIsNewest(rows: seq<Row>, r: RegistrationId)
    ensures Lookup(LatestMap(rows), r) == Newest(rows, r)
  {
    if rows != [] {
      LatestMapIsNewest(rows[..|rows| - 1], r);
    }
  }

  lemma Inserted(sorted: seq<Row>, i: nat, row: Row)
    requires Ascending(sorted) && i <= |sorted|
    requires forall k :: i <= k < |sorted| ==> row.id < sorted[k].id
    requires forall k :: 0 <= k < i ==> sorted[k].id < row.id
    ensures var result := sorted[..i] + [row] + sorted[i..];
            Ascending(result) && (forall other :: other in result <==> other == row || other in sorted)
  {
    assert sorted == sorted[..i] + sorted[i..];
  }

  /** Insert into an ascending list: the comparison sort by id, one element at a time. */
  method InsertById(sorted: seq<Row>, row: Row) returns (result: seq<Row>)
    requires Ascending(sorted) && forall k :: 0 <= k < |sorted| ==> sorted[k].id != row.id
    ensures Ascending(result) && (forall other :: other in result <==> other == row || other in sorted)
  {
    var i := |sorted|;
    while i > 0 && row.id < sorted[i - 1].id
      invariant 0 <= i <= |sorted|
      invariant forall k :: i <= k < |sorted| ==> row.id < sorted[k].id
    {
      i := i - 1;
    }
    result := sorted[..i] + [row] + sorted[i..];
    Inserted(sorted, i, row);
  }

  /** The loop that fills the map; `order` is the map's insertion order. */
  method FillLatest(rows: seq<Row>) returns (latest: map<RegistrationId, Row>, order: seq<RegistrationId>)
    ensures latest == LatestMap(rows)
    ensures forall r :: r in order <==> r in latest
    ensures forall k, l :: 0 <= k < l < |order| ==> order[k] != order[l]
  {
    latest, order := map[], [];
    for i := 0 to |rows|
      invariant latest == LatestMap(rows[..i])
      invariant forall r :: r in order <==> r in latest
      invariant forall k, l :: 0 <= k < l < |order| ==> order[k] != order[l]
    {
      assert rows[..i + 1][..i] == rows[..i];
      var r := rows[i].change.registrationId;
      if r !in latest {
        order := order + [r];
      }
      latest := latest[r := rows[i]];
    }
    assert rows[..|rows|] == rows;
  }

  lemma OthersHaveOtherIds(rows: seq<Row>, effective: seq<Row>, row: Row)
    requires Ascending(rows) && Newest(rows, row.change.registrationId) == Some(row)
    requires forall other :: other in effective ==>
               other.change.registrationId != row.change.registrationId
               && Newest(rows, other.change.registrationId) == Some(other)
    ensures forall k :: 0 <= k < |effective| ==> effective[k].id != row.id
  {
    forall k | 0 <= k < |effective| ensures effective[k].id != row.id {
      assert effective[k] in effective;
      SameIdSameRow(rows, effective[k], row);
    }
  }

  /** Fill the map by registration, then list its values by id. */
  method CompactChanges(rows: seq<Row>) returns (effective: seq<Row>)
    requires Ascending(rows)
    ensures effective == Effective(rows)
  {
    var latest, order := FillLatest(rows);
    effective := [];
    for i := 0 to |order|
      invariant Ascending(effective)
      invariant forall row :: row in effective <==>
                  row.change.registrationId in order[..i] && Newest(rows, row.change.registrationId) == Some(row)
    {
      assert order[..i + 1] == order[..i] + [order[i]];
      LatestMapIsNewest(rows, order[i]);
      var row := latest[order[i]];
      assert forall k :: 0 <= k < i ==> order[k] != order[i];
      OthersHaveOtherIds(rows, effective, row);
      effective := InsertById(effective, row);
    }
    assert order[..|order|] == order;
    forall row: Row | Newest(rows, row.change.registrationId) == Some(row) ensures row.change.registrationId in order {
      LatestMapIsNewest(rows, row.change.registrationId);
    }
    EffectiveIsCompaction(rows);
    SameRows(effective, Effective(rows));
  }

  lemma SameIdSameRow(rows: seq<Row>, a: Row, b: Row)
    requires Ascending(rows) && a in rows && b in rows
    ensures a.id == b.id ==> a == b
  {
  }

  /** One delivered change. UPSERT carries the current visitor, or null when the registration is gone by then. */
  datatype Delivered = Delivered(registrationId: RegistrationId, operation: Operation, visitor: Option<Visitor>)

  function Deliver(rows: seq<Row>, visitors: map<RegistrationId, Visitor>): (changes: seq<Delivered>)
    ensures |changes| == |rows|
    ensures forall k :: 0 <= k < |rows| ==> changes[k] == DeliverRow(rows[k], visitors)
  {
    if rows == [] then [] else [DeliverRow(rows[0], visitors)] + Deliver(rows[1..], visitors)
  }

  function DeliverRow(row: Row, visitors: map<RegistrationId, Visitor>): Delivered {
    var c := row.change;
    Delivered(c.registrationId, c.operation,
              if c.operation == Upsert then Lookup(visitors, c.registrationId) else None)
  }

  /** What the device does with a delivered change. A null visitor on UPSERT leaves its copy alone. */
  function Store(replica: map<RegistrationId, Visitor>, d: Delivered): map<RegistrationId, Visitor> {
    if d.operation == Delete then replica - {d.registrationId}
    else if d.visitor.Some? then replica[d.registrationId := d.visitor.value]
    else replica
  }

  function StoreAll(replica: map<RegistrationId, Visitor>, changes: seq<Delivered>): map<RegistrationId, Visitor>
    decreases |changes|
  {
    if changes == [] then replica else StoreAll(Store(replica, changes[0]), changes[1..])
  }

  /** The copy of `r` after a compacted delivery depends on its newest row alone. */
  lemma {:induction false} StoreAllByRegistration(replica: map<RegistrationId, Visitor>, rows: seq<Row>,
                                                  visitors: map<RegistrationId, Visitor>, r: RegistrationId)
    requires forall k, l :: 0 <= k < l < |rows| ==> rows[k].change.registrationId != rows[l].change.registrationId
    ensures Lookup(StoreAll(replica, Deliver(rows, visitors)), r) ==
            match Newest(rows, r)
            case None => Lookup(replica, r)
            case Some(row) => Lookup(Store(replica, DeliverRow(row, visitors)), r)
    decreases |rows|
  {
    if rows != [] {
      var next := Store(replica, DeliverRow(rows[0], visitors));
      StoreAllByRegistration(next, rows[1..], visitors, r);
      assert rows == [rows[0]] + rows[1..];
      NewestCons(rows[0], rows[1..], r);
      assert Deliver(rows, visitors)[1..] == Deliver(rows[1..], visitors);
      StoreIsLocal(replica, DeliverRow(rows[0], visitors), r);
      if Newest(rows[1..], r).Some? {
        var row := Newest(rows[1..], r).value;
        StoreIsLocal(next, DeliverRow(row, visitors), r);
        StoreIsLocal(replica, DeliverRow(row, visitors), r);
      }
    }
  }

  lemma StoreIsLocal(replica: map<RegistrationId, Visitor>, d: Delivered, r: RegistrationId)
    ensures Lookup(Store(replica, d), r) ==
            if d.registrationId != r then Lookup(replica, r)
            else if d.operation == Delete then None
            else if d.visitor.Some? then d.visitor
            else Lookup(replica, r)
  {
  }

  lemma {:induction false} NewestCons(row: Row, rows: seq<Row>, r: RegistrationId)
    ensures Newest([row] + rows, r) ==
            if Newest(rows, r).Some? then Newest(rows, r)
            else if row.change.registrationId == r then Some(row) else None
  {
    if rows != [] {
      assert ([row] + rows)[..|rows|] == [row] + rows[..|rows| - 1];
      NewestCons(row, rows[..|rows| - 1], r);
    }
  }

  /** Compaction keeps the newest row of every registration and makes registrations distinct. */
  lemma {:induction false} CompactionKeepsNewest(rows: seq<Row>, effective: seq<Row>, r: RegistrationId)
    requires Ascending(rows) && IsCompaction(rows, effective)
    ensures Newest(effective, r) == Newest(rows, r)
    ensures forall k, l :: 0 <= k < l < |effective| ==>
              effective[k].change.registrationId != effective[l].change.registrationId
  {
    forall k, l | 0 <= k < l < |effective|
      ensures effective[k].change.registrationId != effective[l].change.registrationId
    {
      assert effective[k] in effective && effective[l] in effective;
    }
    if Newest(rows, r).Some? {
      assert Newest(rows, r).value in effective;
    }
    if Newest(effective, r).Some? {
      assert Newest(effective, r).value in effective;
    }
  }
}
