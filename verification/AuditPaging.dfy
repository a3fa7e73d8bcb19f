/**
 Keyset pagination of the API access audit: the query of
 internal/store/access_audit_store.go and the page cutting of
 internal/api/admin_access_handler.go. The table is any sequence of rows with
 distinct ids; a client follows next cursors from the first page to the last.
 */
module AuditPaging {
  import opened Common

  datatype Event = Event(
    id: Id, occurredAt: Time, userId: Option<Id>, tokenId: Option<Id>, agentRunId: Option<Id>,
    httpMethod: string, routePattern: string, statusCode: int, requestId: string)

  datatype Filter = Filter(
    userId: Option<Id>, tokenId: Option<Id>, agentRunId: Option<Id>,
    httpMethod: string, routePattern: string, statusCode: Option<int>, requestId: string,
    importantOnly: bool, from: Option<Time>, to: Option<Time>)

  datatype Cursor = Cursor(occurredAt: Time, id: Id)

  datatype Page = Page(items: seq<Event>, next: Option<Cursor>)

  const DEFAULT_LIMIT := 50
  const ZERO_TIME: Time := 0

  predicate Matches(f: Filter, e: Event) {
    && (f.userId.Some? ==> e.userId == f.userId)
    && (f.tokenId.Some? ==> e.tokenId == f.tokenId)
    && (f.agentRunId.Some? ==> e.agentRunId == f.agentRunId)
    && (f.httpMethod != "" ==> e.httpMethod == f.httpMethod)
    && (f.routePattern != "" ==> e.routePattern == f.routePattern)
    && (f.statusCode.Some? ==> e.statusCode == f.statusCode.value)
    && (f.requestId != "" ==> e.requestId == f.requestId)
    && (f.importantOnly ==> !(e.httpMethod == "GET" && 200 <= e.statusCode < 400))
    && (f.from.Some? ==> e.occurredAt >= f.from.value)
    && (f.to.Some? ==> e.occurredAt <= f.to.value)
  }

  function CursorOf(e: Event): Cursor {
    Cursor(e.occurredAt, e.id)
  }

  /** The row comparison (occurred_at, id) < (at, id). */
  predicate Precedes(a: Cursor, b: Cursor) {
    a.occurredAt < b.occurredAt || (a.occurredAt == b.occurredAt && a.id < b.id)
  }

  predicate Admits(before: Option<Cursor>, e: Event) {
    before.None? || Precedes(CursorOf(e), before.value)
  }

  predicate DistinctIds(table: seq<Event>) {
    forall i, j :: 0 <= i < j < |table| ==> table[i].id != table[j].id
  }

  predicate Descending(rows: seq<Event>) {
    forall i, j :: 0 <= i < j < |rows| ==> Precedes(CursorOf(rows[j]), CursorOf(rows[i]))
  }

  // ---------------------------------------------------------------- reference listing

  function Insert(e: Event, rows: seq<Event>): seq<Event> {
    if rows == [] || Precedes(CursorOf(rows[0]), CursorOf(e)) then [e] + rows
    else [rows[0]] + Insert(e, rows[1..])
  }

  /** Every row of the table that matches, newest first. */
  function Listing(table: seq<Event>, f: Filter): seq<Event> {
    if table == [] then []
    else
      var last := table[|table| - 1];
      var rest := Listing(table[..|table| - 1], f);
      if Matches(f, last) then Insert(last, rest) else rest
  }

  /** The rows of a listing that a cursor admits. */
  function Below(rows: seq<Event>, before: Option<Cursor>): (r: seq<Event>)
    ensures |r| <= |rows|
  {
    if rows == [] then []
    else (if Admits(before, rows[0]) then [rows[0]] else []) + Below(rows[1..], before)
  }

  lemma {:induction false} InsertElements(e: Event, rows: seq<Event>)
    ensures multiset(Insert(e, rows)) == multiset(rows) + multiset{e}
    ensures forall x :: x in Insert(e, rows) <==> x == e || x in rows
  {
    if rows != [] {
      assert rows == [rows[0]] + rows[1..];
      if !Precedes(CursorOf(rows[0]), CursorOf(e)) {
        InsertElements(e, rows[1..]);
      }
    }
  }

  lemma {:induction false} InsertDescends(e: Event, rows: seq<Event>)
    requires Descending(rows) && forall x :: x in rows ==> x.id != e.id
    ensures Descending(Insert(e, rows))
  {
    if rows != [] && !Precedes(CursorOf(rows[0]), CursorOf(e)) {
      InsertDescends(e, rows[1..]);
      InsertElements(e, rows[1..]);
      var tail := Insert(e, rows[1..]);
      forall x | x in tail
        ensures Precedes(CursorOf(x), CursorOf(rows[0]))
      {
        if x != e {
          var i :| 1 <= i < |rows| && rows[i] == x;
        }
      }
    }
  }

  /** The listing is exactly the matching rows, each once, in descending (time, id) order. */
  lemma {:induction false} ListingIsSorted(table: seq<Event>, f: Filter)
    requires DistinctIds(table)
    ensures Descending(Listing(table, f))
    ensures forall e :: e in Listing(table, f) <==> e in table && Matches(f, e)
  {
    if table != [] {
      var init, last := table[..|table| - 1], table[|table| - 1];
      assert table == init + [last];
      ListingIsSorted(init, f);
      if Matches(f, last) {
        InsertDescends(last, Listing(init, f));
        InsertElements(last, Listing(init, f));
      }
    }
  }

  // ---------------------------------------------------------------- the query and the page

  function Take(rows: seq<Event>, n: nat): seq<Event> {
    if n < |rows| then rows[..n] else rows
  }

  function Query(table: seq<Event>, f: Filter, before: Option<Cursor>, limit: int): seq<Event> {
    Take(Below(Listing(table, f), before), if limit <= 0 then DEFAULT_LIMIT else limit)
  }

  lemma {:induction false} BelowOfInsert(e: Event, rows: seq<Event>, before: Option<Cursor>)
    requires Descending(rows) && forall x :: x in rows ==> x.id != e.id
    ensures Below(Insert(e, rows), before) ==
            if Admits(before, e) then Insert(e, Below(rows, before)) else Below(rows, before)
  {
    if rows == [] || Precedes(CursorOf(rows[0]), CursorOf(e)) {
      assert Insert(e, rows) == [e] + rows;
      assert ([e] + rows)[1..] == rows;
      BelowDescends(rows, before);
      if rows != [] && Below(rows, before) != [] {
        assert Below(rows, before)[0] in rows;
      }
    } else {
      BelowOfInsert(e, rows[1..], before);
      assert Insert(e, rows)[1..] == Insert(e, rows[1..]);
      if Admits(before, rows[0]) {
        assert ([rows[0]] + Below(rows[1..], before))[1..] == Below(rows[1..], before);
      } else {
        assert Below(rows, before) == Below(rows[1..], before);
        assert Below(Insert(e, rows), before) == Below(Insert(e, rows[1..]), before);
      }
    }
  }

  lemma {:induction false} BelowDescends(rows: seq<Event>, before: Option<Cursor>)
    ensures forall x :: x in Below(rows, before) <==> x in rows && Admits(before, x)
    ensures Descending(rows) ==> Descending(Below(rows, before))
  {
    if rows != [] {
      BelowDescends(rows[1..], before);
      assert rows == [rows[0]] + rows[1..];
      if Descending(rows) {
        forall x | x in Below(rows[1..], before)
          ensures Precedes(CursorOf(x), CursorOf(rows[0]))
        {
          var i :| 1 <= i < |rows| && rows[i] == x;
        }
      }
    }
  }

  /** Runs the query: each matching row the cursor admits is placed in order, then the limit applies. */
  method ListAccessAudit(table: seq<Event>, f: Filter, before: Option<Cursor>, limit: int) returns (events: seq<Event>)
    requires DistinctIds(table)
    ensures events == Query(table, f, before, limit)
  {
    var n := limit;
    if n <= 0 {
      n := DEFAULT_LIMIT;
    }
    var rows: seq<Event> := [];
    for i := 0 to |table|
      invariant rows == Below(Listing(table[..i], f), before)
    {
      ghost var prefix := table[..i];
      assert table[..i + 1] == prefix + [table[i]];
      assert table[..i + 1][..i] == prefix;
      ListingIsSorted(prefix, f);
      if Matches(f, table[i]) {
        BelowOfInsert(table[i], Listing(prefix, f), before);
        if Admits(before, table[i]) {
          rows := Insert(table[i], rows);
        }
      }
    }
    assert table[..|table|] == table;
    events := if n < |rows| then rows[..n] else rows;
  }

  /** A page of at most pageSize rows; one extra row fetched tells whether another page follows. */
  function PageOf(table: seq<Event>, f: Filter, before: Option<Cursor>, pageSize: nat): Page
    requires pageSize > 0
  {
    var events := Query(table, f, before, pageSize + 1);
    if |events| > pageSize
    then Page(events[..pageSize], Some(CursorOf(events[pageSize - 1])))
    else Page(events, None)
  }

  /** A decoded cursor must carry a time and an id. */
  predicate CursorAccepted(c: Cursor) {
    c.occurredAt != ZERO_TIME && c.id != NIL
  }

  datatype ListingError = CursorInvalid

  lemma {:induction false} BelowAfterRow(rows: seq<Event>, k: nat)
    requires Descending(rows) && 0 < k <= |rows|
    ensures Below(rows, Some(CursorOf(rows[k - 1]))) == rows[k..]
  {
    var c := Some(CursorOf(rows[k - 1]));
    if k == 1 {
      AllBelow(rows[1..], c);
      assert !Admits(c, rows[0]);
    } else {
      BelowAfterRow(rows[1..], k - 1);
      assert rows[1..][k - 2] == rows[k - 1];
      assert rows[1..][k - 1..] == rows[k..];
      assert Precedes(CursorOf(rows[k - 1]), CursorOf(rows[0]));
      assert !Admits(c, rows[0]);
    }
  }

  lemma {:induction false} AllBelow(rows: seq<Event>, before: Option<Cursor>)
    requires forall i :: 0 <= i < |rows| ==> Admits(before, rows[i])
    ensures Below(rows, before) == rows
  {
    if rows != [] {
      AllBelow(rows[1..], before);
    }
  }

  /** A client that fetches a page and follows its next cursor while there is one. */
  function Follow(table: seq<Event>, f: Filter, before: Option<Cursor>, pageSize: nat): Result<seq<Event>, ListingError>
    requires pageSize > 0 && DistinctIds(table)
    requires before.Some? ==> exists e :: e in Listing(table, f) && CursorOf(e) == before.value
    decreases |Below(Listing(table, f), before)|
  {
    if before.Some? && !CursorAccepted(before.value) then Err(CursorInvalid)
    else
      var page := PageOf(table, f, before, pageSize);
      if page.next.None? then Ok(page.items)
      else
        NextPage(table, f, before, pageSize);
        match Follow(table, f, page.next, pageSize)
        case Ok(rest) => Ok(page.items + rest)
        case Err(error) => Err(error)
  }

  /** What the cursor of one page leaves for the next one. */
  lemma NextPage(table: seq<Event>, f: Filter, before: Option<Cursor>, pageSize: nat)
    requires pageSize > 0 && DistinctIds(table)
    requires before.Some? ==> exists e :: e in Listing(table, f) && CursorOf(e) == before.value
    requires PageOf(table, f, before, pageSize).next.Some?
    ensures var left := Below(Listing(table, f), before);
            var page := PageOf(table, f, before, pageSize);
            && |left| > pageSize && page.items == left[..pageSize]
            && page.next == Some(CursorOf(left[pageSize - 1]))
            && left[pageSize - 1] in Listing(table, f)
            && Below(Listing(table, f), page.next) == left[pageSize..]
  {
    var rows := Listing(table, f);
    ListingIsSorted(table, f);
    var k := Position(rows, before);
    var left := rows[k..];
    assert left[pageSize - 1] == rows[k + pageSize - 1];
    BelowAfterRow(rows, k + pageSize);
    assert rows[k + pageSize..] == left[pageSize..];
  }

  /** Where in a listing the rows admitted by one of its cursors begin. */
  lemma Position(rows: seq<Event>, before: Option<Cursor>) returns (k: nat)
    requires Descending(rows)
    requires before.Some? ==> exists e :: e in rows && CursorOf(e) == before.value
    ensures k <= |rows| && Below(rows, before) == rows[k..]
  {
    if before.None? {
      AllBelow(rows, before);
      k := 0;
    } else {
      var e :| e in rows && CursorOf(e) == before.value;
      var i :| 0 <= i < |rows| && rows[i] == e;
      BelowAfterRow(rows, i + 1);
      k := i + 1;
    }
  }

  /** Every row on which a page ends, other than the last page, has a time and an id. */
  predicate BoundariesAccepted(rows: seq<Event>, pageSize: nat)
    requires pageSize > 0
  {
    |rows| <= pageSize ||
    (rows[pageSize - 1].occurredAt != 0 && rows[pageSize - 1].id != 0 && BoundariesAccepted(rows[pageSize..], pageSize))
  }

  lemma {:induction false} FollowFrom(table: seq<Event>, f: Filter, before: Option<Cursor>, pageSize: nat)
    requires pageSize > 0 && DistinctIds(table)
    requires before.Some? ==> exists e :: e in Listing(table, f) && CursorOf(e) == before.value
    requires before.Some? ==> CursorAccepted(before.value)
    ensures Follow(table, f, before, pageSize) ==
            var left := Below(Listing(table, f), before);
            if BoundariesAccepted(left, pageSize) then Ok(left) else Err(CursorInvalid)
    decreases |Below(Listing(table, f), before)|
  {
    var page := PageOf(table, f, before, pageSize);
    var left := Below(Listing(table, f), before);
    if page.next.Some? {
      NextPage(table, f, before, pageSize);
      if CursorAccepted(page.next.value) {
        FollowFrom(table, f, page.next, pageSize);
        assert left == left[..pageSize] + left[pageSize..];
      }
    }
  }

  /**
   Following next cursors from the first page yields the whole listing, with no
   row repeated or skipped, for every page size; it fails exactly when some page
   but the last ends on a row whose cursor the handler refuses to decode.
   */
  lemma FollowingCursorsListsEverything(table: seq<Event>, f: Filter, pageSize: nat)
    requires pageSize > 0 && DistinctIds(table)
    ensures var rows := Listing(table, f);
            Follow(table, f, None, pageSize) ==
            if BoundariesAccepted(rows, pageSize) then Ok(rows) else Err(CursorInvalid)
    ensures (forall e :: e in table ==> CursorAccepted(CursorOf(e))) ==>
              Follow(table, f, None, pageSize) == Ok(Listing(table, f))
  {
    var rows := Listing(table, f);
    AllBelow(rows, None);
    FollowFrom(table, f, None, pageSize);
    ListingIsSorted(table, f);
    if forall e :: e in table ==> CursorAccepted(CursorOf(e)) {
      AcceptedRows(rows, pageSize);
    }
  }

  lemma {:induction false} AcceptedRows(rows: seq<Event>, pageSize: nat)
    requires pageSize > 0 && forall e :: e in rows ==> CursorAccepted(CursorOf(e))
    ensures BoundariesAccepted(rows, pageSize)
  {
    if |rows| > pageSize {
      assert CursorAccepted(CursorOf(rows[pageSize - 1]));
      assert forall e :: e in rows[pageSize..] ==> e in rows;
      AcceptedRows(rows[pageSize..], pageSize);
    }
  }

  /** The filter, condition by condition: what is left open admits every row. */
  lemma FilterMeans(f: Filter, e: Event)
    ensures Matches(f, e) <==>
              && (f.userId == None || f.userId == e.userId)
              && (f.tokenId == None || f.tokenId == e.tokenId)
              && (f.agentRunId == None || f.agentRunId == e.agentRunId)
              && (f.httpMethod == "" || f.httpMethod == e.httpMethod)
              && (f.routePattern == "" || f.routePattern == e.routePattern)
              && (f.statusCode == None || f.statusCode == Some(e.statusCode))
              && (f.requestId == "" || f.requestId == e.requestId)
              && (f.importantOnly ==> e.httpMethod != "GET" || e.statusCode < 200 || e.statusCode >= 400)
              && (f.from == None || f.from.value <= e.occurredAt)
              && (f.to == None || e.occurredAt <= f.to.value)
  {
  }

  /** Newest first: a later row is older, or as old with a smaller id. */
  lemma OrderMeans(table: seq<Event>, f: Filter, i: nat, j: nat)
    requires DistinctIds(table) && i < j < |Listing(table, f)|
    ensures var rows := Listing(table, f);
            rows[j].occurredAt < rows[i].occurredAt || (rows[j].occurredAt == rows[i].occurredAt && rows[j].id < rows[i].id)
  {
    ListingIsSorted(table, f);
    assert Precedes(CursorOf(Listing(table, f)[j]), CursorOf(Listing(table, f)[i]));
  }

  /** The query: the matching rows strictly before the cursor, as many as asked for, 50 by default. */
  lemma QueryMeans(table: seq<Event>, f: Filter, before: Option<Cursor>, limit: int)
    requires DistinctIds(table)
    ensures var n := if limit <= 0 then 50 else limit;
            var left := Below(Listing(table, f), before);
            Query(table, f, before, limit) == if n < |left| then left[..n] else left
    ensures forall e :: e in Below(Listing(table, f), before) <==>
              && e in table && Matches(f, e)
              && (before.None? || e.occurredAt < before.value.occurredAt
                  || (e.occurredAt == before.value.occurredAt && e.id < before.value.id))
  {
    ListingIsSorted(table, f);
    BelowDescends(Listing(table, f), before);
  }

  /** A page without a next cursor is all that is left, and fits. */
  lemma LastPage(table: seq<Event>, f: Filter, before: Option<Cursor>, pageSize: nat)
    requires pageSize > 0
    ensures var left := Below(Listing(table, f), before);
            var page := PageOf(table, f, before, pageSize);
            && (page.next.None? <==> |left| <= pageSize)
            && (page.next.None? ==> page.items == left)
  {
  }
}
