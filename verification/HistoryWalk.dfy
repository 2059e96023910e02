// Following next cursors from the empty one until there is none, while the
// table may grow between fetches.
module HistoryWalk {
  import opened Common
  import opened Rfc3339
  import opened History
  import Cursor

  // What a walk has collected, and whether it came to an end.
  datatype Walk = Walk(rows: seq<Row>, finished: bool)

  // What a client sees: a page for a cursor, or an error.
  type Service = (seq<Row>, string) -> Option<Page>

  // Fetches page after page; the k-th fetch sees tables[k].
  function Follow(service: Service, tables: seq<seq<Row>>, cursor: string): Walk
    decreases |tables|
  {
    if |tables| == 0 then Walk([], false)
    else
      match service(tables[0], cursor)
      case None => Walk([], false)
      case Some(page) =>
        match page.nextCursor
        case None => Walk(page.items, true)
        case Some(next) =>
          var rest := Follow(service, tables[1..], next);
          Walk(page.items + rest.rows, rest.finished)
  }

  // The position a cursor stands for, if it is well-formed.
  type Reader = string -> Option<Position>

  function ServiceBy(decode: Reader, account: seq<int>, limit: int): Service {
    (table: seq<Row>, cursor: string) =>
      match decode(cursor)
      case None => None
      case Some(from) => Some(PageFrom(table, account, limit, from))
  }

  // The history service, as ListByAccount computes it.
  function HistoryService(account: seq<int>, limit: int): Service { ServiceBy(StartOf, account, limit) }

  function WalkFrom(tables: seq<seq<Row>>, account: seq<int>, limit: int, cursor: string): Walk {
    Follow(HistoryService(account, limit), tables, cursor)
  }

  const START := Cursor.HistoryCursor(ZERO_TIME, NIL_UUID)

  /******* The same walk by positions, without cursor texts *******/

  // The rows of the page that starts below a position.
  type Pager = (seq<Row>, Position) -> seq<Row>

  function WalkAt(pager: Pager, size: nat, tables: seq<seq<Row>>, from: Position): Walk
    requires size >= 1
    decreases |tables|
  {
    if |tables| == 0 then Walk([], false)
    else
      var items := pager(tables[0], from);
      if |items| != size then Walk(items, true)
      else
        var rest := WalkAt(pager, size, tables[1..], PositionOf(items[size - 1]));
        Walk(items + rest.rows, rest.finished)
  }

  function HistoryPager(account: seq<int>, limit: int): Pager {
    (table: seq<Row>, from: Position) => ListTransactions(table, account, from, EffectiveLimit(limit))
  }

  // The items are the newest rows of the account below the position: nothing
  // above the last of them is left out, and nothing at all unless they are full.
  ghost predicate PageOfTable(table: seq<Row>, account: seq<int>, size: nat, from: Position, items: seq<Row>) {
    && Descending(items) && |items| <= size
    && (forall r :: r in items ==> r in table && Selected(r, account, from))
    && (forall r :: r in table && Selected(r, account, from) && r !in items ==>
          |items| == size > 0 && Below(PositionOf(r), PositionOf(items[|items| - 1])))
  }

  ghost predicate PagesOf(pager: Pager, account: seq<int>, size: nat) {
    forall table, from :: Table(table) ==> PageOfTable(table, account, size, from, pager(table, from))
  }

  lemma HistoryPages(account: seq<int>, limit: int)
    ensures PagesOf(HistoryPager(account, limit), account, EffectiveLimit(limit))
  {
    forall table, from | Table(table)
      ensures PageOfTable(table, account, EffectiveLimit(limit), from, HistoryPager(account, limit)(table, from))
    {
      PageMeaning(table, account, limit, from);
      assert PageFrom(table, account, limit, from).items == HistoryPager(account, limit)(table, from);
    }
  }

  // The service answers a readable cursor with the pager's page, and a full
  // page with a cursor that reads as the position of its last row.
  ghost predicate Serves(service: Service, decode: Reader, pager: Pager, size: nat, table: seq<Row>, cursor: string) {
    Table(table) && decode(cursor).Some? ==>
      var items := pager(table, decode(cursor).value);
      && service(table, cursor).Some?
      && service(table, cursor).value.items == items
      && match service(table, cursor).value.nextCursor
         case None => |items| != size
         case Some(next) => |items| == size > 0 && decode(next) == Some(PositionOf(items[size - 1]))
  }

  ghost predicate ReadsBack(decode: Reader) {
    forall p :: Cursor.Valid(p) ==> decode(CursorText(p)) == Some(p)
  }

  lemma CursorsReadBack()
    ensures ReadsBack(StartOf)
  {
    forall p | Cursor.Valid(p) ensures StartOf(CursorText(p)) == Some(p) {
      NextStartsBelow(p);
    }
  }

  // A pager's rows, with a cursor for the last of them if they are full, are served.
  lemma PageServes(service: Service, decode: Reader, pager: Pager, size: nat, table: seq<Row>, cursor: string, next: string)
    requires size >= 1 && decode(cursor).Some?
    requires
      var items := pager(table, decode(cursor).value);
      && service(table, cursor) == Some(Page(items, if |items| == size then Some(next) else None))
      && (|items| == size ==> decode(next) == Some(PositionOf(items[size - 1])))
    ensures Serves(service, decode, pager, size, table, cursor)
  {
  }

  ghost predicate Writable(rows: seq<Row>) {
    forall k :: 0 <= k < |rows| ==> Cursor.Valid(PositionOf(rows[k]))
  }

  lemma PagesWritable(table: seq<Row>, account: seq<int>, limit: int, from: Position)
    requires Table(table)
    ensures Writable(HistoryPager(account, limit)(table, from))
  {
    HistoryPages(account, limit);
    var items := HistoryPager(account, limit)(table, from);
    assert PageOfTable(table, account, EffectiveLimit(limit), from, items);
    forall k | 0 <= k < |items| ensures Cursor.Valid(PositionOf(items[k])) {
      assert items[k] in items;
      InTable(table, items[k]);
    }
  }

  // A page is the pager's rows, and the cursor of the last of them if they are full.
  lemma PageShape(table: seq<Row>, account: seq<int>, limit: int, from: Position) returns (next: string)
    ensures
      var items := HistoryPager(account, limit)(table, from);
      && PageFrom(table, account, limit, from) == Page(items, if |items| == EffectiveLimit(limit) then Some(next) else None)
      && (|items| == EffectiveLimit(limit) ==> next == CursorText(PositionOf(items[|items| - 1])))
  {
    var page := PageFrom(table, account, limit, from);
    next := if page.nextCursor.Some? then page.nextCursor.value else "";
  }

  lemma ServiceServes(decode: Reader, account: seq<int>, limit: int, table: seq<Row>, cursor: string)
    requires ReadsBack(decode)
    ensures Serves(ServiceBy(decode, account, limit), decode, HistoryPager(account, limit), EffectiveLimit(limit), table, cursor)
  {
    if Table(table) && decode(cursor).Some? {
      var from := decode(cursor).value;
      PagesWritable(table, account, limit, from);
      var next := PageShape(table, account, limit, from);
      PageServes(ServiceBy(decode, account, limit), decode, HistoryPager(account, limit), EffectiveLimit(limit), table, cursor, next);
    }
  }

  // Following cursor texts visits the positions they stand for.
  lemma {:induction false} TextWalk(service: Service, decode: Reader, pager: Pager, size: nat, tables: seq<seq<Row>>, cursor: string)
    requires size >= 1 && forall k :: 0 <= k < |tables| ==> Table(tables[k])
    requires forall table, c :: Serves(service, decode, pager, size, table, c)
    requires decode(cursor).Some?
    ensures Follow(service, tables, cursor) == WalkAt(pager, size, tables, decode(cursor).value)
    decreases |tables|
  {
    if |tables| > 0 {
      assert Table(tables[0]) && Serves(service, decode, pager, size, tables[0], cursor);
      var next := service(tables[0], cursor).value.nextCursor;
      if next.Some? {
        TextWalk(service, decode, pager, size, tables[1..], next.value);
      }
    }
  }

  lemma HistoryWalksByPosition(tables: seq<seq<Row>>, account: seq<int>, limit: int)
    requires forall k :: 0 <= k < |tables| ==> Table(tables[k])
    ensures WalkFrom(tables, account, limit, "") == WalkAt(HistoryPager(account, limit), EffectiveLimit(limit), tables, START)
  {
    CursorsReadBack();
    assert StartOf("") == Some(START);
    ServiceWalks(StartOf, tables, account, limit, "");
  }

  lemma ServiceWalks(decode: Reader, tables: seq<seq<Row>>, account: seq<int>, limit: int, cursor: string)
    requires ReadsBack(decode) && decode(cursor).Some?
    requires forall k :: 0 <= k < |tables| ==> Table(tables[k])
    ensures Follow(ServiceBy(decode, account, limit), tables, cursor) ==
            WalkAt(HistoryPager(account, limit), EffectiveLimit(limit), tables, decode(cursor).value)
  {
    forall table, c
      ensures Serves(ServiceBy(decode, account, limit), decode, HistoryPager(account, limit), EffectiveLimit(limit), table, c)
    {
      ServiceServes(decode, account, limit, table, c);
    }
    TextWalk(ServiceBy(decode, account, limit), decode, HistoryPager(account, limit), EffectiveLimit(limit), tables, cursor);
  }

  /******* While rows are being inserted *******/

  ghost predicate Keeps(a: seq<Row>, b: seq<Row>) {
    forall r :: r in a ==> exists x :: x in b && x.account == r.account && PositionOf(x) == PositionOf(r)
  }

  // Between fetches rows may be added anywhere, and other columns may change.
  ghost predicate Growing(tables: seq<seq<Row>>) {
    && (forall k :: 0 <= k < |tables| ==> Table(tables[k]))
    && (forall k :: 0 <= k < |tables| - 1 ==> Keeps(tables[k], tables[k + 1]))
  }

  // Of two fetches that follow each other, the first does not return a full
  // page whose last row was created at the zero time.
  predicate AvoidsZero(pager: Pager, size: nat, tables: seq<seq<Row>>, from: Position)
    requires size >= 1
    decreases |tables|
  {
    |tables| > 1 && |pager(tables[0], from)| == size ==>
      var last := pager(tables[0], from)[size - 1];
      last.createdAt != ZERO_TIME && AvoidsZero(pager, size, tables[1..], PositionOf(last))
  }

  predicate HistoryAvoidsZero(tables: seq<seq<Row>>, account: seq<int>, limit: int) {
    AvoidsZero(HistoryPager(account, limit), EffectiveLimit(limit), tables, START)
  }

  ghost predicate Covers(rows: seq<Row>, r: Row) {
    exists x :: x in rows && PositionOf(x) == PositionOf(r)
  }

  ghost predicate FromTables(tables: seq<seq<Row>>, r: Row) {
    exists k :: 0 <= k < |tables| && r in tables[k]
  }

  lemma FromTail(tables: seq<seq<Row>>, r: Row)
    requires |tables| > 0 && FromTables(tables[1..], r)
    ensures FromTables(tables, r)
  {
    var k :| 0 <= k < |tables[1..]| && r in tables[1..][k];
    assert r in tables[k + 1];
  }

  lemma GrowingTail(tables: seq<seq<Row>>)
    requires Growing(tables) && |tables| > 0
    ensures Growing(tables[1..])
  {
    forall k | 0 <= k < |tables[1..]| - 1 ensures Keeps(tables[1..][k], tables[1..][k + 1]) {
      assert Keeps(tables[k + 1], tables[k + 2]);
    }
  }

  // The part of the page above the rest of the walk.
  lemma Stack(items: seq<Row>, rest: seq<Row>, last: Position)
    requires Descending(items) && Descending(rest) && |items| > 0 && PositionOf(items[|items| - 1]) == last
    requires forall r :: r in rest ==> Below(PositionOf(r), last)
    ensures Descending(items + rest)
  {
    var all := items + rest;
    forall i, j | 0 <= i < j < |all| ensures Below(PositionOf(all[j]), PositionOf(all[i])) {
      if i < |items| <= j {
        assert all[j] == rest[j - |items|] && all[j] in rest;
        BelowOrder(PositionOf(all[j]), last, PositionOf(all[i]));
      } else if j < |items| {
        assert all[j] == items[j] && all[i] == items[i];
      } else {
        assert all[j] == rest[j - |items|] && all[i] == rest[i - |items|];
      }
    }
  }

  // What a walk that starts below a position has to deliver.
  ghost predicate Delivers(tables: seq<seq<Row>>, account: seq<int>, from: Position, w: Walk) {
    && Descending(w.rows)
    && (forall r :: r in w.rows ==> Selected(r, account, from) && FromTables(tables, r))
    && (w.finished ==> |tables| > 0)
    && (w.finished ==> forall r :: r in tables[0] && Selected(r, account, from) ==> Covers(w.rows, r))
  }

  lemma {:induction false} WalkDelivers(pager: Pager, account: seq<int>, size: nat, tables: seq<seq<Row>>, from: Position)
    requires size >= 1 && PagesOf(pager, account, size)
    requires Growing(tables) && AvoidsZero(pager, size, tables, from)
    ensures Delivers(tables, account, from, WalkAt(pager, size, tables, from))
    decreases |tables|
  {
    if |tables| > 1 && |pager(tables[0], from)| == size {
      GrowingTail(tables);
      WalkDelivers(pager, account, size, tables[1..], PositionOf(pager(tables[0], from)[size - 1]));
    }
    if |tables| > 0 {
      OneFetch(pager, account, size, tables, from);
    }
  }

  lemma OneFetch(pager: Pager, account: seq<int>, size: nat, tables: seq<seq<Row>>, from: Position)
    requires |tables| > 0 && Growing(tables)
    requires size >= 1 && PageOfTable(tables[0], account, size, from, pager(tables[0], from))
    requires |tables| > 1 && |pager(tables[0], from)| == size ==>
               var last := pager(tables[0], from)[size - 1];
               && last.createdAt != ZERO_TIME
               && Delivers(tables[1..], account, PositionOf(last), WalkAt(pager, size, tables[1..], PositionOf(last)))
    ensures Delivers(tables, account, from, WalkAt(pager, size, tables, from))
  {
    var items := pager(tables[0], from);
    if |items| == size {
      FullPage(tables, account, size, from, items, WalkAt(pager, size, tables[1..], PositionOf(items[size - 1])));
    } else {
      LastPage(tables, account, size, from, items);
    }
  }

  lemma LastPage(tables: seq<seq<Row>>, account: seq<int>, size: nat, from: Position, items: seq<Row>)
    requires |tables| > 0 && |items| != size && PageOfTable(tables[0], account, size, from, items)
    ensures Delivers(tables, account, from, Walk(items, true))
  {
    forall r | r in items ensures FromTables(tables, r) {
      assert r in tables[0];
    }
    forall r | r in tables[0] && Selected(r, account, from) ensures Covers(items, r) {
      assert r in items;
    }
  }

  lemma FullPage(tables: seq<seq<Row>>, account: seq<int>, size: nat, from: Position, items: seq<Row>, rest: Walk)
    requires Growing(tables) && |tables| > 0 && |items| == size > 0 && PageOfTable(tables[0], account, size, from, items)
    requires
      var last := items[|items| - 1];
      if |tables| > 1 then last.createdAt != ZERO_TIME && Delivers(tables[1..], account, PositionOf(last), rest)
      else rest == Walk([], false)
    ensures Delivers(tables, account, from, Walk(items + rest.rows, rest.finished))
  {
    var last := items[|items| - 1];
    assert last in items && last in tables[0];
    Stack(items, rest.rows, PositionOf(last));
    forall r | r in items + rest.rows ensures Selected(r, account, from) && FromTables(tables, r) {
      if r in items {
        assert r in tables[0];
      } else {
        FromTail(tables, r);
        BelowOrder(PositionOf(r), PositionOf(last), from);
      }
    }
    if rest.finished {
      forall r | r in tables[0] && Selected(r, account, from) ensures Covers(items + rest.rows, r) {
        CoveredLater(tables, account, size, from, items, rest, r);
      }
    }
  }

  lemma CoveredLater(tables: seq<seq<Row>>, account: seq<int>, size: nat, from: Position, items: seq<Row>, rest: Walk, r: Row)
    requires Growing(tables) && |tables| > 1 && |items| == size > 0 && PageOfTable(tables[0], account, size, from, items) && rest.finished
    requires Delivers(tables[1..], account, PositionOf(items[|items| - 1]), rest)
    requires r in tables[0] && Selected(r, account, from)
    ensures Covers(items + rest.rows, r)
  {
    if r in items {
      assert r in items + rest.rows;
    } else {
      assert Keeps(tables[0], tables[1]);
      var x :| x in tables[1] && x.account == r.account && PositionOf(x) == PositionOf(r);
      assert x in tables[1..][0];
      assert Covers(rest.rows, x);
      var y :| y in rest.rows && PositionOf(y) == PositionOf(x);
      assert y in items + rest.rows;
    }
  }

  // Stable paging. However the table grows between the fetches of a walk, the
  // pages together are strictly descending (so nothing comes twice) and hold
  // only rows of this account; and once the walk has finished they include
  // every row of the account that was there when it began.
  lemma StablePaging(tables: seq<seq<Row>>, account: seq<int>, limit: int, walk: Walk)
    requires Growing(tables) && HistoryAvoidsZero(tables, account, limit) && walk == WalkFrom(tables, account, limit, "")
    ensures Descending(walk.rows) && NewestFirst(walk.rows)
    ensures forall i, j :: 0 <= i < j < |walk.rows| ==> PositionOf(walk.rows[i]) != PositionOf(walk.rows[j])
    ensures forall r :: r in walk.rows ==> r.account == account && FromTables(tables, r)
    ensures walk.finished ==> |tables| > 0 && forall r :: r in tables[0] && r.account == account ==> Covers(walk.rows, r)
  {
    HistoryWalksByPosition(tables, account, limit);
    HistoryPages(account, limit);
    WalkDelivers(HistoryPager(account, limit), account, EffectiveLimit(limit), tables, START);
    var rows := walk.rows;
    forall i, j | 0 <= i < j < |rows| ensures PositionOf(rows[i]) != PositionOf(rows[j]) {
      BelowOrder(PositionOf(rows[j]), PositionOf(rows[i]), START);
    }
    forall i | 0 <= i < |rows| ensures Cursor.Valid(PositionOf(rows[i])) {
      assert rows[i] in rows;
      var k :| 0 <= k < |tables| && rows[i] in tables[k];
      InTable(tables[k], rows[i]);
    }
    DescendingIsNewestFirst(rows);
  }

  // The condition is exact: a fetch after a full page that ends on the zero
  // time starts again at the newest row.
  lemma StablePagingExactly(tables: seq<seq<Row>>, account: seq<int>, limit: int)
    requires Growing(tables)
    ensures Descending(WalkFrom(tables, account, limit, "").rows) <==> HistoryAvoidsZero(tables, account, limit)
  {
    HistoryWalksByPosition(tables, account, limit);
    HistoryPages(account, limit);
    DescendsExactly(HistoryPager(account, limit), account, EffectiveLimit(limit), tables, START);
  }

  lemma {:induction false} DescendsExactly(pager: Pager, account: seq<int>, size: nat, tables: seq<seq<Row>>, from: Position)
    requires size >= 1 && PagesOf(pager, account, size) && Growing(tables)
    ensures Descending(WalkAt(pager, size, tables, from).rows) <==> AvoidsZero(pager, size, tables, from)
    decreases |tables|
  {
    if AvoidsZero(pager, size, tables, from) {
      WalkDelivers(pager, account, size, tables, from);
    } else {
      var items := pager(tables[0], from);
      var last := items[size - 1];
      assert PageOfTable(tables[0], account, size, from, items);
      GrowingTail(tables);
      if last.createdAt == ZERO_TIME {
        assert last in items;
        StartsAgain(pager, account, size, tables, last);
      } else {
        DescendsExactly(pager, account, size, tables[1..], PositionOf(last));
      }
      NotDescending(items, WalkAt(pager, size, tables[1..], PositionOf(last)).rows);
    }
  }

  lemma StartsAgain(pager: Pager, account: seq<int>, size: nat, tables: seq<seq<Row>>, last: Row)
    requires size >= 1 && PagesOf(pager, account, size) && Growing(tables) && |tables| > 1
    requires last in tables[0] && last.account == account && last.createdAt == ZERO_TIME
    ensures
      var rest := WalkAt(pager, size, tables[1..], PositionOf(last)).rows;
      |rest| > 0 && !Below(PositionOf(rest[0]), PositionOf(last))
  {
    assert Keeps(tables[0], tables[1]);
    var x :| x in tables[1] && x.account == account && PositionOf(x) == PositionOf(last);
    var items := pager(tables[1], PositionOf(last));
    assert PageOfTable(tables[1], account, size, PositionOf(last), items);
    FirstIsNewest(tables[1], account, size, PositionOf(last), items, x);
    assert tables[1..][0] == tables[1];
  }

  // No row that qualifies is above the first row of a page.
  lemma FirstIsNewest(table: seq<Row>, account: seq<int>, size: nat, from: Position, items: seq<Row>, x: Row)
    requires PageOfTable(table, account, size, from, items) && x in table && Selected(x, account, from)
    ensures |items| > 0 && !Below(PositionOf(items[0]), PositionOf(x))
  {
    if x in items {
      var k :| 0 <= k < |items| && items[k] == x;
      BelowOrder(PositionOf(x), PositionOf(items[0]), PositionOf(x));
    } else {
      BelowOrder(PositionOf(x), PositionOf(items[|items| - 1]), PositionOf(items[0]));
      BelowOrder(PositionOf(x), PositionOf(items[0]), PositionOf(x));
    }
  }

  lemma NotDescending(items: seq<Row>, rest: seq<Row>)
    requires !Descending(rest) ||
             (|items| > 0 && |rest| > 0 && !Below(PositionOf(rest[0]), PositionOf(items[|items| - 1])))
    ensures !Descending(items + rest)
  {
    var all, n := items + rest, |items|;
    assert forall k :: 0 <= k < |rest| ==> all[n + k] == rest[k];
    if !Descending(rest) {
      var i, j :| 0 <= i < j < |rest| && !Below(PositionOf(rest[j]), PositionOf(rest[i]));
      assert !Below(PositionOf(all[n + j]), PositionOf(all[n + i]));
    } else {
      assert !Below(PositionOf(all[n]), PositionOf(all[n - 1]));
    }
  }

  // It holds of every account without rows created at the zero time.
  lemma NoZeroTimeSuffices(tables: seq<seq<Row>>, account: seq<int>, limit: int)
    requires Growing(tables) && NoZeroTime(tables, account)
    ensures HistoryAvoidsZero(tables, account, limit)
  {
    HistoryPages(account, limit);
    NoZeroTimeAvoids(HistoryPager(account, limit), account, EffectiveLimit(limit), tables, START);
  }

  predicate NoZeroTime(tables: seq<seq<Row>>, account: seq<int>) {
    forall k, r | 0 <= k < |tables| && r in tables[k] :: r.account == account ==> r.createdAt != ZERO_TIME
  }

  lemma {:induction false} NoZeroTimeAvoids(pager: Pager, account: seq<int>, size: nat, tables: seq<seq<Row>>, from: Position)
    requires size >= 1 && PagesOf(pager, account, size) && Growing(tables) && NoZeroTime(tables, account)
    ensures AvoidsZero(pager, size, tables, from)
    decreases |tables|
  {
    if |tables| > 1 && |pager(tables[0], from)| == size {
      var last := pager(tables[0], from)[size - 1];
      assert PageOfTable(tables[0], account, size, from, pager(tables[0], from));
      assert last in pager(tables[0], from) && last in tables[0];
      GrowingTail(tables);
      forall k, r | 0 <= k < |tables[1..]| && r in tables[1..][k] ensures r.account == account ==> r.createdAt != ZERO_TIME {
        assert r in tables[k + 1];
      }
      NoZeroTimeAvoids(pager, account, size, tables[1..], PositionOf(last));
    }
  }
}
