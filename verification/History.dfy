// Keyset pagination of an account's transaction history.
module History {
  import opened Common
  import opened Rfc3339
  import UuidText
  import Cursor
  import opened Timeline

  const DEFAULT_HISTORY_LIMIT := 20
  const MAX_HISTORY_LIMIT := 100

  // The Go zero time, which the query takes for "no cursor".
  const ZERO_TIME := Instant(1, 1, 1, 0, 0, 0, 0)
  const NIL_UUID: seq<int> := [0, 0, 0, 0, 0, 0, 0, 0, 0, 0, 0, 0, 0, 0, 0, 0]

  // A transaction row: the columns that place it in the history, and the rest.
  datatype Row = Row(id: seq<int>, account: seq<int>, createdAt: Instant, details: Details)

  datatype Details = Details(
    userId: seq<int>, merchantId: Option<seq<int>>, amount: int, status: string, idempotencyKey: string,
    legacyReferenceId: Option<string>, failureReason: Option<string>,
    requestedAt: Instant, processedAt: Option<Instant>, updatedAt: Instant)

  type Position = Cursor.HistoryCursor

  function PositionOf(r: Row): Position { Cursor.HistoryCursor(r.createdAt, r.id) }

  /******* The order *******/

  function Fields(t: Instant): seq<int> { [t.year, t.month, t.day, t.hour, t.minute, t.second, t.nanos] }

  // Lexicographic order; a proper prefix comes first.
  predicate Lex(a: seq<int>, b: seq<int>) {
    |b| > 0 && (|a| == 0 || a[0] < b[0] || (a[0] == b[0] && Lex(a[1..], b[1..])))
  }

  predicate Earlier(a: Instant, b: Instant) { Lex(Fields(a), Fields(b)) }

  // The row comparison of the query: (created_at, id), both ascending.
  predicate Below(a: Position, b: Position) {
    Earlier(a.createdAt, b.createdAt) || (a.createdAt == b.createdAt && Lex(a.id, b.id))
  }

  lemma {:induction false} LexOrder(a: seq<int>, b: seq<int>, c: seq<int>)
    ensures !Lex(a, a)
    ensures Lex(a, b) && Lex(b, c) ==> Lex(a, c)
    ensures a != b ==> Lex(a, b) || Lex(b, a)
    ensures !(Lex(a, b) && Lex(b, a))
    decreases |a| + |b| + |c|
  {
    if |a| > 0 || |b| > 0 || |c| > 0 {
      LexOrder(if |a| > 0 then a[1..] else a, if |b| > 0 then b[1..] else b, if |c| > 0 then c[1..] else c);
      if |a| > 0 && |b| > 0 && a[0] == b[0] && a[1..] == b[1..] {
        assert a == [a[0]] + a[1..] && b == [b[0]] + b[1..];
      }
    }
  }

  lemma FieldsInjective(a: Instant, b: Instant)
    ensures Fields(a) == Fields(b) ==> a == b
  {
    if Fields(a) == Fields(b) {
      assert Fields(a)[0] == Fields(b)[0] && Fields(a)[1] == Fields(b)[1] && Fields(a)[2] == Fields(b)[2];
      assert Fields(a)[3] == Fields(b)[3] && Fields(a)[4] == Fields(b)[4] && Fields(a)[5] == Fields(b)[5];
      assert Fields(a)[6] == Fields(b)[6];
    }
  }

  // Below is a strict total order.
  lemma BelowOrder(a: Position, b: Position, c: Position)
    ensures !Below(a, a)
    ensures Below(a, b) && Below(b, c) ==> Below(a, c)
    ensures a != b ==> Below(a, b) || Below(b, a)
    ensures !(Below(a, b) && Below(b, a))
  {
    LexOrder(Fields(a.createdAt), Fields(b.createdAt), Fields(c.createdAt));
    LexOrder(a.id, b.id, c.id);
    FieldsInjective(a.createdAt, b.createdAt);
  }

  /******* What the order means *******/

  lemma LexHead(a: seq<int>, b: seq<int>)
    requires |a| > 0 && |b| > 0
    ensures Lex(a, b) <==> a[0] < b[0] || (a[0] == b[0] && Lex(a[1..], b[1..]))
  {
  }

  // Fields compare like the time of day once the dates agree.
  lemma FieldOrder(a: Instant, b: Instant)
    ensures Earlier(a, b) <==>
            || DateBefore(a, b)
            || (SameDate(a, b) &&
                (a.hour < b.hour || (a.hour == b.hour &&
                 (a.minute < b.minute || (a.minute == b.minute &&
                  (a.second < b.second || (a.second == b.second && a.nanos < b.nanos)))))))
  {
    var x, y := Fields(a), Fields(b);
    LexHead(x, y);
    LexHead(x[1..], y[1..]);
    LexHead(x[2..], y[2..]);
    LexHead(x[3..], y[3..]);
    LexHead(x[4..], y[4..]);
    LexHead(x[5..], y[5..]);
    LexHead(x[6..], y[6..]);
    assert x[1..][1..] == x[2..] && x[2..][1..] == x[3..] && x[3..][1..] == x[4..];
    assert x[4..][1..] == x[5..] && x[5..][1..] == x[6..] && x[6..][1..] == [];
    assert y[1..][1..] == y[2..] && y[2..][1..] == y[3..] && y[3..][1..] == y[4..];
    assert y[4..][1..] == y[5..] && y[5..][1..] == y[6..] && y[6..][1..] == [];
  }

  lemma EarlierIsLess(a: Instant, b: Instant)
    requires Rfc3339.Valid(a) && Rfc3339.Valid(b) && Earlier(a, b)
    ensures Nanos(a) < Nanos(b)
  {
    FieldOrder(a, b);
    if DateBefore(a, b) {
      DateDecides(a, b);
    } else {
      TimeDecides(a, b);
    }
  }

  // Earlier is earlier on the line of time.
  lemma EarlierExactly(a: Instant, b: Instant)
    requires Rfc3339.Valid(a) && Rfc3339.Valid(b)
    ensures Earlier(a, b) <==> Nanos(a) < Nanos(b)
    ensures a == b <==> Nanos(a) == Nanos(b)
  {
    LexOrder(Fields(a), Fields(b), Fields(a));
    FieldsInjective(a, b);
    if Earlier(a, b) {
      EarlierIsLess(a, b);
    } else if Earlier(b, a) {
      EarlierIsLess(b, a);
    }
  }

  lemma {:induction false} LexIsLess(a: seq<int>, b: seq<int>)
    requires |a| == |b| && Timeline.AreBytes(a) && Timeline.AreBytes(b) && Lex(a, b)
    ensures Number(a) < Number(b)
    decreases |a|
  {
    NumberBound(a[1..]);
    NumberBound(b[1..]);
    if a[0] < b[0] {
      LeadingDecides(a[0], b[0], Pow256(|a| - 1), Number(a[1..]), Number(b[1..]));
    } else {
      LexIsLess(a[1..], b[1..]);
    }
  }

  // Identifiers are ordered as the numbers their bytes spell.
  lemma LexExactly(a: seq<int>, b: seq<int>)
    requires UuidText.IsUuid(a) && UuidText.IsUuid(b)
    ensures Lex(a, b) <==> Number(a) < Number(b)
    ensures a == b <==> Number(a) == Number(b)
  {
    LexOrder(a, b, a);
    if Lex(a, b) {
      LexIsLess(a, b);
    } else if Lex(b, a) {
      LexIsLess(b, a);
    }
  }

  // Older: created before, or at the same instant under a smaller identifier.
  predicate Older(p: Position, q: Position)
    requires Cursor.Valid(p) && Cursor.Valid(q)
  {
    Nanos(p.createdAt) < Nanos(q.createdAt) || (Nanos(p.createdAt) == Nanos(q.createdAt) && Number(p.id) < Number(q.id))
  }

  lemma BelowExactly(p: Position, q: Position)
    requires Cursor.Valid(p) && Cursor.Valid(q)
    ensures Below(p, q) <==> Older(p, q)
  {
    EarlierExactly(p.createdAt, q.createdAt);
    LexExactly(p.id, q.id);
  }

  // Every row is followed by older ones only.
  ghost predicate NewestFirst(rows: seq<Row>) {
    && (forall i :: 0 <= i < |rows| ==> Cursor.Valid(PositionOf(rows[i])))
    && (forall i, j :: 0 <= i < j < |rows| ==> Older(PositionOf(rows[j]), PositionOf(rows[i])))
  }

  lemma DescendingIsNewestFirst(rows: seq<Row>)
    requires Descending(rows) && forall i :: 0 <= i < |rows| ==> Cursor.Valid(PositionOf(rows[i]))
    ensures NewestFirst(rows)
  {
    forall i, j | 0 <= i < j < |rows| ensures Older(PositionOf(rows[j]), PositionOf(rows[i])) {
      assert Below(PositionOf(rows[j]), PositionOf(rows[i]));
      BelowExactly(PositionOf(rows[j]), PositionOf(rows[i]));
    }
  }

  /******* The query *******/

  // WHERE account_id = $1 AND ($2 = zero time OR (created_at, id) below ($2, $3)).
  predicate Selected(r: Row, account: seq<int>, from: Position) {
    r.account == account && (from.createdAt == ZERO_TIME || Below(PositionOf(r), from))
  }

  function Filter(table: seq<Row>, account: seq<int>, from: Position): seq<Row> {
    if |table| == 0 then []
    else (if Selected(table[0], account, from) then [table[0]] else []) + Filter(table[1..], account, from)
  }

  // ORDER BY created_at DESC, id DESC.
  function Insert(r: Row, sorted: seq<Row>): seq<Row> {
    if |sorted| == 0 || Below(PositionOf(sorted[0]), PositionOf(r)) then [r] + sorted
    else [sorted[0]] + Insert(r, sorted[1..])
  }

  function SortDescending(rows: seq<Row>): seq<Row> {
    if |rows| == 0 then [] else Insert(rows[0], SortDescending(rows[1..]))
  }

  function Take(rows: seq<Row>, limit: nat): seq<Row> {
    if |rows| <= limit then rows else rows[..limit]
  }

  function ListTransactions(table: seq<Row>, account: seq<int>, from: Position, limit: nat): seq<Row> {
    Take(SortDescending(Filter(table, account, from)), limit)
  }

  /******* What the query returns *******/

  // Identifiers are unique, and every row can be written into a cursor.
  ghost predicate Table(table: seq<Row>) {
    && (forall i, j :: 0 <= i < j < |table| ==> table[i].id != table[j].id)
    && (forall i :: 0 <= i < |table| ==> Cursor.Valid(PositionOf(table[i])))
  }

  ghost predicate Descending(rows: seq<Row>) {
    forall i, j :: 0 <= i < j < |rows| ==> Below(PositionOf(rows[j]), PositionOf(rows[i]))
  }

  lemma {:induction false} FilterMeaning(table: seq<Row>, account: seq<int>, from: Position)
    requires Table(table)
    ensures forall r :: r in Filter(table, account, from) <==> r in table && Selected(r, account, from)
    ensures Table(Filter(table, account, from))
  {
    if |table| > 0 {
      TableTail(table);
      FilterMeaning(table[1..], account, from);
      var rest := Filter(table[1..], account, from);
      assert table == [table[0]] + table[1..];
      forall r | r in rest ensures r.id != table[0].id {
        assert r in table[1..];
        var k :| 0 <= k < |table[1..]| && table[1..][k] == r;
        assert table[k + 1] == r;
      }
      if Selected(table[0], account, from) {
        TableCons(table[0], rest);
      } else {
        assert Filter(table, account, from) == rest;
      }
    }
  }

  lemma TableTail(table: seq<Row>)
    requires Table(table) && |table| > 0
    ensures Table(table[1..]) && Cursor.Valid(PositionOf(table[0]))
    ensures table[0] !in table[1..]
    ensures forall r :: r in table <==> r == table[0] || r in table[1..]
  {
    assert table == [table[0]] + table[1..];
    assert forall k :: 0 <= k < |table[1..]| ==> table[1..][k] == table[k + 1];
  }

  lemma TableCons(r: Row, rest: seq<Row>)
    requires Table(rest) && Cursor.Valid(PositionOf(r)) && forall x :: x in rest ==> x.id != r.id
    ensures Table([r] + rest)
  {
    var t := [r] + rest;
    forall i, j | 0 <= i < j < |t| ensures t[i].id != t[j].id {
      assert t[j] == rest[j - 1];
      assert t[j] in rest;
    }
  }

  lemma {:induction false} InsertMeaning(r: Row, sorted: seq<Row>)
    requires Descending(sorted) && forall x :: x in sorted ==> PositionOf(x) != PositionOf(r)
    ensures Descending(Insert(r, sorted)) && |Insert(r, sorted)| == |sorted| + 1
    ensures forall x :: x in Insert(r, sorted) <==> x == r || x in sorted
  {
    if |sorted| == 0 {
    } else if Below(PositionOf(sorted[0]), PositionOf(r)) {
      DescendingCons(r, sorted);
    } else {
      assert sorted == [sorted[0]] + sorted[1..];
      assert Descending(sorted[1..]);
      InsertMeaning(r, sorted[1..]);
      assert sorted[0] in sorted;
      BelowOrder(PositionOf(r), PositionOf(sorted[0]), PositionOf(r));
      forall x | x in Insert(r, sorted[1..]) ensures Below(PositionOf(x), PositionOf(sorted[0])) {
        if x != r {
          var k :| 0 <= k < |sorted[1..]| && sorted[1..][k] == x;
          assert sorted[k + 1] == x;
        }
      }
      HeadAbove(sorted[0], Insert(r, sorted[1..]));
    }
  }

  // A row above the head of a descending list is above all of it.
  lemma DescendingCons(r: Row, sorted: seq<Row>)
    requires Descending(sorted) && |sorted| > 0 && Below(PositionOf(sorted[0]), PositionOf(r))
    ensures Descending([r] + sorted)
  {
    forall x | x in sorted ensures Below(PositionOf(x), PositionOf(r)) {
      var k :| 0 <= k < |sorted| && sorted[k] == x;
      BelowOrder(PositionOf(x), PositionOf(sorted[0]), PositionOf(r));
    }
    HeadAbove(r, sorted);
  }

  lemma HeadAbove(r: Row, rest: seq<Row>)
    requires Descending(rest) && forall x :: x in rest ==> Below(PositionOf(x), PositionOf(r))
    ensures Descending([r] + rest)
  {
    var t := [r] + rest;
    forall i, j | 0 <= i < j < |t| ensures Below(PositionOf(t[j]), PositionOf(t[i])) {
      assert t[j] == rest[j - 1] && t[j] in rest;
    }
  }

  lemma {:induction false} SortMeaning(rows: seq<Row>)
    requires Table(rows)
    ensures Descending(SortDescending(rows)) && |SortDescending(rows)| == |rows|
    ensures forall r :: r in SortDescending(rows) <==> r in rows
  {
    if |rows| > 0 {
      TableTail(rows);
      SortMeaning(rows[1..]);
      forall x | x in SortDescending(rows[1..]) ensures PositionOf(x) != PositionOf(rows[0]) {
        assert x in rows[1..];
        var k :| 0 <= k < |rows[1..]| && rows[1..][k] == x;
        assert rows[k + 1] == x;
      }
      InsertMeaning(rows[0], SortDescending(rows[1..]));
    }
  }

  // The matching rows of a table, newest first.
  function Matching(table: seq<Row>, account: seq<int>, from: Position): seq<Row> {
    SortDescending(Filter(table, account, from))
  }

  lemma MatchingMeaning(table: seq<Row>, account: seq<int>, from: Position)
    requires Table(table)
    ensures Descending(Matching(table, account, from))
    ensures forall r :: r in Matching(table, account, from) <==> r in table && Selected(r, account, from)
  {
    FilterMeaning(table, account, from);
    SortMeaning(Filter(table, account, from));
  }

  /******* One page *******/

  function EffectiveLimit(limit: int): (n: nat)
    ensures 1 <= n <= MAX_HISTORY_LIMIT
    ensures 1 <= limit <= MAX_HISTORY_LIMIT ==> n == limit
    ensures limit <= 0 ==> n == DEFAULT_HISTORY_LIMIT
    ensures limit > MAX_HISTORY_LIMIT ==> n == MAX_HISTORY_LIMIT
  {
    var n := if limit <= 0 then DEFAULT_HISTORY_LIMIT else limit;
    if n > MAX_HISTORY_LIMIT then MAX_HISTORY_LIMIT else n
  }

  // The endpoint's own check: refuse non-positive limits, clip large ones.
  function NormalizeLimit(limit: int): (r: Option<int>)
    ensures r.None? <==> limit <= 0
    ensures r.Some? ==> r.value == EffectiveLimit(limit)
  {
    if limit <= 0 then None else if limit > MAX_HISTORY_LIMIT then Some(MAX_HISTORY_LIMIT) else Some(limit)
  }

  predicate IsSpace(c: char) {
    var n := c as int;
    9 <= n <= 13 || n == 32 || n == 0x85 || n == 0xA0 || n == 0x1680 || 0x2000 <= n <= 0x200A ||
    n == 0x2028 || n == 0x2029 || n == 0x202F || n == 0x205F || n == 0x3000
  }

  // What is left after trimming is empty.
  predicate Blank(s: string) { forall k :: 0 <= k < |s| ==> IsSpace(s[k]) }

  // The position a cursor text stands for; None for malformed text.
  function StartOf(cursor: string): Option<Position> {
    if Blank(cursor) then Some(Cursor.HistoryCursor(ZERO_TIME, NIL_UUID)) else Cursor.Decode(cursor)
  }

  // White space alone starts at the beginning.
  lemma BlankStarts(cursor: string)
    requires forall k :: 0 <= k < |cursor| ==> cursor[k] == ' ' || cursor[k] == '\t' || cursor[k] == '\n' || cursor[k] == '\r'
    ensures StartOf(cursor) == Some(Cursor.HistoryCursor(Instant(1, 1, 1, 0, 0, 0, 0), NIL_UUID))
  {
  }

  datatype Page = Page(items: seq<Row>, nextCursor: Option<string>)

  // The cursor text of a position. Every row of a Table has one.
  function CursorText(p: Position): string {
    if Cursor.Valid(p) then Cursor.Encode(p) else ""
  }

  function PageOf(items: seq<Row>, limit: nat): Page {
    if |items| == limit && limit > 0 then Page(items, Some(CursorText(PositionOf(items[|items| - 1])))) else Page(items, None)
  }

  function PageFrom(table: seq<Row>, account: seq<int>, limit: int, from: Position): Page {
    PageOf(ListTransactions(table, account, from, EffectiveLimit(limit)), EffectiveLimit(limit))
  }

  // The position to start from: the beginning for a blank cursor, otherwise
  // what the cursor decodes to.
  method ReadCursor(cursor: string) returns (from: Option<Position>)
    ensures from == StartOf(cursor)
  {
    if Blank(cursor) {
      return Some(Cursor.HistoryCursor(ZERO_TIME, NIL_UUID));
    }
    var decoded := Cursor.Decode(cursor);
    return decoded;
  }

  // Copies the rows one by one into the page's items.
  method CopyRows(rows: seq<Row>) returns (items: seq<Row>)
    ensures items == rows
  {
    items := [];
    for k := 0 to |rows|
      invariant items == rows[..k]
    {
      items := items + [rows[k]];
    }
  }

  // The service call. databaseOk says whether the query succeeds.
  method ListByAccount(table: seq<Row>, account: seq<int>, requested: int, cursor: string, databaseOk: bool) returns (page: Option<Page>)
    ensures page.None? <==> StartOf(cursor).None? || !databaseOk
    ensures page.Some? ==> page.value == PageFrom(table, account, requested, StartOf(cursor).value)
    ensures page.Some? && Table(table) ==> NewestFirst(page.value.items)
  {
    var limit := requested;
    if limit <= 0 {
      limit := DEFAULT_HISTORY_LIMIT;
    }
    if limit > MAX_HISTORY_LIMIT {
      limit := MAX_HISTORY_LIMIT;
    }
    var from := ReadCursor(cursor);
    if from.None? {
      return None;
    }
    if !databaseOk {
      return None;
    }
    var items := CopyRows(ListTransactions(table, account, from.value, limit));
    var next: Option<string> := None;
    if |items| == limit {
      next := Some(CursorText(PositionOf(items[|items| - 1])));
    }
    page := Some(Page(items, next));
    if Table(table) {
      PageNewestFirst(table, account, requested, from.value);
    }
  }

  // A cursor made by one page is read by the next as the position of that
  // page's last row.
  lemma NextStartsBelow(p: Position)
    requires Cursor.Valid(p)
    ensures StartOf(Cursor.Encode(p)) == Some(p)
  {
    Cursor.RoundTrip(p);
    Cursor.EncodeInjective(p, p);
    Cursor.EncodeVisible(p);
    assert !IsSpace(Cursor.Encode(p)[0]);
  }

  // A page holds the newest of the rows below its cursor: it is descending,
  // every row on it qualifies, and any qualifying row it leaves out is below
  // all of it, which can only happen when it is full.
  lemma PageMeaning(table: seq<Row>, account: seq<int>, limit: int, from: Position)
    requires Table(table)
    ensures
      var page := PageFrom(table, account, limit, from);
      && Descending(page.items) && |page.items| <= EffectiveLimit(limit)
      && (forall r :: r in page.items ==> r in table && Selected(r, account, from))
      && (page.nextCursor.Some? <==> |page.items| == EffectiveLimit(limit))
      && (forall r :: r in table && Selected(r, account, from) && r !in page.items ==>
            page.nextCursor.Some? && Below(PositionOf(r), PositionOf(page.items[|page.items| - 1])))
  {
    MatchingMeaning(table, account, from);
    var all := Matching(table, account, from);
    var page := PageFrom(table, account, limit, from);
    var n := |page.items|;
    assert page.items == all[..n];
    forall r | r in table && Selected(r, account, from) && r !in page.items
      ensures page.nextCursor.Some? && Below(PositionOf(r), PositionOf(page.items[n - 1]))
    {
      assert r in all;
      var k :| 0 <= k < |all| && all[k] == r;
      assert all[..n] == page.items;
      assert forall j :: 0 <= j < n ==> all[j] in page.items;
    }
  }

  // The row belongs to the account and, unless the listing starts at the
  // beginning, is older than where it starts.
  predicate Asked(r: Row, account: seq<int>, from: Position)
    requires Cursor.Valid(from) && Cursor.Valid(PositionOf(r))
  {
    r.account == account && (from.createdAt == Instant(1, 1, 1, 0, 0, 0, 0) || Older(PositionOf(r), from))
  }

  // The same of a page in terms of time: it lists the newest of the rows asked
  // for, newest first; any row it leaves out is older than all of it, which
  // happens only when it is full.
  lemma PageNewestFirst(table: seq<Row>, account: seq<int>, limit: int, from: Position)
    requires Table(table) && Cursor.Valid(from)
    ensures
      var page := PageFrom(table, account, limit, from);
      && NewestFirst(page.items)
      && (forall k :: 0 <= k < |page.items| ==> page.items[k] in table && Asked(page.items[k], account, from))
      && (forall i, k :: 0 <= i < |table| && Asked(table[i], account, from) && table[i] !in page.items && 0 <= k < |page.items| ==>
            Older(PositionOf(table[i]), PositionOf(page.items[k])))
      && (forall i :: 0 <= i < |table| && Asked(table[i], account, from) && table[i] !in page.items ==>
            |page.items| == EffectiveLimit(limit))
  {
    var items := PageFrom(table, account, limit, from).items;
    PageMeaning(table, account, limit, from);
    forall k | 0 <= k < |items| ensures Cursor.Valid(PositionOf(items[k])) && items[k] in table && Asked(items[k], account, from) {
      assert items[k] in items;
      InTable(table, items[k]);
      BelowExactly(PositionOf(items[k]), from);
    }
    DescendingIsNewestFirst(items);
    forall i | 0 <= i < |table| && Asked(table[i], account, from) && table[i] !in items
      ensures |items| == EffectiveLimit(limit)
      ensures forall k :: 0 <= k < |items| ==> Older(PositionOf(table[i]), PositionOf(items[k]))
    {
      BelowExactly(PositionOf(table[i]), from);
      assert table[i] in table && Selected(table[i], account, from);
      LeftOutIsOlder(items, table[i]);
    }
  }

  lemma LeftOutIsOlder(items: seq<Row>, r: Row)
    requires NewestFirst(items) && Cursor.Valid(PositionOf(r)) && |items| > 0
    requires Below(PositionOf(r), PositionOf(items[|items| - 1]))
    ensures forall k :: 0 <= k < |items| ==> Older(PositionOf(r), PositionOf(items[k]))
  {
    BelowExactly(PositionOf(r), PositionOf(items[|items| - 1]));
  }

  lemma InTable(table: seq<Row>, r: Row)
    requires Table(table) && r in table
    ensures Cursor.Valid(PositionOf(r))
  {
    var k :| 0 <= k < |table| && table[k] == r;
  }
}
