// Walks over a table that does not change, compared with the sorted list.
module HistoryList {
  import opened Common
  import opened Division
  import opened Rfc3339
  import opened History
  import opened HistoryWalk
  import Cursor

  function Repeat(table: seq<Row>, n: nat): (r: seq<seq<Row>>)
    ensures |r| == n && forall k :: 0 <= k < n ==> r[k] == table
  {
    if n == 0 then [] else [table] + Repeat(table, n - 1)
  }

  // The account's rows, newest first: the simple list a walk should agree with.
  function Listing(table: seq<Row>, account: seq<int>): seq<Row> { Matching(table, account, START) }

  lemma {:induction false} DescendingUnique(a: seq<Row>, b: seq<Row>)
    requires Descending(a) && Descending(b) && forall r :: r in a <==> r in b
    ensures a == b
    decreases |a| + |b|
  {
    FirstIsIn(a);
    FirstIsIn(b);
    if |a| > 0 && |b| > 0 {
      HeadIsGreatest(a, b);
      HeadIsGreatest(b, a);
      BelowOrder(PositionOf(a[0]), PositionOf(b[0]), PositionOf(a[0]));
      TailElements(a);
      TailElements(b);
      DescendingUnique(a[1..], b[1..]);
      assert a == [a[0]] + a[1..] && b == [b[0]] + b[1..];
    }
  }

  lemma FirstIsIn(a: seq<Row>)
    ensures |a| > 0 ==> a[0] in a
  {
  }

  lemma HeadIsGreatest(a: seq<Row>, b: seq<Row>)
    requires Descending(a) && |a| > 0 && |b| > 0 && forall r :: r in a <==> r in b
    ensures b[0] == a[0] || Below(PositionOf(b[0]), PositionOf(a[0]))
  {
    assert b[0] in a;
    var k :| 0 <= k < |a| && a[k] == b[0];
  }

  lemma TailElements(a: seq<Row>)
    requires Descending(a) && |a| > 0
    ensures Descending(a[1..])
    ensures forall r :: r in a[1..] <==> r in a && r != a[0]
  {
    assert a == [a[0]] + a[1..];
    forall r | r in a[1..] ensures r != a[0] {
      var k :| 0 <= k < |a[1..]| && a[1..][k] == r;
      assert Below(PositionOf(a[k + 1]), PositionOf(a[0]));
      BelowOrder(PositionOf(a[0]), PositionOf(a[0]), PositionOf(a[0]));
    }
  }

  // The matching rows below a listed row are the rest of the listing.
  lemma MatchingBelow(table: seq<Row>, account: seq<int>, m: nat)
    requires Table(table) && 0 < m <= |Listing(table, account)|
    requires Listing(table, account)[m - 1].createdAt != ZERO_TIME
    ensures Matching(table, account, PositionOf(Listing(table, account)[m - 1])) == Listing(table, account)[m..]
  {
    var all := Listing(table, account);
    var from := PositionOf(all[m - 1]);
    MatchingMeaning(table, account, START);
    MatchingMeaning(table, account, from);
    forall r | r in all[m..] ensures r in Matching(table, account, from) {
      var k :| 0 <= k < |all[m..]| && all[m..][k] == r;
      assert r == all[m + k] && r in all;
      assert Below(PositionOf(all[m + k]), PositionOf(all[m - 1]));
    }
    forall r | r in Matching(table, account, from) ensures r in all[m..] {
      assert r in all;
      var k :| 0 <= k < |all| && all[k] == r;
      BelowOrder(PositionOf(r), from, from);
      assert forall j :: 0 <= j < m - 1 ==> Below(from, PositionOf(all[j]));
      assert all[m..][k - m] == r;
    }
    DescendingUnique(Matching(table, account, from), all[m..]);
  }

  lemma MatchingZero(table: seq<Row>, account: seq<int>, from: Position)
    requires Table(table) && from.createdAt == ZERO_TIME
    ensures Matching(table, account, from) == Listing(table, account)
  {
    MatchingMeaning(table, account, START);
    MatchingMeaning(table, account, from);
    DescendingUnique(Matching(table, account, from), Listing(table, account));
  }

  // A position behind exactly the first m rows of the listing.
  ghost predicate StandsAt(table: seq<Row>, account: seq<int>, from: Position, m: nat) {
    && m <= |Listing(table, account)|
    && Matching(table, account, from) == Listing(table, account)[m..]
  }

  lemma TakeSuffix(all: seq<Row>, m: nat, size: nat)
    requires m <= |all|
    ensures Take(all[m..], size) == if m + size <= |all| then all[m..m + size] else all[m..]
  {
  }

  // Where the list goes on after its first m rows.
  function Behind(all: seq<Row>, m: nat): nat
    requires 0 < m <= |all|
  {
    if all[m - 1].createdAt == ZERO_TIME then 0 else m
  }

  // The position of a listed row stands after it, or at the start again if
  // the row has the zero time.
  lemma StandsBehind(table: seq<Row>, account: seq<int>, m: nat)
    requires Table(table) && 0 < m <= |Listing(table, account)|
    ensures
      var last := Listing(table, account)[m - 1];
      StandsAt(table, account, PositionOf(last), Behind(Listing(table, account), m))
  {
    var all := Listing(table, account);
    if all[m - 1].createdAt == ZERO_TIME {
      MatchingZero(table, account, PositionOf(all[m - 1]));
      assert all[0..] == all;
    } else {
      MatchingBelow(table, account, m);
    }
  }

  // The reference: the same walk over a plain list, by row numbers.
  function ListWalk(all: seq<Row>, size: nat, m: nat, fuel: nat): Walk
    requires m <= |all| && size >= 1
    decreases fuel
  {
    if fuel == 0 then Walk([], false)
    else if m + size <= |all| then
      var rest := ListWalk(all, size, Behind(all, m + size), fuel - 1);
      Walk(all[m..m + size] + rest.rows, rest.finished)
    else Walk(all[m..], true)
  }

  // The pager reads the list: standing after m rows it returns the next ones,
  // and the last of them stands behind those.
  ghost predicate Reads(all: seq<Row>, size: nat, table: seq<Row>, pager: Pager, stands: (Position, nat) -> bool, from: Position, m: nat)
  {
    stands(from, m) ==>
      && m <= |all|
      && pager(table, from) == (if m + size <= |all| then all[m..m + size] else all[m..])
      && (0 < size <= |all| - m ==> stands(PositionOf(all[m + size - 1]), Behind(all, m + size)))
  }

  lemma {:induction false} PositionsWalkTheList(all: seq<Row>, size: nat, table: seq<Row>, pager: Pager, stands: (Position, nat) -> bool, from: Position, m: nat, fuel: nat)
    requires size >= 1 && stands(from, m)
    requires forall p, k :: Reads(all, size, table, pager, stands, p, k)
    ensures m <= |all| && WalkAt(pager, size, Repeat(table, fuel), from) == ListWalk(all, size, m, fuel)
    decreases fuel
  {
    assert Reads(all, size, table, pager, stands, from, m);
    if fuel > 0 {
      assert Repeat(table, fuel)[0] == table && Repeat(table, fuel)[1..] == Repeat(table, fuel - 1);
      if m + size <= |all| {
        var last := PositionOf(all[m + size - 1]);
        PositionsWalkTheList(all, size, table, pager, stands, last, Behind(all, m + size), fuel - 1);
      }
    }
  }

  lemma HistoryReads(table: seq<Row>, account: seq<int>, limit: int, stands: (Position, nat) -> bool, from: Position, m: nat)
    requires Table(table) && forall p, k :: stands(p, k) <==> StandsAt(table, account, p, k)
    ensures Reads(Listing(table, account), EffectiveLimit(limit), table, HistoryPager(account, limit), stands, from, m)
  {
    var all, size := Listing(table, account), EffectiveLimit(limit);
    if stands(from, m) {
      TakeSuffix(all, m, size);
      if m + size <= |all| {
        StandsBehind(table, account, m + size);
      }
    }
  }

  // Fetching through cursors is walking down the sorted list.
  lemma WalkIsListWalk(table: seq<Row>, account: seq<int>, limit: int, fuel: nat)
    requires Table(table)
    ensures WalkFrom(Repeat(table, fuel), account, limit, "") ==
            ListWalk(Listing(table, account), EffectiveLimit(limit), 0, fuel)
  {
    HistoryWalksByPosition(Repeat(table, fuel), account, limit);
    ghost var stands: (Position, nat) -> bool := (p: Position, k: nat) => StandsAt(table, account, p, k);
    forall p, k: nat ensures Reads(Listing(table, account), EffectiveLimit(limit), table, HistoryPager(account, limit), stands, p, k) {
      HistoryReads(table, account, limit, stands, p, k);
    }
    assert Listing(table, account)[0..] == Listing(table, account);
    PositionsWalkTheList(Listing(table, account), EffectiveLimit(limit), table, HistoryPager(account, limit), stands, START, 0, fuel);
  }

  ghost predicate BadEnd(all: seq<Row>, size: nat, m: nat) {
    size >= 1 && 0 < m <= |all| && m % size == 0 && all[m - 1].createdAt == ZERO_TIME
  }

  // No whole page after the first m rows ends on the zero time: the walk
  // finishes within rest / size + 1 fetches, with exactly the rest of the list.
  lemma {:induction false} ListWalkCompletes(all: seq<Row>, size: nat, m: nat, fuel: nat)
    requires size >= 1 && m <= |all| && m % size == 0
    requires forall k :: k > m ==> !BadEnd(all, size, k)
    requires fuel > (|all| - m) / size
    ensures ListWalk(all, size, m, fuel) == Walk(all[m..], true)
    decreases fuel
  {
    QuotientNonNegative(|all| - m, size);
    if m + size <= |all| {
      NextMultiple(m, size);
      assert !BadEnd(all, size, m + size);
      DivStep(|all| - m, size);
      ListWalkCompletes(all, size, m + size, fuel - 1);
      assert all[m..m + size] + all[m + size..] == all[m..];
    }
  }

  lemma QuotientNonNegative(x: nat, size: nat)
    requires size >= 1
    ensures x / size >= 0
  {
  }

  lemma NextMultiple(m: nat, size: nat)
    requires size > 0 && m % size == 0
    ensures (m + size) % size == 0
  {
    var q := m / size;
    assert m == q * size;
    assert m + size == (q + 1) * size + 0;
    QuotientIs(m + size, size, q + 1, 0);
  }

  // The first whole page that ends on the zero time sends the walk back to the
  // start: it never finishes, however many fetches it makes.
  lemma {:induction false} ListWalkNeverEnds(all: seq<Row>, size: nat, m: nat, bad: nat, fuel: nat)
    requires size >= 1 && m % size == 0 && m < bad && BadEnd(all, size, bad)
    requires forall k :: 0 < k < bad ==> !BadEnd(all, size, k)
    ensures !ListWalk(all, size, m, fuel).finished
    decreases fuel
  {
    if fuel > 0 {
      NextMultiple(m, size);
      NoMultipleBetween(m, bad, size);
      if m + size == bad {
        ListWalkNeverEnds(all, size, 0, bad, fuel - 1);
      } else {
        assert !BadEnd(all, size, m + size);
        ListWalkNeverEnds(all, size, m + size, bad, fuel - 1);
      }
    }
  }

  lemma NoMultipleBetween(m: nat, k: nat, size: nat)
    requires size > 0 && m % size == 0 && k % size == 0 && m < k
    ensures m + size <= k
  {
    var a, b := m / size, k / size;
    assert m == a * size && k == b * size;
    if b < a + 1 {
      MulMonotone(b, a, size);
    } else {
      MulMonotone(a + 1, b, size);
      assert (a + 1) * size == m + size;
    }
  }

  ghost predicate Ends(table: seq<Row>, account: seq<int>, limit: int, fuel: nat) {
    WalkFrom(Repeat(table, fuel), account, limit, "").finished
  }

  // No full page of the listing ends on a row whose created_at is the zero
  // time, which the query cannot tell from "no cursor".
  ghost predicate PagesAvoidZero(table: seq<Row>, account: seq<int>, limit: int) {
    forall m :: !BadEnd(Listing(table, account), EffectiveLimit(limit), m)
  }

  function FetchesNeeded(table: seq<Row>, account: seq<int>, limit: int): nat {
    |Listing(table, account)| / EffectiveLimit(limit) + 1
  }

  lemma WalkFromStart(table: seq<Row>, account: seq<int>, limit: int, fuel: nat)
    requires Table(table) && PagesAvoidZero(table, account, limit) && fuel >= FetchesNeeded(table, account, limit)
    ensures WalkFrom(Repeat(table, fuel), account, limit, "") == Walk(Listing(table, account), true)
  {
    WalkIsListWalk(table, account, limit, fuel);
    ListWalkCompletes(Listing(table, account), EffectiveLimit(limit), 0, fuel);
    assert Listing(table, account)[0..] == Listing(table, account);
  }

  lemma WalkStuck(table: seq<Row>, account: seq<int>, limit: int, fuel: nat)
    requires Table(table) && !PagesAvoidZero(table, account, limit)
    ensures !Ends(table, account, limit, fuel)
  {
    var all, size := Listing(table, account), EffectiveLimit(limit);
    var some: nat :| BadEnd(all, size, some);
    var bad := FirstBad(all, size, some);
    WalkIsListWalk(table, account, limit, fuel);
    ListWalkNeverEnds(all, size, 0, bad, fuel);
  }

  // A walk of an unchanging table ends if and only if no full page of the
  // listing ends on a row created at the zero time. It then takes at most
  // (rows / page size) + 1 fetches, the last one empty if the rows fill their
  // pages exactly, and yields the account's listing, each row once.
  lemma WalkEndsExactly(table: seq<Row>, account: seq<int>, limit: int, fuel: nat)
    requires Table(table)
    ensures PagesAvoidZero(table, account, limit) ==> Ends(table, account, limit, FetchesNeeded(table, account, limit))
    ensures Ends(table, account, limit, fuel) ==>
              PagesAvoidZero(table, account, limit) &&
              WalkFrom(Repeat(table, fuel), account, limit, "").rows == Listing(table, account)
  {
    if PagesAvoidZero(table, account, limit) {
      WalkFromStart(table, account, limit, FetchesNeeded(table, account, limit));
      EndedWalk(table, account, limit, fuel);
    } else {
      WalkStuck(table, account, limit, fuel);
    }
  }

  lemma EndedWalk(table: seq<Row>, account: seq<int>, limit: int, fuel: nat)
    requires Table(table) && PagesAvoidZero(table, account, limit)
    ensures Ends(table, account, limit, fuel) ==> WalkFrom(Repeat(table, fuel), account, limit, "").rows == Listing(table, account)
  {
    if Ends(table, account, limit, fuel) {
      var more := fuel + FetchesNeeded(table, account, limit);
      WalkFromStart(table, account, limit, more);
      WalkIsListWalk(table, account, limit, fuel);
      WalkIsListWalk(table, account, limit, more);
      MoreFuelSameRows(Listing(table, account), EffectiveLimit(limit), 0, fuel, more);
    }
  }

  lemma {:induction false} MoreFuelSameRows(all: seq<Row>, size: nat, m: nat, fuel: nat, more: nat)
    requires size >= 1 && m <= |all| && fuel <= more && ListWalk(all, size, m, fuel).finished
    ensures ListWalk(all, size, m, more) == ListWalk(all, size, m, fuel)
    decreases fuel
  {
    if fuel > 0 && m + size <= |all| {
      MoreFuelSameRows(all, size, Behind(all, m + size), fuel - 1, more - 1);
    }
  }

  lemma {:induction false} FirstBad(all: seq<Row>, size: nat, m: nat) returns (bad: nat)
    requires BadEnd(all, size, m)
    ensures BadEnd(all, size, bad) && forall k :: 0 < k < bad ==> !BadEnd(all, size, k)
    decreases m
  {
    if k :| 0 < k < m && BadEnd(all, size, k) {
      bad := FirstBad(all, size, k);
    } else {
      bad := m;
    }
  }

  // The listing itself: strictly descending, and exactly the account's rows.
  lemma ListingMeaning(table: seq<Row>, account: seq<int>)
    requires Table(table)
    ensures Descending(Listing(table, account)) && NewestFirst(Listing(table, account))
    ensures forall r :: r in Listing(table, account) <==> r in table && r.account == account
  {
    MatchingMeaning(table, account, START);
    var all := Listing(table, account);
    forall i | 0 <= i < |all| ensures Cursor.Valid(PositionOf(all[i])) {
      assert all[i] in all;
      InTable(table, all[i]);
    }
    DescendingIsNewestFirst(all);
  }

  // With every created_at other than the zero time, every walk ends.
  lemma WalkEndsWithoutZeroTime(table: seq<Row>, account: seq<int>, limit: int)
    requires Table(table) && forall r :: r in table ==> r.createdAt != ZERO_TIME
    ensures WalkFrom(Repeat(table, FetchesNeeded(table, account, limit)), account, limit, "") ==
            Walk(Listing(table, account), true)
  {
    ListingMeaning(table, account);
    forall m: nat ensures !BadEnd(Listing(table, account), EffectiveLimit(limit), m) {
      assert forall k :: 0 <= k < |Listing(table, account)| ==> Listing(table, account)[k] in table;
    }
    WalkFromStart(table, account, limit, FetchesNeeded(table, account, limit));
  }

  // A table on which the walk does not end, and repeats its one row: the row
  // was created at the zero time, and the pages have room for one row.
  lemma ZeroTimeRepeats(row: Row, fuel: nat)
    requires row.createdAt == ZERO_TIME && row.id == NIL_UUID
    ensures
      var table := [row];
      && Table(table)
      && !PagesAvoidZero(table, row.account, 1)
      && !Ends(table, row.account, 1, fuel)
      && (fuel >= 2 ==> !Descending(WalkFrom(Repeat(table, fuel), row.account, 1, "").rows))
  {
    var table := [row];
    assert Cursor.Valid(PositionOf(table[0]));
    ListingMeaning(table, row.account);
    assert row in table && row in Listing(table, row.account);
    OneRow(Listing(table, row.account), row);
    assert BadEnd(Listing(table, row.account), EffectiveLimit(1), 1);
    WalkStuck(table, row.account, 1, fuel);
    if fuel >= 2 {
      WalkIsListWalk(table, row.account, 1, fuel);
      RepeatsRow(Listing(table, row.account), fuel);
    }
  }

  lemma OneRow(rows: seq<Row>, row: Row)
    requires Descending(rows) && forall r :: r in rows <==> r == row
    ensures rows == [row]
  {
    DescendingUnique(rows, [row]);
  }

  lemma RepeatsRow(all: seq<Row>, fuel: nat)
    requires |all| == 1 && all[0].createdAt == ZERO_TIME && fuel >= 2
    ensures !Descending(ListWalk(all, 1, 0, fuel).rows)
  {
    var row := all[0];
    assert all[0..1] == [row];
    var rest := ListWalk(all, 1, 0, fuel - 2).rows;
    assert ListWalk(all, 1, 0, fuel - 1).rows == [row] + rest;
    var rows := ListWalk(all, 1, 0, fuel).rows;
    assert rows == [row] + ([row] + rest);
    assert rows[0] == row && rows[1] == row;
    BelowOrder(PositionOf(row), PositionOf(row), PositionOf(row));
    assert !Below(PositionOf(rows[1]), PositionOf(rows[0]));
  }
}
