// Instants on one line of time, and identifiers as numbers: what the history's
// order means.
module Timeline {
  import opened Division
  import opened Rfc3339
  import UuidText

  function YearLength(y: int): int { if LeapYear(y) then 366 else 365 }

  function DaysBeforeYear(y: nat): (n: nat)
    ensures n >= 365 * y
  {
    if y == 0 then 0 else DaysBeforeYear(y - 1) + YearLength(y - 1)
  }

  function DaysBeforeMonth(y: int, m: int): int
    requires m >= 1
    decreases m
  {
    if m == 1 then 0 else DaysBeforeMonth(y, m - 1) + DaysIn(y, m - 1)
  }

  // Days since the first of January of year 0.
  function DayNumber(t: Instant): int
    requires Valid(t)
  {
    DaysBeforeYear(t.year) + DaysBeforeMonth(t.year, t.month) + t.day - 1
  }

  const NANOS_PER_SECOND := 1_000_000_000

  function SecondOfDay(t: Instant): int { (t.hour * 60 + t.minute) * 60 + t.second }

  // Nanoseconds since the start of year 0.
  function Nanos(t: Instant): int
    requires Valid(t)
  {
    (DayNumber(t) * 86_400 + SecondOfDay(t)) * NANOS_PER_SECOND + t.nanos
  }

  // The leap years are those of the Gregorian calendar.
  lemma {:induction false} DaysBeforeYearClosed(y: nat)
    ensures DaysBeforeYear(y) == 365 * y + (y + 3) / 4 - (y + 99) / 100 + (y + 399) / 400
  {
    if y > 0 {
      DaysBeforeYearClosed(y - 1);
      LeapStep(y - 1, (y + 2) / 4, (y + 3) / 4, (y + 98) / 100, (y + 99) / 100, (y + 398) / 400, (y + 399) / 400);
    }
  }

  // Multiples of 4, 100 and 400 below y, and below y + 1.
  lemma LeapStep(y: nat, a: int, a': int, b: int, b': int, c: int, c': int)
    requires a == (y + 3) / 4 && a' == (y + 4) / 4 && b == (y + 99) / 100 && b' == (y + 100) / 100
    requires c == (y + 399) / 400 && c' == (y + 400) / 400
    ensures a' - b' + c' == a - b + c + YearLength(y) - 365
  {
    NextMultiple(y, 4);
    NextMultiple(y, 100);
    NextMultiple(y, 400);
    LeapCases(y);
  }

  lemma NextMultiple(y: nat, t: nat)
    requires t == 4 || t == 100 || t == 400
    ensures (y + t) / t == (y + t - 1) / t + if y % t == 0 then 1 else 0
  {
  }

  lemma LeapCases(y: nat)
    ensures y % 400 == 0 ==> y % 100 == 0
    ensures y % 100 == 0 ==> y % 4 == 0
  {
    if y % 400 == 0 {
      QuotientIs(y, 100, 4 * (y / 400), 0);
    }
    if y % 100 == 0 {
      QuotientIs(y, 4, 25 * (y / 100), 0);
    }
  }

  // The months of a year fill it.
  lemma MonthsFillYear(y: int)
    ensures DaysBeforeMonth(y, 13) == YearLength(y)
  {
    assert DaysBeforeMonth(y, 4) == 31 + DaysIn(y, 2) + 31;
    assert DaysBeforeMonth(y, 7) == DaysBeforeMonth(y, 4) + 30 + 31 + 30;
    assert DaysBeforeMonth(y, 10) == DaysBeforeMonth(y, 7) + 31 + 31 + 30;
    assert DaysBeforeMonth(y, 13) == DaysBeforeMonth(y, 10) + 31 + 30 + 31;
  }

  lemma {:induction false} MonthsMonotone(y: int, m: int, n: int)
    requires 1 <= m <= n <= 13
    ensures DaysBeforeMonth(y, m) <= DaysBeforeMonth(y, n)
    ensures m < n ==> DaysBeforeMonth(y, m) + DaysIn(y, m) <= DaysBeforeMonth(y, n)
    decreases n
  {
    if m < n {
      MonthsMonotone(y, m, n - 1);
    }
  }

  lemma {:induction false} YearsMonotone(y: nat, z: nat)
    requires y < z
    ensures DaysBeforeYear(y) + YearLength(y) <= DaysBeforeYear(z)
    decreases z
  {
    if y + 1 < z {
      YearsMonotone(y, z - 1);
    }
  }

  lemma DayInYear(t: Instant)
    requires Valid(t)
    ensures DaysBeforeYear(t.year) <= DayNumber(t) < DaysBeforeYear(t.year) + YearLength(t.year)
  {
    MonthsMonotone(t.year, 1, t.month);
    MonthsMonotone(t.year, t.month, 13);
    MonthsFillYear(t.year);
  }

  predicate DateBefore(a: Instant, b: Instant) {
    a.year < b.year || (a.year == b.year && (a.month < b.month || (a.month == b.month && a.day < b.day)))
  }

  lemma DateOrder(a: Instant, b: Instant)
    requires Valid(a) && Valid(b) && DateBefore(a, b)
    ensures DayNumber(a) < DayNumber(b)
  {
    if a.year < b.year {
      DayInYear(a);
      DayInYear(b);
      YearsMonotone(a.year, b.year);
    } else if a.month < b.month {
      MonthsMonotone(a.year, a.month, b.month);
    }
  }

  lemma SecondInDay(t: Instant)
    requires Valid(t)
    ensures 0 <= SecondOfDay(t) < 86_400
  {
  }

  // An earlier date is earlier by the clock, whatever the time of day.
  lemma DateDecides(a: Instant, b: Instant)
    requires Valid(a) && Valid(b) && DateBefore(a, b)
    ensures Nanos(a) < Nanos(b)
  {
    DateOrder(a, b);
    SecondInDay(a);
    SecondInDay(b);
  }

  predicate SameDate(a: Instant, b: Instant) { a.year == b.year && a.month == b.month && a.day == b.day }

  lemma TimeDecides(a: Instant, b: Instant)
    requires Valid(a) && Valid(b) && SameDate(a, b)
    ensures SecondOfDay(a) < SecondOfDay(b) ==> Nanos(a) < Nanos(b)
    ensures SecondOfDay(a) == SecondOfDay(b) && a.nanos < b.nanos ==> Nanos(a) < Nanos(b)
  {
  }

  /******* Identifiers *******/

  function Pow256(n: nat): (p: nat)
    ensures p >= 1
  {
    if n == 0 then 1 else 256 * Pow256(n - 1)
  }

  // The number whose base-256 digits the bytes are, the first one leading.
  function Number(bytes: seq<int>): int {
    if |bytes| == 0 then 0 else bytes[0] * Pow256(|bytes| - 1) + Number(bytes[1..])
  }

  predicate AreBytes(b: seq<int>) { forall k :: 0 <= k < |b| ==> 0 <= b[k] < 256 }

  lemma {:induction false} NumberBound(b: seq<int>)
    requires AreBytes(b)
    ensures 0 <= Number(b) < Pow256(|b|)
  {
    if |b| > 0 {
      NumberBound(b[1..]);
      LeadingDigit(b[0], Pow256(|b| - 1), Number(b[1..]));
    }
  }

  lemma LeadingDigit(d: int, p: nat, rest: int)
    requires 0 <= d < 256 && 0 <= rest < p
    ensures 0 <= d * p + rest < 256 * p
  {
    assert d * p <= 255 * p;
    assert d * p >= 0;
  }

  lemma LeadingDecides(d: int, e: int, p: nat, x: int, y: int)
    requires d < e && 0 <= x < p && 0 <= y < p
    ensures d * p + x < e * p + y
  {
    assert (d + 1) * p <= e * p;
    assert (d + 1) * p == d * p + p;
  }
}
