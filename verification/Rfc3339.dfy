// RFC 3339 section 5.6 timestamps in UTC, as time.RFC3339Nano prints them.
module Rfc3339 {
  import opened Common
  import opened Decimal

  // An instant, by its UTC calendar fields.
  datatype Instant = Instant(year: int, month: int, day: int, hour: int, minute: int, second: int, nanos: int)

  predicate LeapYear(y: int) { y % 4 == 0 && (y % 100 != 0 || y % 400 == 0) }

  function DaysIn(year: int, month: int): int {
    if month == 2 then (if LeapYear(year) then 29 else 28)
    else if month == 4 || month == 6 || month == 9 || month == 11 then 30 else 31
  }

  predicate Valid(t: Instant) {
    && 0 <= t.year <= 9999 && 1 <= t.month <= 12 && 1 <= t.day <= DaysIn(t.year, t.month)
    && 0 <= t.hour < 24 && 0 <= t.minute < 60 && 0 <= t.second < 60 && 0 <= t.nanos < 1_000_000_000
  }

  function Pow10(n: nat): (p: nat)
    ensures p >= 1
  {
    if n == 0 then 1 else 10 * Pow10(n - 1)
  }

  // n in exactly width decimal digits.
  function Digits(n: nat, width: nat): string {
    if width == 0 then "" else Digits(n / 10, width - 1) + [DigitChar(n % 10)]
  }

  // The fraction n / 10^width, with its trailing zeros dropped.
  function FractionDigits(n: nat, width: nat): string
    decreases width
  {
    if width > 0 && n % 10 == 0 then FractionDigits(n / 10, width - 1) else Digits(n, width)
  }

  lemma {:induction false} DigitsMeaning(n: nat, width: nat)
    requires n < Pow10(width)
    ensures |Digits(n, width)| == width
    ensures AllDigits(Digits(n, width))
    ensures DigitsValue(Digits(n, width)) == n
  {
    if width > 0 {
      DigitsMeaning(n / 10, width - 1);
      DigitRoundTrip(n % 10);
      var s := Digits(n, width);
      assert s[..|s| - 1] == Digits(n / 10, width - 1);
    }
  }

  lemma TenTimes(a: int, b: int)
    ensures a * (10 * b) == 10 * (a * b)
  {
  }

  lemma {:induction false} FractionMeaning(n: nat, width: nat)
    requires 0 < n < Pow10(width)
    ensures var s := FractionDigits(n, width);
      && 1 <= |s| <= width
      && AllDigits(s)
      && DigitsValue(s) * Pow10(width - |s|) == n
    decreases width
  {
    if n % 10 == 0 {
      FractionMeaning(n / 10, width - 1);
      var s := FractionDigits(n / 10, width - 1);
      assert Pow10(width - |s|) == 10 * Pow10(width - 1 - |s|);
      TenTimes(DigitsValue(s), Pow10(width - 1 - |s|));
    } else {
      DigitsMeaning(n, width);
      assert Pow10(0) == 1;
    }
  }

  // The date and time up to whole seconds: 19 characters.
  function Seconds(t: Instant): (s: string)
    requires Valid(t)
    ensures |s| == 19
  {
    [DigitChar(t.year / 1000), DigitChar(t.year / 100 % 10), DigitChar(t.year / 10 % 10), DigitChar(t.year % 10), '-',
     DigitChar(t.month / 10), DigitChar(t.month % 10), '-', DigitChar(t.day / 10), DigitChar(t.day % 10), 'T',
     DigitChar(t.hour / 10), DigitChar(t.hour % 10), ':', DigitChar(t.minute / 10), DigitChar(t.minute % 10), ':',
     DigitChar(t.second / 10), DigitChar(t.second % 10)]
  }

  function Fraction(nanos: int): string
    requires 0 <= nanos < 1_000_000_000
  {
    if nanos == 0 then "" else "." + FractionDigits(nanos, 9)
  }

  function Format(t: Instant): string
    requires Valid(t)
  {
    Seconds(t) + Fraction(t.nanos) + "Z"
  }

  // Length of the run of digits that s starts with.
  function DigitRun(s: string): (n: nat)
    ensures n <= |s|
    ensures forall k :: 0 <= k < n ==> IsDigit(s[k])
  {
    if |s| > 0 && IsDigit(s[0]) then 1 + DigitRun(s[1..]) else 0
  }

  // Digits beyond the ninth are dropped.
  function FractionNanos(digits: string): int {
    if |digits| >= 9 then DigitsValue(digits[..9]) else DigitsValue(digits) * Pow10(9 - |digits|)
  }

  predicate ShapeOk(s: string)
    requires |s| >= 19
  {
    && s[4] == '-' && s[7] == '-' && s[10] == 'T' && s[13] == ':' && s[16] == ':'
    && IsDigit(s[0]) && IsDigit(s[1]) && IsDigit(s[2]) && IsDigit(s[3]) && IsDigit(s[5]) && IsDigit(s[6])
    && IsDigit(s[8]) && IsDigit(s[9]) && IsDigit(s[11]) && IsDigit(s[12]) && IsDigit(s[14]) && IsDigit(s[15])
    && IsDigit(s[17]) && IsDigit(s[18])
  }

  function Pair(s: string, k: nat): int
    requires k + 1 < |s|
  {
    10 * DigitOf(s[k]) + DigitOf(s[k + 1])
  }

  // How many characters the optional fraction takes, the point included.
  function FractionLength(rest: string): (n: nat)
    ensures n <= |rest|
  {
    if |rest| >= 2 && rest[0] == '.' && IsDigit(rest[1]) then 1 + DigitRun(rest[1..]) else 0
  }

  function NanosOf(rest: string): int {
    if FractionLength(rest) > 0 then FractionNanos(rest[1..FractionLength(rest)]) else 0
  }

  function Parse(s: string): (r: Option<Instant>)
    ensures r.Some? ==> Valid(r.value)
  {
    if |s| < 20 || !ShapeOk(s) then None
    else
      var rest := s[19..];
      var t := Instant(100 * Pair(s, 0) + Pair(s, 2), Pair(s, 5), Pair(s, 8), Pair(s, 11), Pair(s, 14), Pair(s, 17), NanosOf(rest));
      if rest[FractionLength(rest)..] == "Z" && Valid(t) then Some(t) else None
  }

  lemma {:induction false} DigitRunOf(digits: string, rest: string)
    requires AllDigits(digits)
    requires |rest| == 0 || !IsDigit(rest[0])
    ensures DigitRun(digits + rest) == |digits|
  {
    if |digits| > 0 {
      assert (digits + rest)[1..] == digits[1..] + rest;
      DigitRunOf(digits[1..], rest);
    } else {
      assert digits + rest == rest;
    }
  }

  lemma PairRoundTrip(s: string, k: nat, n: int)
    requires k + 1 < |s| && 0 <= n < 100
    requires s[k] == DigitChar(n / 10) && s[k + 1] == DigitChar(n % 10)
    ensures Pair(s, k) == n && IsDigit(s[k]) && IsDigit(s[k + 1])
  {
    DigitRoundTrip(n / 10);
    DigitRoundTrip(n % 10);
  }

  lemma SecondsParse(t: Instant, rest: string)
    requires Valid(t)
    ensures
      var s := Seconds(t) + rest;
      && ShapeOk(s)
      && 100 * Pair(s, 0) + Pair(s, 2) == t.year && Pair(s, 5) == t.month && Pair(s, 8) == t.day
      && Pair(s, 11) == t.hour && Pair(s, 14) == t.minute && Pair(s, 17) == t.second
  {
    var s := Seconds(t) + rest;
    YearDigits(t.year);
    PairRoundTrip(s, 0, t.year / 100);
    PairRoundTrip(s, 2, t.year % 100);
    PairRoundTrip(s, 5, t.month);
    PairRoundTrip(s, 8, t.day);
    PairRoundTrip(s, 11, t.hour);
    PairRoundTrip(s, 14, t.minute);
    PairRoundTrip(s, 17, t.second);
  }

  lemma YearDigits(y: int)
    requires 0 <= y <= 9999
    ensures y / 1000 == y / 100 / 10 && y / 10 % 10 == y % 100 / 10 && y % 10 == y % 100 % 10
    ensures 0 <= y / 100 < 100 && 100 * (y / 100) + y % 100 == y
  {
  }

  lemma FractionValue(digits: string)
    requires 1 <= |digits| <= 9
    ensures FractionNanos(digits) == DigitsValue(digits) * Pow10(9 - |digits|)
  {
    if |digits| == 9 {
      assert digits[..9] == digits;
      assert Pow10(0) == 1;
    }
  }

  // The text never contains the cursor's separator.
  lemma FormatHasNoBar(t: Instant)
    requires Valid(t)
    ensures forall k :: 0 <= k < |Format(t)| ==> Format(t)[k] != '|' && 0 < Format(t)[k] as int < 128
  {
    var s := Format(t);
    assert forall k :: 0 <= k < 19 ==> Seconds(t)[k] != '|' && 0 < Seconds(t)[k] as int < 128;
    if t.nanos != 0 {
      assert Pow10(9) == 1_000_000_000;
      FractionMeaning(t.nanos, 9);
    }
    forall k | 0 <= k < |s| ensures s[k] != '|' && 0 < s[k] as int < 128 {
      if k < 19 {
        assert s[k] == Seconds(t)[k];
      }
    }
  }

  /******* Which texts are read, and as what *******/

  // An optional fraction of a second, as written.
  function FractionText(digits: string): string { if digits == "" then "" else "." + digits }

  // The text spells the instant: date and time, a fraction of any length of
  // which nine digits count, and the letter Z.
  predicate Spells(s: string, t: Instant, digits: string)
    requires Valid(t)
  {
    AllDigits(digits) && s == Seconds(t) + FractionText(digits) + "Z" && t.nanos == FractionNanos(digits)
  }

  lemma FractionRead(digits: string)
    requires AllDigits(digits)
    ensures
      var rest := FractionText(digits) + "Z";
      && NanosOf(rest) == FractionNanos(digits)
      && rest[FractionLength(rest)..] == "Z"
  {
    var rest := FractionText(digits) + "Z";
    if digits == "" {
      assert rest == "Z";
    } else {
      assert rest[1..] == digits + "Z" && rest[1] == digits[0];
      DigitRunOf(digits, "Z");
      assert rest[1..1 + |digits|] == digits;
    }
  }

  lemma SpelledIsRead(s: string, t: Instant, digits: string)
    requires Valid(t) && Spells(s, t, digits)
    ensures Parse(s) == Some(t)
  {
    var rest := FractionText(digits) + "Z";
    assert s == Seconds(t) + rest;
    SecondsParse(t, rest);
    AfterSeconds(t, rest);
    FractionRead(digits);
  }

  lemma AfterSeconds(t: Instant, rest: string)
    requires Valid(t)
    ensures (Seconds(t) + rest)[19..] == rest
  {
  }

  // A text is read as an instant exactly if it spells it.
  lemma ParseExactly(s: string, t: Instant)
    ensures Parse(s) == Some(t) <==> Valid(t) && exists digits :: Spells(s, t, digits)
  {
    if Parse(s) == Some(t) {
      ReadSpells(s, t);
    } else if Valid(t) {
      if digits :| Spells(s, t, digits) {
        SpelledIsRead(s, t, digits);
      }
    }
  }

  lemma ReadSpells(s: string, t: Instant)
    requires Parse(s) == Some(t)
    ensures exists digits :: Spells(s, t, digits)
  {
    var rest := s[19..];
    var n := FractionLength(rest);
    SecondsRead(s, t);
    var digits := if n == 0 then "" else rest[1..n];
    assert rest == rest[..n] + rest[n..];
    if n > 0 {
      assert rest[..n] == "." + digits;
      forall k | 0 <= k < |digits| ensures IsDigit(digits[k]) {
        assert digits[k] == rest[1..][k];
      }
    }
    assert rest == FractionText(digits) + "Z";
    assert s == s[..19] + rest;
    assert Spells(s, t, digits);
  }

  lemma PairDigits(s: string, k: nat)
    requires k + 1 < |s| && IsDigit(s[k]) && IsDigit(s[k + 1])
    ensures 0 <= Pair(s, k) < 100
    ensures DigitChar(Pair(s, k) / 10) == s[k] && DigitChar(Pair(s, k) % 10) == s[k + 1]
  {
  }

  lemma SecondsRead(s: string, t: Instant)
    requires Parse(s) == Some(t)
    ensures s[..19] == Seconds(t)
  {
    PairDigits(s, 0);
    PairDigits(s, 2);
    PairDigits(s, 5);
    PairDigits(s, 8);
    PairDigits(s, 11);
    PairDigits(s, 14);
    PairDigits(s, 17);
    CenturyDigits(Pair(s, 0), Pair(s, 2));
    var w := Seconds(t);
    assert w[0] == s[0] && w[1] == s[1] && w[2] == s[2] && w[3] == s[3];
    assert forall k :: 0 <= k < 19 ==> w[k] == s[k];
  }

  lemma CenturyDigits(p: int, q: int)
    requires 0 <= p < 100 && 0 <= q < 100
    ensures
      var y := 100 * p + q;
      y / 1000 == p / 10 && y / 100 % 10 == p % 10 && y / 10 % 10 == q / 10 && y % 10 == q % 10
  {
  }

  // Parsing undoes formatting, for every fraction from none to nine digits.
  lemma ParseFormat(t: Instant)
    requires Valid(t)
    ensures Parse(Format(t)) == Some(t)
  {
    var digits := if t.nanos == 0 then "" else FractionDigits(t.nanos, 9);
    if t.nanos != 0 {
      NineDigits(t.nanos);
      FractionValue(digits);
    }
    assert Spells(Format(t), t, digits);
    SpelledIsRead(Format(t), t, digits);
  }

  // Where each field stands in the text: yyyy-mm-ddThh:mm:ss, a fraction
  // without trailing zeros if there is one, and Z.
  lemma FormatShape(t: Instant)
    requires Valid(t)
    ensures
      var s := Format(t);
      && |s| >= 20
      && s[4] == '-' && s[7] == '-' && s[10] == 'T' && s[13] == ':' && s[16] == ':' && s[|s| - 1] == 'Z'
      && t.year == 1000 * DigitOf(s[0]) + 100 * DigitOf(s[1]) + 10 * DigitOf(s[2]) + DigitOf(s[3])
      && t.month == 10 * DigitOf(s[5]) + DigitOf(s[6]) && t.day == 10 * DigitOf(s[8]) + DigitOf(s[9])
      && t.hour == 10 * DigitOf(s[11]) + DigitOf(s[12]) && t.minute == 10 * DigitOf(s[14]) + DigitOf(s[15])
      && t.second == 10 * DigitOf(s[17]) + DigitOf(s[18])
  {
    var rest := Fraction(t.nanos) + "Z";
    assert Format(t) == Seconds(t) + rest;
    SecondsParse(t, rest);
  }

  lemma FormatFraction(t: Instant)
    requires Valid(t)
    ensures
      var s := Format(t);
      if t.nanos == 0 then |s| == 20
      else |s| > 21 && s[19] == '.' && s[|s| - 2] != '0' && |s| <= 30 &&
           DigitsValue(s[20..|s| - 1]) * Pow10(30 - |s|) == t.nanos
  {
    if t.nanos != 0 {
      var digits := FractionDigits(t.nanos, 9);
      NineDigits(t.nanos);
      FractionStands(Seconds(t), digits);
      var s := Format(t);
      assert 30 - |s| == 9 - |digits|;
    }
  }

  lemma NineDigits(nanos: int)
    requires 0 < nanos < 1_000_000_000
    ensures
      var digits := FractionDigits(nanos, 9);
      1 <= |digits| <= 9 && AllDigits(digits) && digits[|digits| - 1] != '0' && DigitsValue(digits) * Pow10(9 - |digits|) == nanos
  {
    assert Pow10(9) == 1_000_000_000;
    FractionMeaning(nanos, 9);
    FractionTrimmed(nanos, 9);
  }

  lemma FractionStands(front: string, digits: string)
    requires |front| == 19 && |digits| > 0
    ensures
      var s := front + ("." + digits) + "Z";
      |s| == 21 + |digits| && s[19] == '.' && s[20..|s| - 1] == digits && s[|s| - 2] == digits[|digits| - 1]
  {
  }

  lemma {:induction false} FractionTrimmed(n: nat, width: nat)
    requires 0 < n < Pow10(width)
    ensures var s := FractionDigits(n, width); |s| > 0 && s[|s| - 1] != '0'
    decreases width
  {
    FractionMeaning(n, width);
    if n % 10 == 0 {
      FractionTrimmed(n / 10, width - 1);
    } else {
      DigitRoundTrip(n % 10);
    }
  }
}
