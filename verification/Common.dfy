// Vocabulary shared by the other modules.
module Common {

  datatype Option<+T> = None | Some(value: T)

  // How often x occurs in s.
  function Count<T(==)>(s: seq<T>, x: T): nat {
    if |s| == 0 then 0 else Count(s[..|s| - 1], x) + if s[|s| - 1] == x then 1 else 0
  }

  lemma CountAppend<T>(s: seq<T>, x: T, y: T)
    ensures Count(s + [y], x) == Count(s, x) + if y == x then 1 else 0
  {
    assert (s + [y])[..|s|] == s;
  }

  lemma {:induction false} CountZero<T>(s: seq<T>, x: T)
    requires x !in s
    ensures Count(s, x) == 0
  {
    if |s| > 0 {
      CountZero(s[..|s| - 1], x);
    }
  }

  function Sum(s: seq<nat>): nat {
    if |s| == 0 then 0 else Sum(s[..|s| - 1]) + s[|s| - 1]
  }

  lemma SumAppend(s: seq<nat>, x: nat)
    ensures Sum(s + [x]) == Sum(s) + x
  {
    assert (s + [x])[..|s|] == s;
  }

  lemma {:induction false} SumUpdate(s: seq<nat>, i: nat, x: nat)
    requires i < |s|
    ensures Sum(s[i := x]) + s[i] == Sum(s) + x
  {
    var n := |s| - 1;
    if i == n {
      assert s[i := x][..n] == s[..n];
    } else {
      assert s[i := x][..n] == s[..n][i := x];
      SumUpdate(s[..n], i, x);
    }
  }
}

// Decimal digits.
module Decimal {

  predicate IsDigit(c: char) { '0' <= c <= '9' }

  predicate AllDigits(s: string) { forall k :: 0 <= k < |s| ==> IsDigit(s[k]) }

  function DigitChar(d: int): char
    requires 0 <= d < 10
  {
    ('0' as int + d) as char
  }

  function DigitOf(c: char): int { c as int - '0' as int }

  // The number a string of digits spells.
  function DigitsValue(s: string): int {
    if |s| == 0 then 0 else 10 * DigitsValue(s[..|s| - 1]) + DigitOf(s[|s| - 1])
  }

  lemma DigitRoundTrip(d: int)
    requires 0 <= d < 10
    ensures IsDigit(DigitChar(d)) && DigitOf(DigitChar(d)) == d
  {
  }

  // The shortest spelling of n.
  function Spell(n: nat): string {
    if n < 10 then [DigitChar(n)] else Spell(n / 10) + [DigitChar(n % 10)]
  }

  lemma {:induction false} SpellMeaning(n: nat)
    ensures |Spell(n)| > 0 && AllDigits(Spell(n)) && DigitsValue(Spell(n)) == n
  {
    var s := Spell(n);
    DigitRoundTrip(n % 10);
    if n < 10 {
      assert s[..0] == "";
    } else {
      SpellMeaning(n / 10);
      assert s[..|s| - 1] == Spell(n / 10);
    }
  }
}

// Quotients.
module Division {

  lemma MulMonotone(a: nat, b: nat, t: nat)
    requires a <= b
    ensures a * t <= b * t
  {
  }

  lemma QuotientIs(x: nat, t: nat, q: nat, r: nat)
    requires t > 0 && r < t && x == q * t + r
    ensures x / t == q && x % t == r
  {
    var p := x / t;
    assert x == p * t + x % t;
    if p < q {
      MulMonotone(p + 1, q, t);
    } else if p > q {
      MulMonotone(q + 1, p, t);
    }
  }

  lemma DivMonotone(x: nat, y: nat, t: nat)
    requires x <= y && t > 0
    ensures x / t <= y / t
  {
    var qx, qy := x / t, y / t;
    assert x == qx * t + x % t && y == qy * t + y % t;
    if qx > qy {
      MulMonotone(qy + 1, qx, t);
    }
  }

  lemma DivStep(x: nat, t: nat)
    requires 0 < t <= x
    ensures (x - t) / t == x / t - 1
    ensures x / t >= 1
  {
    var q, r := (x - t) / t, (x - t) % t;
    assert x - t == q * t + r;
    assert x == (q + 1) * t + r;
    QuotientIs(x, t, q + 1, r);
  }
}
