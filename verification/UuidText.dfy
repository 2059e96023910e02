// RFC 9562 section 4: the 36-character text of a UUID.
module UuidText {
  import opened Common

  predicate IsUuid(u: seq<int>) { |u| == 16 && forall k :: 0 <= k < 16 ==> 0 <= u[k] < 256 }

  function HexChar(n: int): char
    requires 0 <= n < 16
  {
    if n < 10 then '0' + n as char else 'a' + (n - 10) as char
  }

  // Either case is read; lower case is written.
  function HexValue(c: char): (r: Option<int>)
    ensures r.Some? ==> 0 <= r.value < 16
  {
    if '0' <= c <= '9' then Some(c as int - '0' as int)
    else if 'a' <= c <= 'f' then Some(c as int - 'a' as int + 10)
    else if 'A' <= c <= 'F' then Some(c as int - 'A' as int + 10)
    else None
  }

  predicate DashAt(p: int) { p == 8 || p == 13 || p == 18 || p == 23 }

  // Where byte k starts in the text.
  function Offset(k: int): int {
    2 * k + (if k < 4 then 0 else if k < 6 then 1 else if k < 8 then 2 else if k < 10 then 3 else 4)
  }

  // Which hexadecimal digit stands at position p.
  function Nibble(p: int): int {
    p - (if p < 8 then 0 else if p < 13 then 1 else if p < 18 then 2 else if p < 23 then 3 else 4)
  }

  function CharAt(u: seq<int>, p: int): char
    requires IsUuid(u) && 0 <= p < 36
  {
    if DashAt(p) then '-'
    else
      var n := Nibble(p);
      HexChar(if n % 2 == 0 then u[n / 2] / 16 else u[n / 2] % 16)
  }

  function Text(u: seq<int>): (s: string)
    requires IsUuid(u)
    ensures |s| == 36
  {
    seq(36, p requires 0 <= p < 36 => CharAt(u, p))
  }

  predicate Readable(s: string) {
    && |s| == 36
    && (forall p :: 0 <= p < 36 ==> if DashAt(p) then s[p] == '-' else HexValue(s[p]).Some?)
  }

  function ByteAt(s: string, k: int): (b: int)
    requires Readable(s) && 0 <= k < 16
    ensures 0 <= b < 256
  {
    var p := Offset(k);
    assert !DashAt(p) && !DashAt(p + 1);
    16 * HexValue(s[p]).value + HexValue(s[p + 1]).value
  }

  function Parse(s: string): (r: Option<seq<int>>)
    ensures r.Some? ==> IsUuid(r.value)
  {
    if Readable(s) then Some(seq(16, k requires 0 <= k < 16 => ByteAt(s, k))) else None
  }

  lemma HexRoundTrip(n: int)
    requires 0 <= n < 16
    ensures HexValue(HexChar(n)) == Some(n)
    ensures HexChar(n) != '|' && 0 < HexChar(n) as int < 128
  {
  }

  lemma TextReadable(u: seq<int>)
    requires IsUuid(u)
    ensures Readable(Text(u))
  {
    var s := Text(u);
    forall p | 0 <= p < 36 ensures if DashAt(p) then s[p] == '-' else HexValue(s[p]).Some? {
      if !DashAt(p) {
        var n := Nibble(p);
        HexRoundTrip(if n % 2 == 0 then u[n / 2] / 16 else u[n / 2] % 16);
      }
    }
  }

  lemma ParseText(u: seq<int>)
    requires IsUuid(u)
    ensures Parse(Text(u)) == Some(u)
  {
    var s := Text(u);
    TextReadable(u);
    forall k | 0 <= k < 16 ensures ByteAt(s, k) == u[k] {
      var p := Offset(k);
      assert Nibble(p) == 2 * k && Nibble(p + 1) == 2 * k + 1;
      HexRoundTrip(u[k] / 16);
      HexRoundTrip(u[k] % 16);
    }
    assert Parse(s).value == u;
  }

  lemma TextIsAscii(u: seq<int>)
    requires IsUuid(u)
    ensures forall p :: 0 <= p < 36 ==> 0 < Text(u)[p] as int < 128
  {
    forall p | 0 <= p < 36 ensures 0 < Text(u)[p] as int < 128 {
      if !DashAt(p) {
        var n := Nibble(p);
        HexRoundTrip(if n % 2 == 0 then u[n / 2] / 16 else u[n / 2] % 16);
      }
    }
  }

  function Lower(c: char): char { if 'A' <= c <= 'F' then 'a' + (c - 'A') else c }

  // A text is read exactly if it is the UUID's own text, letters in either case.
  lemma ParseExactly(s: string, u: seq<int>)
    ensures Parse(s) == Some(u) <==> IsUuid(u) && |s| == 36 && forall p :: 0 <= p < 36 ==> Lower(s[p]) == Text(u)[p]
  {
    if Parse(s) == Some(u) {
      forall p | 0 <= p < 36 ensures Lower(s[p]) == Text(u)[p] {
        ReadAt(s, u, p);
      }
    }
    if IsUuid(u) && |s| == 36 && forall p :: 0 <= p < 36 ==> Lower(s[p]) == Text(u)[p] {
      SpelledOut(s, u);
    }
  }

  lemma HexCase(c: char, n: int)
    requires 0 <= n < 16
    ensures HexValue(c) == Some(n) <==> Lower(c) == HexChar(n)
    ensures Lower(c) == '-' <==> c == '-'
  {
  }

  lemma ReadAt(s: string, u: seq<int>, p: nat)
    requires Parse(s) == Some(u) && p < 36
    ensures Lower(s[p]) == Text(u)[p]
  {
    if !DashAt(p) {
      var n := Nibble(p);
      var k := n / 2;
      assert u[k] == ByteAt(s, k);
      assert Offset(k) == p - n % 2;
      HexCase(s[p], if n % 2 == 0 then u[k] / 16 else u[k] % 16);
    }
  }

  lemma SpelledOut(s: string, u: seq<int>)
    requires IsUuid(u) && |s| == 36 && forall p :: 0 <= p < 36 ==> Lower(s[p]) == Text(u)[p]
    ensures Parse(s) == Some(u)
  {
    TextReadable(u);
    forall p | 0 <= p < 36 ensures if DashAt(p) then s[p] == '-' else HexValue(s[p]) == HexValue(Text(u)[p]) {
      var c := CharAt(u, p);
      assert Text(u)[p] == c && Lower(s[p]) == c;
      if !DashAt(p) {
        var n := Nibble(p);
        var v := if n % 2 == 0 then u[n / 2] / 16 else u[n / 2] % 16;
        HexRoundTrip(v);
        HexCase(s[p], v);
      }
    }
    ParseText(u);
    forall k | 0 <= k < 16 ensures ByteAt(s, k) == ByteAt(Text(u), k) {
      assert !DashAt(Offset(k)) && !DashAt(Offset(k) + 1);
    }
    assert forall k :: 0 <= k < 16 ==> Parse(Text(u)).value[k] == ByteAt(Text(u), k);
    assert Parse(s).value == Parse(Text(u)).value;
  }

  // Where each byte stands: 4, 2, 2, 2 and 6 bytes with dashes in between.
  lemma TextShape(u: seq<int>, k: nat)
    requires IsUuid(u) && k < 16
    ensures Text(u)[8] == '-' && Text(u)[13] == '-' && Text(u)[18] == '-' && Text(u)[23] == '-'
    ensures
      var p := if k < 4 then 2 * k else if k < 6 then 2 * k + 1 else if k < 8 then 2 * k + 2
               else if k < 10 then 2 * k + 3 else 2 * k + 4;
      HexValue(Text(u)[p]) == Some(u[k] / 16) && HexValue(Text(u)[p + 1]) == Some(u[k] % 16)
  {
    HexRoundTrip(u[k] / 16);
    HexRoundTrip(u[k] % 16);
  }
}
