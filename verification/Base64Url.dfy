// Base64url without padding: RFC 4648 sections 5 and 3.2.
module Base64Url {
  import opened Common

  predicate AreBytes(b: seq<int>) { forall k :: 0 <= k < |b| ==> 0 <= b[k] < 256 }

  predicate AreSextets(x: seq<int>) { forall k :: 0 <= k < |x| ==> 0 <= x[k] < 64 }

  function SextetChar(x: int): char
    requires 0 <= x < 64
  {
    if x < 26 then 'A' + x as char
    else if x < 52 then 'a' + (x - 26) as char
    else if x < 62 then '0' + (x - 52) as char
    else if x == 62 then '-' else '_'
  }

  function CharSextet(c: char): (r: Option<int>)
    ensures r.Some? ==> 0 <= r.value < 64
  {
    if 'A' <= c <= 'Z' then Some(c as int - 'A' as int)
    else if 'a' <= c <= 'z' then Some(c as int - 'a' as int + 26)
    else if '0' <= c <= '9' then Some(c as int - '0' as int + 52)
    else if c == '-' then Some(62)
    else if c == '_' then Some(63)
    else None
  }

  // Three bytes make four sextets; one or two left over make two or three.
  function ToSextets(b: seq<int>): (x: seq<int>)
    requires AreBytes(b)
    ensures AreSextets(x)
    decreases |b|
  {
    if |b| == 0 then []
    else if |b| == 1 then [b[0] / 4, b[0] % 4 * 16]
    else if |b| == 2 then [b[0] / 4, b[0] % 4 * 16 + b[1] / 16, b[1] % 16 * 4]
    else [b[0] / 4, b[0] % 4 * 16 + b[1] / 16, b[1] % 16 * 4 + b[2] / 64, b[2] % 64] + ToSextets(b[3..])
  }

  // A single left-over sextet is malformed; spare low bits are ignored.
  function FromSextets(x: seq<int>): (r: Option<seq<int>>)
    requires AreSextets(x)
    ensures r.Some? ==> AreBytes(r.value)
    decreases |x|
  {
    if |x| == 0 then Some([])
    else if |x| == 1 then None
    else
      var b0 := x[0] * 4 + x[1] / 16;
      if |x| == 2 then Some([b0])
      else
        var b1 := x[1] % 16 * 16 + x[2] / 4;
        if |x| == 3 then Some([b0, b1])
        else
          match FromSextets(x[4..])
          case None => None
          case Some(rest) => Some([b0, b1, x[2] % 4 * 64 + x[3]] + rest)
  }

  function CharsOf(x: seq<int>): (s: string)
    requires AreSextets(x)
    ensures |s| == |x|
  {
    seq(|x|, k requires 0 <= k < |x| => SextetChar(x[k]))
  }

  // Line breaks are skipped; any other foreign character is an error.
  function SextetsOf(s: string): (r: Option<seq<int>>)
    ensures r.Some? ==> AreSextets(r.value)
  {
    if |s| == 0 then Some([])
    else
      match SextetsOf(s[1..])
      case None => None
      case Some(rest) =>
        if s[0] == '\n' || s[0] == '\r' then Some(rest)
        else match CharSextet(s[0])
             case None => None
             case Some(x) => Some([x] + rest)
  }

  function Encode(b: seq<int>): string
    requires AreBytes(b)
  {
    CharsOf(ToSextets(b))
  }

  function Decode(s: string): (r: Option<seq<int>>)
    ensures r.Some? ==> AreBytes(r.value)
  {
    match SextetsOf(s)
    case None => None
    case Some(x) => FromSextets(x)
  }

  lemma CharRoundTrip(x: int)
    requires 0 <= x < 64
    ensures CharSextet(SextetChar(x)) == Some(x) && SextetChar(x) != '\n' && SextetChar(x) != '\r'
  {
  }

  lemma {:induction false} CharsRoundTrip(x: seq<int>)
    requires AreSextets(x)
    ensures SextetsOf(CharsOf(x)) == Some(x)
  {
    if |x| > 0 {
      CharRoundTrip(x[0]);
      assert CharsOf(x)[1..] == CharsOf(x[1..]);
      CharsRoundTrip(x[1..]);
      assert x == [x[0]] + x[1..];
    }
  }

  // The sextets x stand for the bytes b; spare bits of the last one are free.
  predicate StandsFor(x: seq<int>, b: seq<int>)
    decreases |b|
  {
    if |b| == 0 then |x| == 0
    else if |b| == 1 then |x| == 2 && x[0] * 4 + x[1] / 16 == b[0]
    else if |b| == 2 then |x| == 3 && x[0] * 4 + x[1] / 16 == b[0] && x[1] % 16 * 16 + x[2] / 4 == b[1]
    else
      && |x| >= 4
      && x[0] * 4 + x[1] / 16 == b[0] && x[1] % 16 * 16 + x[2] / 4 == b[1] && x[2] % 4 * 64 + x[3] == b[2]
      && StandsFor(x[4..], b[3..])
  }

  lemma {:induction false} ToStandsFor(b: seq<int>)
    requires AreBytes(b)
    ensures StandsFor(ToSextets(b), b)
    decreases |b|
  {
    if |b| >= 3 {
      ToStandsFor(b[3..]);
      BlockRoundTrip(b[0], b[1], b[2]);
      assert ToSextets(b)[4..] == ToSextets(b[3..]);
    } else if |b| == 2 {
      BlockRoundTrip(b[0], b[1], 0);
    } else if |b| == 1 {
      BlockRoundTrip(b[0], 0, 0);
    }
  }

  lemma {:induction false} FromStandsFor(x: seq<int>, b: seq<int>)
    requires AreSextets(x) && StandsFor(x, b)
    ensures FromSextets(x) == Some(b)
    decreases |b|
  {
    if |b| >= 3 {
      FromStandsFor(x[4..], b[3..]);
      assert b == [b[0], b[1], b[2]] + b[3..];
    } else if |b| == 2 {
      assert b == [b[0], b[1]];
    } else if |b| == 1 {
      assert b == [b[0]];
    }
  }

  lemma SextetsRoundTrip(b: seq<int>)
    requires AreBytes(b)
    ensures FromSextets(ToSextets(b)) == Some(b)
  {
    ToStandsFor(b);
    FromStandsFor(ToSextets(b), b);
  }

  lemma BlockRoundTrip(a: int, b: int, c: int)
    requires 0 <= a < 256 && 0 <= b < 256 && 0 <= c < 256
    ensures a / 4 * 4 + (a % 4 * 16 + b / 16) / 16 == a
    ensures (a % 4 * 16 + b / 16) % 16 * 16 + (b % 16 * 4 + c / 64) / 4 == b
    ensures (b % 16 * 4 + c / 64) % 4 * 64 + c % 64 == c
  {
  }

  // Decoding undoes encoding, for every length modulo three.
  lemma DecodeEncode(b: seq<int>)
    requires AreBytes(b)
    ensures Decode(Encode(b)) == Some(b)
  {
    SextetsRoundTrip(b);
    CharsRoundTrip(ToSextets(b));
  }

  lemma EncodeAlphabet(b: seq<int>)
    requires AreBytes(b)
    ensures forall k :: 0 <= k < |Encode(b)| ==> CharSextet(Encode(b)[k]).Some?
    ensures |b| > 0 ==> |Encode(b)| > 0
  {
    forall k | 0 <= k < |Encode(b)| ensures CharSextet(Encode(b)[k]).Some? {
      CharRoundTrip(ToSextets(b)[k]);
    }
  }

  /******* Which texts are read, and as what *******/

  function Strip(s: string): string {
    if |s| == 0 then ""
    else if s[0] == '\n' || s[0] == '\r' then Strip(s[1..])
    else [s[0]] + Strip(s[1..])
  }

  predicate Alphabetic(s: string) { forall k :: 0 <= k < |s| ==> CharSextet(s[k]).Some? }

  // Without its line breaks, the text spells the sextets.
  lemma {:induction false} SextetsExactly(s: string, x: seq<int>)
    requires AreSextets(x)
    ensures SextetsOf(s) == Some(x) <==> Strip(s) == CharsOf(x)
  {
    if |s| > 0 {
      var t := Strip(s[1..]);
      if s[0] == '\n' || s[0] == '\r' {
        SextetsExactly(s[1..], x);
      } else {
        StripHead(s);
        if |x| > 0 {
          SextetsExactly(s[1..], x[1..]);
          CharExactly(s[0], x[0]);
          assert CharsOf(x) == [SextetChar(x[0])] + CharsOf(x[1..]);
          assert x == [x[0]] + x[1..];
        }
      }
    }
  }

  lemma StripHead(s: string)
    requires |s| > 0 && s[0] != '\n' && s[0] != '\r'
    ensures Strip(s) == [s[0]] + Strip(s[1..]) && Strip(s)[1..] == Strip(s[1..])
    ensures Alphabetic(Strip(s)) <==> CharSextet(s[0]).Some? && Alphabetic(Strip(s[1..]))
  {
    var t := Strip(s[1..]);
    assert Strip(s) == [s[0]] + t;
    if Alphabetic(Strip(s)) {
      forall k | 0 <= k < |t| ensures CharSextet(t[k]).Some? {
        assert t[k] == Strip(s)[k + 1];
      }
      assert Strip(s)[0] == s[0];
    }
  }

  lemma CharExactly(c: char, x: int)
    requires 0 <= x < 64
    ensures CharSextet(c) == Some(x) <==> c == SextetChar(x)
  {
  }

  lemma {:induction false} SextetsOfNone(s: string)
    ensures SextetsOf(s).Some? <==> Alphabetic(Strip(s))
  {
    if |s| > 0 {
      SextetsOfNone(s[1..]);
      if s[0] != '\n' && s[0] != '\r' {
        StripHead(s);
      }
    }
  }

  // Spare bits of the last sextet do not count.
  predicate SameUpToSpare(x: seq<int>, y: seq<int>) {
    && |x| == |y|
    && (forall k :: 0 <= k < |x| && (k < |x| - 1 || |x| % 4 == 0) ==> x[k] == y[k])
  }

  // Sextets make bytes unless one is left over.
  lemma {:induction false} FromExactly(x: seq<int>)
    requires AreSextets(x)
    ensures FromSextets(x).Some? <==> |x| % 4 != 1
    ensures FromSextets(x).Some? ==> StandsFor(x, FromSextets(x).value)
    decreases |x|
  {
    if |x| >= 4 {
      FromExactly(x[4..]);
      if FromSextets(x).Some? {
        assert FromSextets(x).value[3..] == FromSextets(x[4..]).value;
      }
    }
  }

  // What stands for bytes is what they encode to, up to spare bits.
  lemma {:induction false} StandsForExactly(x: seq<int>, b: seq<int>)
    requires AreSextets(x) && AreBytes(b) && StandsFor(x, b)
    ensures SameUpToSpare(ToSextets(b), x)
    decreases |b|
  {
    if |b| >= 3 {
      StandsForExactly(x[4..], b[3..]);
      BlockBack(x[0], x[1], x[2], x[3], b[0], b[1], b[2]);
      FourAndRest(ToSextets(b), x, ToSextets(b[3..]));
    } else if |b| == 2 {
      BlockBack(x[0], x[1], x[2], 0, b[0], b[1], x[2] % 4 * 64);
    } else if |b| == 1 {
      BlockBack(x[0], x[1], 0, 0, b[0], x[1] % 16 * 16, 0);
    }
  }

  lemma FourAndRest(t: seq<int>, x: seq<int>, rest: seq<int>)
    requires |x| >= 4 && t == x[..4] + rest && SameUpToSpare(rest, x[4..])
    ensures SameUpToSpare(t, x)
  {
    forall k | 0 <= k < |x| && (k < |x| - 1 || |x| % 4 == 0) ensures t[k] == x[k] {
      if k >= 4 {
        assert t[k] == rest[k - 4] && x[k] == x[4..][k - 4];
      }
    }
  }

  lemma BlockBack(x: int, y: int, z: int, w: int, a: int, b: int, c: int)
    requires 0 <= x < 64 && 0 <= y < 64 && 0 <= z < 64 && 0 <= w < 64
    requires a == x * 4 + y / 16 && b == y % 16 * 16 + z / 4 && c == z % 4 * 64 + w
    ensures 0 <= a < 256 && 0 <= b < 256 && 0 <= c < 256
    ensures a / 4 == x && a % 4 * 16 + b / 16 == y && b % 16 * 4 + c / 64 == z && c % 64 == w
  {
  }

  // A text is read exactly if, line breaks apart, it is of the alphabet and
  // leaves no single character over; and what it is read as encodes to it, up
  // to the spare bits of its last character.
  lemma DecodeExactly(s: string)
    ensures Decode(s).Some? <==> Alphabetic(Strip(s)) && |Strip(s)| % 4 != 1
    ensures Decode(s).Some? ==>
              var w, t := Encode(Decode(s).value), Strip(s);
              |w| == |t| && forall k :: 0 <= k < |t| && (k < |t| - 1 || |t| % 4 == 0) ==> w[k] == t[k]
  {
    SextetsOfNone(s);
    if SextetsOf(s).Some? {
      var x := SextetsOf(s).value;
      SextetsExactly(s, x);
      FromExactly(x);
      if FromSextets(x).Some? {
        StandsForExactly(x, FromSextets(x).value);
      }
    }
  }

  // Test vectors of RFC 4648 section 10, without padding.
  lemma EncodeVectors()
    ensures Encode([102]) == "Zg"
    ensures Encode([102, 111]) == "Zm8"
  {
    assert ToSextets([102]) == [25, 32];
    assert ToSextets([102, 111]) == [25, 38, 60];
  }

  lemma EncodeBlock()
    ensures Encode([102, 111, 111]) == "Zm9v"
  {
    assert [102, 111, 111][3..] == [];
    assert ToSextets([102, 111, 111]) == [25, 38, 61, 47];
  }

  // The two characters in which the URL alphabet differs.
  lemma EncodeUrlAlphabet()
    ensures Encode([251, 255]) == "-_8"
  {
    assert ToSextets([251, 255]) == [62, 63, 60];
  }
}
