// The opaque cursor of the history endpoint.
module Cursor {
  import opened Common
  import Rfc3339
  import UuidText
  import Base64Url

  datatype HistoryCursor = HistoryCursor(createdAt: Rfc3339.Instant, id: seq<int>)

  predicate Valid(c: HistoryCursor) { Rfc3339.Valid(c.createdAt) && UuidText.IsUuid(c.id) }

  function Bytes(s: string): (b: seq<int>)
    ensures |b| == |s|
  {
    seq(|s|, k requires 0 <= k < |s| => s[k] as int)
  }

  function Chars(b: seq<int>): (s: string)
    requires Base64Url.AreBytes(b)
    ensures |s| == |b|
  {
    seq(|b|, k requires 0 <= k < |b| => b[k] as char)
  }

  // Index of the first bar, or the length of s when there is none.
  function FirstBar(s: string): (k: nat)
    ensures k <= |s|
    ensures forall j :: 0 <= j < k ==> s[j] != '|'
    ensures k < |s| ==> s[k] == '|'
  {
    if |s| == 0 || s[0] == '|' then 0 else 1 + FirstBar(s[1..])
  }

  function Raw(c: HistoryCursor): string
    requires Valid(c)
  {
    Rfc3339.Format(c.createdAt) + "|" + UuidText.Text(c.id)
  }

  lemma RawIsAscii(c: HistoryCursor)
    requires Valid(c)
    ensures Base64Url.AreBytes(Bytes(Raw(c)))
    ensures FirstBar(Raw(c)) == |Rfc3339.Format(c.createdAt)|
  {
    var stamp, text := Rfc3339.Format(c.createdAt), UuidText.Text(c.id);
    Rfc3339.FormatHasNoBar(c.createdAt);
    UuidText.TextIsAscii(c.id);
    var raw := Raw(c);
    forall k | 0 <= k < |raw| ensures 0 <= raw[k] as int < 256 {
      if k < |stamp| {
        assert raw[k] == stamp[k];
      } else if k > |stamp| {
        assert raw[k] == text[k - |stamp| - 1];
      }
    }
    assert raw[|stamp|] == '|';
    assert forall k :: 0 <= k < |stamp| ==> raw[k] == stamp[k];
  }

  function Encode(c: HistoryCursor): string
    requires Valid(c)
  {
    RawIsAscii(c);
    Base64Url.Encode(Bytes(Raw(c)))
  }

  function Decode(encoded: string): (r: Option<HistoryCursor>)
    ensures r.Some? ==> Valid(r.value)
  {
    match Base64Url.Decode(encoded)
    case None => None
    case Some(bytes) =>
      var raw := Chars(bytes);
      var bar := FirstBar(raw);
      if bar == |raw| then None
      else
        match Rfc3339.Parse(raw[..bar])
        case None => None
        case Some(createdAt) =>
          match UuidText.Parse(raw[bar + 1..])
          case None => None
          case Some(id) => Some(HistoryCursor(createdAt, id))
  }

  // A cursor handed to a client comes back as the position it stood for.
  lemma RoundTrip(c: HistoryCursor)
    requires Valid(c)
    ensures Decode(Encode(c)) == Some(c)
  {
    var raw := Raw(c);
    RawIsAscii(c);
    Base64Url.DecodeEncode(Bytes(raw));
    assert Chars(Bytes(raw)) == raw;
    var bar := FirstBar(raw);
    assert raw[..bar] == Rfc3339.Format(c.createdAt);
    assert raw[bar + 1..] == UuidText.Text(c.id);
    Rfc3339.ParseFormat(c.createdAt);
    UuidText.ParseText(c.id);
  }

  // Different positions have different cursors, and none is the empty cursor.
  lemma EncodeInjective(c: HistoryCursor, d: HistoryCursor)
    requires Valid(c) && Valid(d)
    ensures Encode(c) == Encode(d) <==> c == d
    ensures |Encode(c)| > 0
  {
    RoundTrip(c);
    RoundTrip(d);
    RawIsAscii(c);
    Base64Url.EncodeAlphabet(Bytes(Raw(c)));
  }

  // Every character of a cursor is of the base64url alphabet.
  lemma EncodeVisible(c: HistoryCursor)
    requires Valid(c)
    ensures forall k :: 0 <= k < |Encode(c)| ==> Base64Url.CharSextet(Encode(c)[k]).Some?
  {
    RawIsAscii(c);
    Base64Url.EncodeAlphabet(Bytes(Raw(c)));
  }

  predicate NoBar(s: string) { forall k :: 0 <= k < |s| ==> s[k] != '|' }

  // The text carries its own timestamp and identifier, with a bar in between.
  predicate Carries(encoded: string, stamp: string, id: string, c: HistoryCursor) {
    && NoBar(stamp)
    && Base64Url.Decode(encoded) == Some(Bytes(stamp + "|" + id))
    && Rfc3339.Parse(stamp) == Some(c.createdAt)
    && UuidText.Parse(id) == Some(c.id)
  }

  // A cursor is accepted exactly if it carries a readable timestamp and a
  // readable identifier, and it is taken for those; all else is refused.
  lemma DecodeExactly(encoded: string, c: HistoryCursor)
    ensures Decode(encoded) == Some(c) <==> exists stamp, id :: Carries(encoded, stamp, id, c)
  {
    if Decode(encoded) == Some(c) {
      var bytes := Base64Url.Decode(encoded).value;
      var raw := Chars(bytes);
      var bar := FirstBar(raw);
      assert raw == raw[..bar] + "|" + raw[bar + 1..];
      assert Bytes(raw) == bytes;
      assert Carries(encoded, raw[..bar], raw[bar + 1..], c);
    }
    if stamp, id :| Carries(encoded, stamp, id, c) {
      CarriedIsRead(encoded, stamp, id, c);
    }
  }

  lemma CarriedIsRead(encoded: string, stamp: string, id: string, c: HistoryCursor)
    requires Carries(encoded, stamp, id, c)
    ensures Decode(encoded) == Some(c)
  {
    var raw := stamp + "|" + id;
    var bytes := Base64Url.Decode(encoded).value;
    assert Chars(bytes) == raw by {
      assert forall k :: 0 <= k < |raw| ==> bytes[k] == raw[k] as int;
    }
    assert raw[|stamp|] == '|' && forall k :: 0 <= k < |stamp| ==> raw[k] == stamp[k];
    assert FirstBar(raw) == |stamp|;
    assert raw[..|stamp|] == stamp && raw[|stamp| + 1..] == id;
  }
}
