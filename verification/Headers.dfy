// AMQP header tables carried by queued messages.
module Headers {
  import opened Common
  import opened Decimal

  const RETRY_COUNT := "x-retry-count"
  const FIRST_ENQUEUED_AT := "x-first-enqueued-at"

  // A header value as the consumer's type switch distinguishes them. Stamp is
  // the text value that names an instant; its concrete syntax is module Rfc3339.
  datatype Value =
    | Int32(num: int)
    | Int64(num: int)
    | Int(num: int)
    | Text(text: string)
    | Stamp(at: nat)
    | OtherValue

  type Table = map<string, Value>

  // Conversion of a machine integer to int32: the low 32 bits, sign extended.
  function ToInt32(n: int): (r: int)
    ensures -0x8000_0000 <= r < 0x8000_0000
    ensures r == n <==> -0x8000_0000 <= n < 0x8000_0000
  {
    (n + 0x8000_0000) % 0x1_0000_0000 - 0x8000_0000
  }

  // Decimal text with an optional sign, rejected when it leaves 64 bits.
  function Atoi(s: string): Option<int> {
    var negative := |s| > 0 && s[0] == '-';
    var digits := if |s| > 0 && (s[0] == '-' || s[0] == '+') then s[1..] else s;
    if |digits| == 0 || !AllDigits(digits) then None
    else
      var n := if negative then -DigitsValue(digits) else DigitsValue(digits);
      if -0x8000_0000_0000_0000 <= n < 0x8000_0000_0000_0000 then Some(n) else None
  }

  // The retry count a consumer sees; anything it cannot read counts as zero.
  // A nil table and an empty one read the same.
  function RetryCount(headers: Table): int {
    if RETRY_COUNT !in headers then 0
    else
      match headers[RETRY_COUNT]
      case Int32(n) => n
      case Int64(n) => n
      case Int(n) => n
      case Text(s) => (match Atoi(s) case Some(n) => n case None => 0)
      case Stamp(_) => 0
      case OtherValue => 0
  }

  // A count written as text reads back as the number it prints.
  lemma TextCountReadsBack(headers: Table, n: nat)
    requires n < 0x8000_0000_0000_0000
    ensures RetryCount(headers[RETRY_COUNT := Text(Spell(n))]) == n
    ensures RetryCount(headers[RETRY_COUNT := Text("-" + Spell(n))]) == 0 - n
  {
    SpellMeaning(n);
    var s := Spell(n);
    assert ("-" + s)[1..] == s;
    assert Atoi(s) == Some(n);
    assert Atoi("-" + s) == Some(0 - n);
  }

  // Age of a message, measured from its first enqueueing; never negative.
  function MessageLag(headers: Table, now: nat): nat {
    if FIRST_ENQUEUED_AT in headers && headers[FIRST_ENQUEUED_AT].Stamp? && headers[FIRST_ENQUEUED_AT].at <= now
    then now - headers[FIRST_ENQUEUED_AT].at
    else 0
  }

  // The headers of a freshly published job.
  function InitialHeaders(now: nat): Table {
    map[RETRY_COUNT := Int32(0), FIRST_ENQUEUED_AT := Stamp(now)]
  }

  // The headers of the copy that goes to the retry queue.
  function RetryHeaders(headers: Table, attempt: int, now: nat): Table {
    var counted := headers[RETRY_COUNT := Int32(ToInt32(attempt))];
    if FIRST_ENQUEUED_AT in counted then counted else counted[FIRST_ENQUEUED_AT := Stamp(now)]
  }

  // Copies the table entry by entry, so that the delivery's own table is
  // never written through.
  method CloneHeaders(headers: Table) returns (cloned: Table)
    ensures cloned == headers
  {
    cloned := map[];
    if |headers| == 0 {
      return;
    }
    var pending := headers.Keys;
    while pending != {}
      invariant pending <= headers.Keys
      invariant cloned == map k | k in headers && k !in pending :: headers[k]
      decreases pending
    {
      var key :| key in pending;
      cloned := cloned[key := headers[key]];
      pending := pending - {key};
    }
  }

  // The header work of publishRetry, in its own order.
  method PrepareRetryHeaders(headers: Table, attempt: int, now: nat) returns (out: Table)
    ensures out == RetryHeaders(headers, attempt, now)
  {
    out := CloneHeaders(headers);
    out := out[RETRY_COUNT := Int32(ToInt32(attempt))];
    if FIRST_ENQUEUED_AT !in out {
      out := out[FIRST_ENQUEUED_AT := Stamp(now)];
    }
  }

  // A retry raises the count the next consumer reads by exactly one, keeps
  // the first-enqueued time, and keeps every other header; the count survives
  // exactly while it fits the 32-bit header.
  lemma RetryHeadersMeaning(headers: Table, now: nat)
    ensures
      var attempt := RetryCount(headers) + 1;
      var out := RetryHeaders(headers, attempt, now);
      && (RetryCount(out) == attempt <==> -0x8000_0000 <= attempt < 0x8000_0000)
      && FIRST_ENQUEUED_AT in out
      && (FIRST_ENQUEUED_AT in headers ==> out[FIRST_ENQUEUED_AT] == headers[FIRST_ENQUEUED_AT])
      && (FIRST_ENQUEUED_AT !in headers ==> out[FIRST_ENQUEUED_AT] == Stamp(now))
      && forall k :: k != RETRY_COUNT && k != FIRST_ENQUEUED_AT ==>
           (k in out <==> k in headers) && (k in headers ==> out[k] == headers[k])
  {
    assert RETRY_COUNT[2] != FIRST_ENQUEUED_AT[2];
  }
}
