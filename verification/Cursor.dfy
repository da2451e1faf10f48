/** Page cursors: a timestamp and an id, as JSON, as base64. */
module Cursor {
  import opened Wrappers
  import Base64
  import Iso8601
  import Uuid

  // ----- the JSON payload -----

  const TS := "{\"ts\": \""
  const ID := "\", \"id\": \""
  const END := "\"}"

  function Payload(ts: string, id: string): string {
    TS + (ts + (ID + (id + END)))
  }

  /** Characters that JSON leaves as they are. */
  ghost predicate Plain(s: string) {
    forall c :: c in s ==> c != '"' && c != '\\' && c as int < 128
  }

  function Literal(s: string, lit: string): Option<string> {
    if lit <= s then Some(s[|lit|..]) else None
  }

  /** A string's characters up to the closing quote, which stays with the rest. */
  function UpToQuote(s: string): Option<(string, string)> {
    if s == "" || s[0] == '\\' then None
    else if s[0] == '"' then Some(("", s))
    else
      var more := UpToQuote(s[1..]);
      if more.None? then None else Some(([s[0]] + more.value.0, more.value.1))
  }

  function ParsePayload(s: string): Option<(string, string)> {
    var a := Literal(s, TS);
    if a.None? then None
    else
      var ts := UpToQuote(a.value);
      if ts.None? then None
      else
        var b := Literal(ts.value.1, ID);
        if b.None? then None
        else
          var id := UpToQuote(b.value);
          if id.None? || id.value.1 != END then None else Some((ts.value.0, id.value.0))
  }

  lemma LiteralMatches(lit: string, rest: string)
    ensures Literal(lit + rest, lit) == Some(rest)
  {
  }

  lemma {:induction false} QuoteFound(a: string, rest: string)
    requires Plain(a) && rest != "" && rest[0] == '"'
    ensures UpToQuote(a + rest) == Some((a, rest))
    decreases |a|
  {
    if a == "" {
      assert a + rest == rest;
    } else {
      assert a[0] in a && forall c :: c in a[1..] ==> c in a;
      QuoteFound(a[1..], rest);
      assert (a + rest)[1..] == a[1..] + rest && [a[0]] + a[1..] == a;
    }
  }

  lemma PayloadRoundTrip(ts: string, id: string)
    requires Plain(ts) && Plain(id)
    ensures ParsePayload(Payload(ts, id)) == Some((ts, id))
  {
    LiteralMatches(TS, ts + (ID + (id + END)));
    QuoteFound(ts, ID + (id + END));
    LiteralMatches(ID, id + END);
    QuoteFound(id, END);
  }

  // ----- text and bytes -----

  function AsByte(s: string, i: nat): Base64.Byte
    requires i < |s| && forall c :: c in s ==> c as int < 128
  {
    assert s[i] in s;
    s[i] as int
  }

  function Bytes(s: string): (b: seq<Base64.Byte>)
    requires forall c :: c in s ==> c as int < 128
    ensures |b| == |s|
  {
    seq<Base64.Byte>(|s|, i requires 0 <= i < |s| => AsByte(s, i))
  }

  function AsciiText(b: seq<Base64.Byte>): Option<string> {
    if exists i :: 0 <= i < |b| && b[i] >= 128 then None
    else Some(seq(|b|, i requires 0 <= i < |b| => if b[i] < 128 then b[i] as char else '?'))
  }

  lemma TextRoundTrip(s: string)
    requires forall c :: c in s ==> c as int < 128
    ensures AsciiText(Bytes(s)) == Some(s)
  {
    assert forall i :: 0 <= i < |s| ==> s[i] in s;
    assert forall i :: 0 <= i < |s| ==> Bytes(s)[i] < 128;
    assert AsciiText(Bytes(s)).value == s;
  }

  // ----- cursors -----

  lemma {:induction false} FieldsArePlain(values: seq<nat>, shape: seq<Iso8601.Field>, rest: string)
    requires |values| == |shape|
    requires Plain(rest) && forall i :: 0 <= i < |shape| ==> Plain([shape[i].separator])
    ensures Plain(Iso8601.PrintFields(values, shape, rest))
    decreases |shape|
  {
    if shape != [] {
      assert shape[0].separator in [shape[0].separator];
      FieldsArePlain(values[1..], shape[1..], rest);
    }
  }

  lemma TimestampIsPlain(t: Iso8601.DateTime)
    ensures Plain(Iso8601.PrintUtc(t))
  {
    FieldsArePlain([t.year, t.month, t.day, t.hour, t.minute], Iso8601.DATE_TIME,
      Iso8601.Decimal(t.second, 2) + (Iso8601.PrintFraction(t.micro) + "+00:00"));
  }

  function PayloadOf(t: Iso8601.DateTime, id: nat): (s: string)
    ensures forall c :: c in s ==> c as int < 128
  {
    TimestampIsPlain(t);
    Payload(Iso8601.PrintUtc(t), Uuid.Print(id))
  }

  /** `None` stands for the overflow of a timestamp whose UTC year is not a year from 1 to 9999. */
  function EncodeCursor(createdAt: Iso8601.DateTime, id: nat): Option<string> {
    var t := Iso8601.ToUtc(createdAt);
    if t.None? then None else Some(Base64.Encode(Bytes(PayloadOf(t.value, id))))
  }

  /** Any text has an answer: `None` if some stage refuses it. */
  function DecodeCursor(cursor: string): Option<(Iso8601.DateTime, nat)> {
    var raw := Base64.Decode(cursor);
    if raw.None? then None
    else
      var text := AsciiText(raw.value);
      if text.None? then None
      else
        var payload := ParsePayload(text.value);
        if payload.None? then None
        else
          var t, id := Iso8601.Parse(payload.value.0), Uuid.Parse(payload.value.1);
          if t.None? || id.None? then None else Some((t.value, id.value))
  }

  /** Decoding gives back the same instant, to the microsecond and in UTC, and the same id. */
  lemma CursorRoundTrip(createdAt: Iso8601.DateTime, id: nat)
    requires Uuid.IsUuid(id) && Iso8601.ToUtc(createdAt).Some?
    ensures EncodeCursor(createdAt, id).Some? && EncodeCursor(createdAt, id).value != ""
    ensures var d := DecodeCursor(EncodeCursor(createdAt, id).value);
            && d.Some? && d.value.1 == id && d.value.0.offset == 0
            && Iso8601.Instant(d.value.0) == Iso8601.Instant(createdAt)
  {
    var t := Iso8601.ToUtc(createdAt).value;
    var ts, name := Iso8601.PrintUtc(t), Uuid.Print(id);
    var text := PayloadOf(t, id);
    Base64.DecodeEncode(Bytes(text));
    TextRoundTrip(text);
    TimestampIsPlain(t);
    PayloadRoundTrip(ts, name);
    Iso8601.PrintRoundTrip(t);
    Uuid.PrintRoundTrip(id);
  }

  /** A timestamp can be encoded exactly when its instant has a UTC form, that is, falls in the years 1 to 9999. */
  lemma EncodableInstants(createdAt: Iso8601.DateTime, id: nat)
    ensures EncodeCursor(createdAt, id).Some? <==> exists t :: Iso8601.IsUtcFormOf(t, createdAt)
  {
    Iso8601.ToUtcIsDefined(createdAt);
  }

  /** What the JSON payload looks like. */
  lemma PayloadText(ts: string, id: string)
    ensures Payload(ts, id) == "{\"ts\": \"" + ts + "\", \"id\": \"" + id + "\"}"
  {
  }
}
