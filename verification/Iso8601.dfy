/** Timestamps with a UTC offset, their instants, and their ISO 8601 form as Python prints it. */
module Iso8601 {
  import opened Wrappers

  // ----- the calendar -----

  predicate IsLeap(year: nat) {
    year % 4 == 0 && (year % 100 != 0 || year % 400 == 0)
  }

  function DaysIn(year: nat, month: nat): nat {
    if month == 2 then (if IsLeap(year) then 29 else 28)
    else if month == 4 || month == 6 || month == 9 || month == 11 then 30
    else 31
  }

  function DaysBeforeMonth(year: nat, month: nat): nat {
    if month <= 1 then 0 else DaysBeforeMonth(year, month - 1) + DaysIn(year, month - 1)
  }

  function YearDays(year: nat): nat {
    DaysBeforeMonth(year, 12) + DaysIn(year, 12)
  }

  /** Days from 1 January of year 1 to 1 January of the year. */
  function DaysBeforeYear(year: nat): nat {
    if year <= 1 then 0 else DaysBeforeYear(year - 1) + YearDays(year - 1)
  }

  /** The year, from `year` on, that day number `days` falls in. */
  function YearOf(days: nat, year: nat): (y: nat)
    requires year >= 1 && DaysBeforeYear(year) <= days
    ensures y >= year && DaysBeforeYear(y) <= days < DaysBeforeYear(y + 1)
    decreases days - DaysBeforeYear(year)
  {
    if days < DaysBeforeYear(year + 1) then year else YearOf(days, year + 1)
  }

  function MonthOf(year: nat, days: nat, month: nat): (m: nat)
    requires 1 <= month <= 12 && DaysBeforeMonth(year, month) <= days < YearDays(year)
    ensures month <= m <= 12 && DaysBeforeMonth(year, m) <= days < DaysBeforeMonth(year, m) + DaysIn(year, m)
    decreases 12 - month
  {
    if month == 12 || days < DaysBeforeMonth(year, month + 1) then month else MonthOf(year, days, month + 1)
  }

  // ----- timestamps -----

  const SECOND: nat := 1_000_000
  const DAY: int := 86_400_000_000

  /** Local date and time, and how far local time is ahead of UTC, in microseconds. */
  datatype DateTime = DateTime(year: nat, month: nat, day: nat, hour: nat, minute: nat, second: nat, micro: nat, offset: int)

  predicate Valid(t: DateTime) {
    && 1 <= t.year <= 9999 && 1 <= t.month <= 12 && 1 <= t.day <= DaysIn(t.year, t.month)
    && t.hour < 24 && t.minute < 60 && t.second < 60 && t.micro < SECOND
    && -DAY < t.offset < DAY
  }

  function DayNumber(t: DateTime): int {
    DaysBeforeYear(t.year) + DaysBeforeMonth(t.year, t.month) + t.day - 1
  }

  function TimeOfDay(t: DateTime): nat {
    ((t.hour * 60 + t.minute) * 60 + t.second) * SECOND + t.micro
  }

  /** Microseconds of UTC since the start of year 1. */
  function Instant(t: DateTime): int {
    DayNumber(t) * DAY + TimeOfDay(t) - t.offset
  }

  function UtcTime(date: DateTime, n: nat): (t: DateTime)
    requires n < DAY
    ensures TimeOfDay(t) == n && t.hour < 24 && t.minute < 60 && t.second < 60 && t.micro < SECOND && t.offset == 0
    ensures t.year == date.year && t.month == date.month && t.day == date.day
    ensures Instant(t) == DayNumber(date) * DAY + n
  {
    var seconds := n / SECOND;
    date.(hour := seconds / 3600, minute := seconds / 60 % 60, second := seconds % 60, micro := n % SECOND, offset := 0)
  }

  function UtcDate(days: nat): (t: DateTime)
    ensures DayNumber(t) == days && t.year >= 1 && 1 <= t.month <= 12 && 1 <= t.day <= DaysIn(t.year, t.month)
  {
    var year := YearOf(days, 1);
    var rest := days - DaysBeforeYear(year);
    var month := MonthOf(year, rest, 1);
    DateTime(year, month, rest - DaysBeforeMonth(year, month) + 1, 0, 0, 0, 0, 0)
  }

  lemma DayAndRest(n: nat)
    ensures n / DAY >= 0 && 0 <= n % DAY < DAY && n / DAY * DAY + n % DAY == n
  {
  }

  function AtInstant(n: nat): (t: DateTime)
    ensures Instant(t) == n && t.offset == 0
    ensures t.hour < 24 && t.minute < 60 && t.second < 60 && t.micro < SECOND
    ensures t.month >= 1 && t.day >= 1 && (t.year <= 9999 ==> Valid(t))
  {
    DayAndRest(n);
    var days, rest := n / DAY, n % DAY;
    UtcTime(UtcDate(days), rest)
  }

  /** `t.astimezone(UTC)`; an instant outside the years 1 to 9999 is an overflow. */
  function ToUtc(t: DateTime): (r: Option<DateTime>)
    ensures r.Some? ==> Valid(r.value) && r.value.offset == 0 && Instant(r.value) == Instant(t)
  {
    if Instant(t) < 0 then None
    else
      var u := AtInstant(Instant(t));
      if u.year > 9999 then None else Some(u)
  }

  lemma {:induction false} MonthsFit(year: nat, month: nat)
    requires 1 <= month <= 12
    ensures DaysBeforeMonth(year, month) + DaysIn(year, month) <= YearDays(year)
    decreases 12 - month
  {
    if month < 12 {
      MonthsFit(year, month + 1);
    }
  }

  lemma {:induction false} YearsFit(y: nat, z: nat)
    requires 1 <= y < z
    ensures DaysBeforeYear(y) + YearDays(y) <= DaysBeforeYear(z)
    decreases z
  {
    if y < z - 1 {
      YearsFit(y, z - 1);
    }
  }

  predicate IsUtcFormOf(u: DateTime, t: DateTime) {
    Valid(u) && u.offset == 0 && Instant(u) == Instant(t)
  }

  lemma SameQuotient(a: int, r: int, b: int, s: int)
    requires 0 <= r < DAY && 0 <= s < DAY && a * DAY + r == b * DAY + s
    ensures a == b
  {
    assert a < b ==> a + 1 <= b;
    assert b < a ==> b + 1 <= a;
  }

  lemma NotALaterYear(u: DateTime, v: DateTime)
    requires Valid(u) && v.month >= 1 && v.day >= 1 && DayNumber(u) == DayNumber(v)
    ensures v.year <= u.year
  {
    MonthsFit(u.year, u.month);
    if v.year > u.year {
      YearsFit(u.year, v.year);
    }
  }

  lemma ValidTimeOfDay(t: DateTime)
    requires t.hour < 24 && t.minute < 60 && t.second < 60 && t.micro < SECOND
    ensures TimeOfDay(t) < DAY
  {
  }

  lemma Scaled(days: int)
    requires days >= 0
    ensures days * DAY >= 0
  {
  }

  lemma UtcInstantIsNatural(u: DateTime)
    requires Valid(u) && u.offset == 0
    ensures Instant(u) >= 0
  {
    Scaled(DayNumber(u));
  }

  lemma SameInstantSameYear(u: DateTime, v: DateTime)
    requires Valid(u) && u.offset == 0 && v.offset == 0 && Instant(u) == Instant(v)
    requires v.month >= 1 && v.day >= 1 && v.hour < 24 && v.minute < 60 && v.second < 60 && v.micro < SECOND
    ensures v.year <= u.year
  {
    ValidTimeOfDay(u);
    ValidTimeOfDay(v);
    SameQuotient(DayNumber(u), TimeOfDay(u), DayNumber(v), TimeOfDay(v));
    NotALaterYear(u, v);
  }

  lemma ToUtcIsDefined(t: DateTime)
    ensures ToUtc(t).Some? <==> exists u :: IsUtcFormOf(u, t)
  {
    if ToUtc(t).Some? {
      assert IsUtcFormOf(ToUtc(t).value, t);
    }
    if u :| IsUtcFormOf(u, t) {
      UtcInstantIsNatural(u);
      SameInstantSameYear(u, AtInstant(Instant(t)));
    }
  }

  // ----- the calendar is the Gregorian one -----

  lemma YearLength(year: nat)
    ensures YearDays(year) == if year % 4 == 0 && (year % 100 != 0 || year % 400 == 0) then 366 else 365
  {
    assert DaysBeforeMonth(year, 2) == 31;
    assert DaysBeforeMonth(year, 4) == DaysIn(year, 2) + 62;
    assert DaysBeforeMonth(year, 6) == DaysIn(year, 2) + 123;
    assert DaysBeforeMonth(year, 8) == DaysIn(year, 2) + 184;
    assert DaysBeforeMonth(year, 10) == DaysIn(year, 2) + 245;
    assert DaysBeforeMonth(year, 12) == DaysIn(year, 2) + 306;
  }

  lemma QuarterStep(y: nat)
    requires y >= 1
    ensures y / 4 - (y - 1) / 4 == if y % 4 == 0 then 1 else 0
  {
  }

  lemma CenturyStep(y: nat)
    requires y >= 1
    ensures y / 100 - (y - 1) / 100 == if y % 100 == 0 then 1 else 0
    ensures y % 100 == 0 ==> y % 4 == 0
  {
  }

  lemma CycleStep(y: nat)
    requires y >= 1
    ensures y / 400 - (y - 1) / 400 == if y % 400 == 0 then 1 else 0
    ensures y % 400 == 0 ==> y % 100 == 0
  {
  }

  /** The closed form for the days before a year. */
  lemma {:induction false} DaysBeforeYearFormula(year: nat)
    requires year >= 1
    ensures DaysBeforeYear(year) == 365 * (year - 1) + (year - 1) / 4 - (year - 1) / 100 + (year - 1) / 400
    decreases year
  {
    if year > 1 {
      var last := year - 1;
      DaysBeforeYearFormula(last);
      YearLength(last);
      QuarterStep(last);
      CenturyStep(last);
      CycleStep(last);
    }
  }

  /** One o'clock an hour ahead of UTC is midnight in UTC. */
  lemma AheadOfUtc(t: DateTime)
    requires t.hour >= 1 && t.offset == 3_600_000_000
    ensures Instant(t) == Instant(t.(hour := t.hour - 1, offset := 0))
  {
  }

  // ----- decimal numbers of fixed width -----

  function Pow10(n: nat): nat {
    if n == 0 then 1 else 10 * Pow10(n - 1)
  }

  predicate IsDigit(c: char) {
    '0' <= c <= '9'
  }

  function Decimal(n: nat, width: nat): (s: string)
    ensures |s| == width && forall i :: 0 <= i < width ==> IsDigit(s[i])
  {
    if width == 0 then "" else Decimal(n / 10, width - 1) + ['0' + (n % 10) as char]
  }

  function DecimalValue(s: string): Option<nat> {
    if s == "" then Some(0)
    else
      var high, c := DecimalValue(s[..|s| - 1]), s[|s| - 1];
      if high.None? || !IsDigit(c) then None else Some(10 * high.value + (c - '0') as nat)
  }

  lemma {:induction false} DecimalRoundTrip(n: nat, width: nat)
    requires n < Pow10(width)
    ensures DecimalValue(Decimal(n, width)) == Some(n)
    decreases width
  {
    if width > 0 {
      DecimalRoundTrip(n / 10, width - 1);
      var s := Decimal(n, width);
      assert s[..|s| - 1] == Decimal(n / 10, width - 1);
    }
  }

  /** A number of the given width at the front of a text, and the rest of the text. */
  function TakeNumber(s: string, width: nat): Option<(nat, string)> {
    if |s| < width || DecimalValue(s[..width]).None? then None else Some((DecimalValue(s[..width]).value, s[width..]))
  }

  lemma TakeDecimal(n: nat, width: nat, rest: string)
    requires n < Pow10(width)
    ensures TakeNumber(Decimal(n, width) + rest, width) == Some((n, rest))
  {
    DecimalRoundTrip(n, width);
    var s := Decimal(n, width) + rest;
    assert s[..width] == Decimal(n, width) && s[width..] == rest;
  }

  // ----- numbers with separators after them -----

  datatype Field = Field(width: nat, separator: char)

  function PrintField(n: nat, f: Field, rest: string): string {
    Decimal(n, f.width) + ([f.separator] + rest)
  }

  function TakeField(s: string, f: Field): Option<(nat, string)> {
    var n := TakeNumber(s, f.width);
    if n.None? || n.value.1 == "" || n.value.1[0] != f.separator then None else Some((n.value.0, n.value.1[1..]))
  }

  lemma FieldRoundTrip(n: nat, f: Field, rest: string)
    requires n < Pow10(f.width)
    ensures TakeField(PrintField(n, f, rest), f) == Some((n, rest))
  {
    TakeDecimal(n, f.width, [f.separator] + rest);
  }

  function PrintFields(values: seq<nat>, shape: seq<Field>, rest: string): string
    requires |values| == |shape|
  {
    if shape == [] then rest else PrintField(values[0], shape[0], PrintFields(values[1..], shape[1..], rest))
  }

  function TakeFields(s: string, shape: seq<Field>): (r: Option<(seq<nat>, string)>)
    ensures r.Some? ==> |r.value.0| == |shape|
    decreases |shape|
  {
    if shape == [] then Some(([], s))
    else
      var first := TakeField(s, shape[0]);
      if first.None? then None
      else
        var more := TakeFields(first.value.1, shape[1..]);
        if more.None? then None else Some(([first.value.0] + more.value.0, more.value.1))
  }

  lemma {:induction false} FieldsRoundTrip(values: seq<nat>, shape: seq<Field>, rest: string)
    requires |values| == |shape|
    requires forall i :: 0 <= i < |shape| ==> values[i] < Pow10(shape[i].width)
    ensures TakeFields(PrintFields(values, shape, rest), shape) == Some((values, rest))
    decreases |shape|
  {
    if shape != [] {
      FieldRoundTrip(values[0], shape[0], PrintFields(values[1..], shape[1..], rest));
      FieldsRoundTrip(values[1..], shape[1..], rest);
      assert [values[0]] + values[1..] == values;
    }
  }

  // ----- the ISO form -----

  const DATE_TIME := [Field(4, '-'), Field(2, '-'), Field(2, 'T'), Field(2, ':'), Field(2, ':')]
  const OFFSET := [Field(2, ':')]

  function PrintFraction(micro: nat): string {
    if micro == 0 then "" else "." + Decimal(micro, 6)
  }

  /** `t.isoformat()` in UTC */
  function PrintUtc(t: DateTime): string {
    PrintFields([t.year, t.month, t.day, t.hour, t.minute], DATE_TIME, Decimal(t.second, 2) + (PrintFraction(t.micro) + "+00:00"))
  }

  function TakeFraction(s: string): Option<(nat, string)> {
    if s != "" && s[0] == '.' then TakeNumber(s[1..], 6) else Some((0, s))
  }

  /** `+HH:MM` or `-HH:MM` at the end of the text, in microseconds. */
  function ParseOffset(s: string): Option<int> {
    if s == "" || (s[0] != '+' && s[0] != '-') then None
    else
      var hours := TakeFields(s[1..], OFFSET);
      if hours.None? then None
      else
        var minutes := TakeNumber(hours.value.1, 2);
        if minutes.None? || minutes.value.1 != "" || minutes.value.0 >= 60 then None
        else
          var size := (hours.value.0[0] * 60 + minutes.value.0) * 60 * SECOND;
          Some(if s[0] == '+' then size else -size)
  }

  /** `datetime.fromisoformat(s)` on the extended form with an offset; impossible dates and times are refused. */
  function Parse(s: string): (r: Option<DateTime>)
    ensures r.Some? ==> Valid(r.value)
  {
    var front := TakeFields(s, DATE_TIME);
    if front.None? then None
    else
      var (v, afterMinute) := front.value;
      var second := TakeNumber(afterMinute, 2);
      if second.None? then None
      else
        var fraction := TakeFraction(second.value.1);
        if fraction.None? then None
        else
          var offset := ParseOffset(fraction.value.1);
          if offset.None? then None
          else
            var t := DateTime(v[0], v[1], v[2], v[3], v[4], second.value.0, fraction.value.0, offset.value);
            if Valid(t) then Some(t) else None
  }

  lemma TwoZeros()
    ensures Decimal(0, 2) == "00"
  {
    assert Decimal(0, 1) == "" + "0";
  }

  lemma ZeroHours()
    ensures TakeFields("00:00", OFFSET) == Some(([0], "00"))
  {
    TwoZeros();
    FieldsRoundTrip([0], OFFSET, "00");
    assert PrintFields([0], OFFSET, "00") == "00" + (":" + "00") == "00:00";
  }

  lemma ZeroOffset()
    ensures ParseOffset("+00:00") == Some(0)
  {
    ZeroHours();
    TwoZeros();
    TakeDecimal(0, 2, "");
    assert "00" + "" == "00";
    assert "+00:00"[1..] == "00:00";
  }

  lemma FractionRoundTrip(micro: nat, rest: string)
    requires micro < SECOND && rest != "" && rest[0] != '.'
    ensures TakeFraction(PrintFraction(micro) + rest) == Some((micro, rest))
  {
    assert Pow10(6) == SECOND;
    if micro == 0 {
      assert "" + rest == rest;
    } else {
      assert (("." + Decimal(micro, 6)) + rest)[1..] == Decimal(micro, 6) + rest;
      TakeDecimal(micro, 6, rest);
    }
  }

  /** Parsing what was printed gives the timestamp back, with or without a fractional part. */
  lemma PrintRoundTrip(t: DateTime)
    requires Valid(t) && t.offset == 0
    ensures Parse(PrintUtc(t)) == Some(t)
  {
    var end := PrintFraction(t.micro) + "+00:00";
    assert DaysIn(t.year, t.month) < 100 && Pow10(2) == 100 && Pow10(4) == 10000;
    FieldsRoundTrip([t.year, t.month, t.day, t.hour, t.minute], DATE_TIME, Decimal(t.second, 2) + end);
    TakeDecimal(t.second, 2, end);
    FractionRoundTrip(t.micro, "+00:00");
    ZeroOffset();
  }

  /** Most significant digit first. */
  lemma LastDecimal(n: nat, width: nat)
    requires width > 0
    ensures Decimal(n, width) == Decimal(n / 10, width - 1) + ['0' + (n % 10) as char]
  {
  }

  lemma PrintStep(values: seq<nat>, shape: seq<Field>, rest: string, i: nat, f: Field)
    requires |values| == |shape| && i < |values| && f == shape[i]
    ensures PrintFields(values[i..], shape[i..], rest)
         == Decimal(values[i], f.width) + ([f.separator] + PrintFields(values[i + 1..], shape[i + 1..], rest))
  {
    assert values[i..][1..] == values[i + 1..] && shape[i..][1..] == shape[i + 1..];
  }

  /** Year, month and day with hyphens, a `T`, and hour and minute with colons. */
  lemma FieldsText(values: seq<nat>, rest: string)
    requires |values| == 5
    ensures PrintFields(values, DATE_TIME, rest)
         == Decimal(values[0], 4) + ("-" + (Decimal(values[1], 2) + ("-" + (Decimal(values[2], 2) + ("T"
            + (Decimal(values[3], 2) + (":" + (Decimal(values[4], 2) + (":" + rest)))))))))
  {
    PrintStep(values, DATE_TIME, rest, 4, Field(2, ':'));
    PrintStep(values, DATE_TIME, rest, 3, Field(2, ':'));
    PrintStep(values, DATE_TIME, rest, 2, Field(2, 'T'));
    PrintStep(values, DATE_TIME, rest, 1, Field(2, '-'));
    PrintStep(values, DATE_TIME, rest, 0, Field(4, '-'));
    assert values[0..] == values && DATE_TIME[0..] == DATE_TIME && values[5..] == [];
  }

  /** What a printed timestamp looks like, such as 2024-02-29T12:00:05+00:00. */
  lemma PrintText(t: DateTime)
    ensures var fraction := if t.micro == 0 then "" else "." + Decimal(t.micro, 6);
            PrintUtc(t)
            == Decimal(t.year, 4) + ("-" + (Decimal(t.month, 2) + ("-" + (Decimal(t.day, 2) + ("T"
               + (Decimal(t.hour, 2) + (":" + (Decimal(t.minute, 2) + (":" + (Decimal(t.second, 2) + (fraction + "+00:00")))))))))))
  {
    FieldsText([t.year, t.month, t.day, t.hour, t.minute], Decimal(t.second, 2) + (PrintFraction(t.micro) + "+00:00"));
  }
}
