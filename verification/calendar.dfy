/** Proleptic Gregorian dates and times of day as Python's `datetime` holds
    them (years 1 to 9999), the one-day step `+ timedelta(days=1)`, and the
    `strftime` renderings the forms and the exporter use. */
module Calendar {
  import opened Common

  datatype Moment = Moment(year: int, month: int, day: int, hour: int, minute: int, second: int)

  const MaxYear := 9999

  predicate IsLeap(y: int)
  {
    y % 4 == 0 && (y % 100 != 0 || y % 400 == 0)
  }

  function DaysInMonth(y: int, m: int): (r: int)
    requires 1 <= m <= 12
    ensures 28 <= r <= 31
  {
    if m == 2 then (if IsLeap(y) then 29 else 28)
    else if m == 4 || m == 6 || m == 9 || m == 11 then 30
    else 31
  }

  function YearLength(y: int): int
  {
    if IsLeap(y) then 366 else 365
  }

  predicate ValidDate(y: int, m: int, d: int)
  {
    1 <= y <= MaxYear && 1 <= m <= 12 && 1 <= d <= DaysInMonth(y, m)
  }

  predicate Valid(t: Moment)
  {
    ValidDate(t.year, t.month, t.day) && 0 <= t.hour < 24 && 0 <= t.minute < 60 && 0 <= t.second < 60
  }

  /** Days in the years before y. */
  function DaysBeforeYear(y: int): int
    requires y >= 1
    decreases y
  {
    if y == 1 then 0 else DaysBeforeYear(y - 1) + YearLength(y - 1)
  }

  /** Days in the months of year y before month m. */
  function DaysBeforeMonth(y: int, m: int): int
    requires 1 <= m <= 13
    decreases m
  {
    if m == 1 then 0 else DaysBeforeMonth(y, m - 1) + DaysInMonth(y, m - 1)
  }

  /** `date.toordinal()`: 1 for 0001-01-01, counting one per day. */
  function Ordinal(y: int, m: int, d: int): int
    requires ValidDate(y, m, d)
  {
    DaysBeforeYear(y) + DaysBeforeMonth(y, m) + d
  }

  /** The twelve months fill the year. */
  lemma MonthsFillYear(y: int)
    ensures DaysBeforeMonth(y, 13) == YearLength(y)
  {
    var feb := DaysInMonth(y, 2);
    assert DaysBeforeMonth(y, 2) == 31;
    assert DaysBeforeMonth(y, 3) == 31 + feb;
    assert DaysBeforeMonth(y, 4) == 62 + feb;
    assert DaysBeforeMonth(y, 5) == 92 + feb;
    assert DaysBeforeMonth(y, 6) == 123 + feb;
    assert DaysBeforeMonth(y, 7) == 153 + feb;
    assert DaysBeforeMonth(y, 8) == 184 + feb;
    assert DaysBeforeMonth(y, 9) == 215 + feb;
    assert DaysBeforeMonth(y, 10) == 245 + feb;
    assert DaysBeforeMonth(y, 11) == 276 + feb;
    assert DaysBeforeMonth(y, 12) == 306 + feb;
  }

  /** `t + timedelta(days=1)`: the same time of day on the next calendar day;
      past 9999-12-31 Python raises `OverflowError` (None). */
  function NextDay(t: Moment): (r: Option<Moment>)
    requires Valid(t)
    ensures r.Some? ==> Valid(r.value)
  {
    if t.day < DaysInMonth(t.year, t.month) then Some(t.(day := t.day + 1))
    else if t.month < 12 then Some(t.(month := t.month + 1, day := 1))
    else if t.year < MaxYear then Some(t.(year := t.year + 1, month := 1, day := 1))
    else None
  }

  /** The step is exactly one day: the ordinal grows by one and the time of
      day is kept; it fails only on the last representable day. */
  lemma NextDayIsOneDay(t: Moment)
    requires Valid(t)
    ensures NextDay(t).None? <==> t.year == MaxYear && t.month == 12 && t.day == 31
    ensures NextDay(t).Some? ==>
      var u := NextDay(t).value;
      && Ordinal(u.year, u.month, u.day) == Ordinal(t.year, t.month, t.day) + 1
      && u.hour == t.hour && u.minute == t.minute && u.second == t.second
  {
    if t.day == DaysInMonth(t.year, t.month) && t.month == 12 && t.year < MaxYear {
      MonthsFillYear(t.year);
    }
  }

  // ---------------------------------------------------------------------
  // strftime
  // ---------------------------------------------------------------------

  /** `%Y-%m-%d`. */
  function FormatDate(y: int, m: int, d: int): (s: string)
    requires ValidDate(y, m, d)
  {
    PaddedDecimal(y, 4) + "-" + PaddedDecimal(m, 2) + "-" + PaddedDecimal(d, 2)
  }

  /** `%Y-%m-%dT%H:%M`, the value of a `datetime-local` input. */
  function FormatMinute(t: Moment): (s: string)
    requires Valid(t)
  {
    FormatDate(t.year, t.month, t.day) + "T" + PaddedDecimal(t.hour, 2) + ":" + PaddedDecimal(t.minute, 2)
  }

  /** `%Y-%m-%d %H:%M:%S`. */
  function FormatSecond(t: Moment): (s: string)
    requires Valid(t)
  {
    FormatDate(t.year, t.month, t.day) + " " + PaddedDecimal(t.hour, 2) + ":" + PaddedDecimal(t.minute, 2)
      + ":" + PaddedDecimal(t.second, 2)
  }

  lemma FormatWidths(t: Moment)
    requires Valid(t)
    ensures |PaddedDecimal(t.year, 4)| == 4 && |PaddedDecimal(t.month, 2)| == 2 && |PaddedDecimal(t.day, 2)| == 2
    ensures |PaddedDecimal(t.hour, 2)| == 2 && |PaddedDecimal(t.minute, 2)| == 2 && |PaddedDecimal(t.second, 2)| == 2
    ensures |FormatDate(t.year, t.month, t.day)| == 10 && |FormatMinute(t)| == 16 && |FormatSecond(t)| == 19
  {
    Pow10Table();
    PaddedDecimalWidth(t.year, 4);
    PaddedDecimalWidth(t.month, 2);
    PaddedDecimalWidth(t.day, 2);
    PaddedDecimalWidth(t.hour, 2);
    PaddedDecimalWidth(t.minute, 2);
    PaddedDecimalWidth(t.second, 2);
  }

  /** Reading a `%Y-%m-%dT%H:%M` text back: the digit fields at their fixed
      places, the separators in between. */
  function ParseMinute(s: string): (r: Option<Moment>)
  {
    if |s| == 16 && s[4] == '-' && s[7] == '-' && s[10] == 'T' && s[13] == ':'
       && AllDigits(s[..4]) && AllDigits(s[5..7]) && AllDigits(s[8..10]) && AllDigits(s[11..13]) && AllDigits(s[14..])
    then
      var t := Moment(DigitsValue(s[..4]), DigitsValue(s[5..7]), DigitsValue(s[8..10]),
                      DigitsValue(s[11..13]), DigitsValue(s[14..]), 0);
      if Valid(t) then Some(t) else None
    else None
  }

  /** The rendering reads back as the same moment to the minute. */
  lemma FormatMinuteRoundTrip(t: Moment)
    requires Valid(t)
    ensures ParseMinute(FormatMinute(t)) == Some(t.(second := 0))
  {
    FormatWidths(t);
    var y, mo, d := PaddedDecimal(t.year, 4), PaddedDecimal(t.month, 2), PaddedDecimal(t.day, 2);
    var h, mi := PaddedDecimal(t.hour, 2), PaddedDecimal(t.minute, 2);
    var p4 := y + "-" + mo + "-" + d;
    var p3 := p4 + "T" + h;
    var p1 := p3 + ":";
    var s := FormatMinute(t);
    assert s == p1 + mi;
    assert |p4| == 10 && |p3| == 13 && |p1| == 14;
    assert s[..13] == p3 && s[13] == ':' && s[14..] == mi;
    assert p3[..10] == p4 && p3[10] == 'T' && p3[11..13] == h;
    assert p4[..4] == y && p4[4] == '-' && p4[5..7] == mo && p4[7] == '-' && p4[8..10] == d;
    assert s[..4] == y && s[5..7] == mo && s[8..10] == d && s[11..13] == h;
    PaddedDecimalValue(t.year, 4);
    PaddedDecimalValue(t.month, 2);
    PaddedDecimalValue(t.day, 2);
    PaddedDecimalValue(t.hour, 2);
    PaddedDecimalValue(t.minute, 2);
  }
}
