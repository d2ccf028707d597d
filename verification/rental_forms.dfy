/** The rental form's defaults for a new rental: the scooters it offers, the
    next rental number, and a start and expected end one day apart. */
module RentalForms {
  import opened Common
  import opened Records
  import opened Numbering
  import opened Calendar

  /** A new rental may only pick an available scooter; an existing rental may
      keep any scooter. */
  function RentalScooterChoices(scooters: map<Id, Scooter>, isNew: bool): (r: set<Id>)
    ensures r <= scooters.Keys
    ensures !isNew ==> r == scooters.Keys
    ensures isNew ==> forall s :: s in r <==> s in scooters && scooters[s].status == Available
  {
    if isNew then set s | s in scooters && scooters[s].status == Available else scooters.Keys
  }

  const RentalPrefix := "R"

  /** For a new rental without a number, after `R` followed by n the form
      proposes `R` followed by n + 1 in six digits; with no rental, or a last
      number that is not `R` and an integer, it proposes `R000001`. An
      existing rental keeps its number. */
  lemma RentalNumbers(n: nat, last: Option<string>, initial: string)
    requires n < 999999
    ensures ProposedNumber(RentalPrefix, true, "", Some(RentalPrefix + Format06(n))) == RentalPrefix + Format06(n + 1)
    ensures |Format06(n + 1)| == 6
    ensures || last.None?
            || !(1 <= |last.value| && last.value[..1] == RentalPrefix)
            || ParseInt(last.value[1..]).None?
        ==> ProposedNumber(RentalPrefix, true, "", last) == "R000001"
    ensures ProposedNumber(RentalPrefix, false, initial, last) == initial
  {
    assert ProposedNumber(RentalPrefix, true, "", Some(RentalPrefix + Format06(n))) == RentalPrefix + Format06(n + 1) by {
      SixDigits(n);
      SixDigits(n + 1);
      NextAfter(RentalPrefix, n);
    }
    SixDigits(n + 1);
    if || last.None? || !(1 <= |last.value| && last.value[..1] == RentalPrefix) || ParseInt(last.value[1..]).None? {
      RestartAtOne(RentalPrefix, last);
      FirstIsOne();
    }
  }

  /** The initial start and expected end of a new rental: `now` and
      `now + timedelta(days=1)`, both as `%Y-%m-%dT%H:%M`. None: the day after
      `now` is past year 9999 and Python raises `OverflowError`. */
  function InitialDates(now: Moment): (r: Option<(string, string)>)
    requires Valid(now)
  {
    match NextDay(now)
    case Some(later) => Some((FormatMinute(now), FormatMinute(later)))
    case None => None
  }

  /** Both texts read back as moments to the minute: the start is `now`, and
      the expected end is the next calendar day at the same hour and
      minute. */
  lemma InitialDatesOneDayApart(now: Moment)
    requires Valid(now) && now.year < MaxYear
    ensures InitialDates(now).Some?
    ensures ParseMinute(InitialDates(now).value.0) == Some(now.(second := 0))
    ensures ParseMinute(InitialDates(now).value.1).Some?
    ensures var start, end := ParseMinute(InitialDates(now).value.0).value, ParseMinute(InitialDates(now).value.1).value;
      && Ordinal(end.year, end.month, end.day) == Ordinal(start.year, start.month, start.day) + 1
      && end.hour == start.hour && end.minute == start.minute
  {
    NextDayIsOneDay(now);
    FormatMinuteRoundTrip(now);
    FormatMinuteRoundTrip(NextDay(now).value);
  }
}
