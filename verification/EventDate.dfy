// The form for repeating a stored event: its day and time of day are placed in the
// latest month, up to the run's creation, that has such a day.
module EventDate {
  import opened Arithmetic
  import opened Calendars

  const MS_PER_MINUTE := 60_000
  const MS_PER_HOUR := 3_600_000
  const MS_PER_DAY := 86_400_000

  // ---------- Instants ----------

  function Day(t: int): int {
    t / MS_PER_DAY
  }

  function MonthAt(c: Calendar, t: int): int {
    c.monthOf(Day(t))
  }

  function YearAt(c: Calendar, t: int): int {
    MonthAt(c, t) / 12
  }

  function DateOf(c: Calendar, t: int): int {
    Day(t) - c.start(MonthAt(c, t)) + 1
  }

  function HourOf(t: int): int {
    t % MS_PER_DAY / MS_PER_HOUR
  }

  function MinuteOf(t: int): int {
    t % MS_PER_HOUR / MS_PER_MINUTE
  }

  function Assembled(day: int, hour: int, minute: int): int {
    day * MS_PER_DAY + hour * MS_PER_HOUR + minute * MS_PER_MINUTE
  }

  // The day `date` of a month, at a time of day. A date past the end runs into the next month.
  function InMonth(c: Calendar, month: int, date: int, hour: int, minute: int): int {
    Assembled(c.start(month) + date - 1, hour, minute)
  }

  // MakeDay with its month overflow, after Date.UTC reads years 0 to 99 as 1900 to 1999.
  function DateUTC(c: Calendar, year: int, month: int, date: int, hour: int, minute: int): int {
    var full := if 0 <= year <= 99 then 1900 + year else year;
    InMonth(c, 12 * full + month, date, hour, minute)
  }

  // ---------- The search ----------

  // What Number() makes of the stored day.
  datatype Number = NaN | Num(value: real)

  predicate Digit(x: char) {
    '0' <= x <= '9'
  }

  function DigitValue(x: char): int {
    x as int - '0' as int
  }

  function Decimal(s: string): int {
    if s == "" then 0 else 10 * Decimal(s[..|s| - 1]) + DigitValue(s[|s| - 1])
  }

  predicate FourDigits(hhmm: string) {
    |hhmm| == 4 && forall i :: 0 <= i < 4 ==> Digit(hhmm[i])
  }

  // The stored day and time pass the guard.
  predicate Plausible(day: Number, hhmm: string) {
    FourDigits(hhmm) && day.Num? && 1.0 <= day.value <= 31.0 && Decimal(hhmm[..2]) <= 23 && Decimal(hhmm[2..]) <= 59
  }

  // A day that is not a whole number is on no calendar, so the search comes to nothing.
  method EventTime(c: Calendar, day: Number, hhmm: string, createdAt: int) returns (t: int)
    ensures t == if Plausible(day, hhmm) && Whole(day.value)
                 then Found(c, createdAt, day.value.Floor, Decimal(hhmm[..2]), Decimal(hhmm[2..]), 0) else createdAt
  {
    if !Plausible(day, hhmm) {
      return createdAt;
    }
    var hour, minute := Decimal(hhmm[..2]), Decimal(hhmm[2..]);
    for back := 0 to 12
      invariant Whole(day.value) ==> Found(c, createdAt, day.value.Floor, hour, minute, 0)
                                     == Found(c, createdAt, day.value.Floor, hour, minute, back)
    {
      var candidate := Candidate(c, createdAt, back, day.value.Floor, hour, minute);
      if DateOf(c, candidate) as real == day.value && candidate <= createdAt {
        return candidate;
      }
    }
    return createdAt;
  }

  predicate Whole(day: real) {
    day == day.Floor as real
  }

  // The instant tried `back` months before the month of creation.
  function Candidate(c: Calendar, createdAt: int, back: int, date: int, hour: int, minute: int): int {
    DateUTC(c, YearAt(c, createdAt), MonthAt(c, createdAt) % 12 - back, date, hour, minute)
  }

  // A candidate on the stored day and not in the future.
  predicate Taken(c: Calendar, t: int, createdAt: int, date: int) {
    DateOf(c, t) == date && t <= createdAt
  }

  // The first candidate from `back` on that is taken.
  function Found(c: Calendar, createdAt: int, date: int, hour: int, minute: int, back: nat): int
    requires back <= 12
    decreases 12 - back
  {
    if back == 12 then createdAt
    else
      var candidate := Candidate(c, createdAt, back, date, hour, minute);
      if Taken(c, candidate, createdAt, date) then candidate
      else Found(c, createdAt, date, hour, minute, back + 1)
  }

  // ---------- What it finds ----------

  // A whole minute on that day of the month, at that time of day.
  ghost predicate On(c: Calendar, t: int, date: int, hour: int, minute: int) {
    t % MS_PER_MINUTE == 0 && DateOf(c, t) == date && HourOf(t) == hour && MinuteOf(t) == minute
  }

  ghost predicate Latest(c: Calendar, t: int, createdAt: int, date: int, hour: int, minute: int) {
    && On(c, t, date, hour, minute) && t <= createdAt
    && forall other :: On(c, other, date, hour, minute) && other <= createdAt ==> other <= t
  }

  predicate TimeOfDay(hour: int, minute: int) {
    0 <= hour <= 23 && 0 <= minute <= 59
  }

  predicate TwoDigitYear(c: Calendar, createdAt: int) {
    0 <= YearAt(c, createdAt) <= 99
  }

  lemma AssembledParts(day: int, hour: int, minute: int, t: int)
    requires TimeOfDay(hour, minute) && t == Assembled(day, hour, minute)
    ensures Day(t) == day && HourOf(t) == hour && MinuteOf(t) == minute && t % MS_PER_MINUTE == 0
  {
    var rest := hour * MS_PER_HOUR + minute * MS_PER_MINUTE;
    Division(t, day, MS_PER_DAY, rest);
    Division(rest, hour, MS_PER_HOUR, minute * MS_PER_MINUTE);
    Division(t, day * 24 + hour, MS_PER_HOUR, minute * MS_PER_MINUTE);
    Division(minute * MS_PER_MINUTE, minute, MS_PER_MINUTE, 0);
    Division(t, day * 1440 + hour * 60 + minute, MS_PER_MINUTE, 0);
  }

  // A whole minute is put together from its own parts.
  lemma PartsAssemble(t: int)
    requires t % MS_PER_MINUTE == 0
    ensures t == Assembled(Day(t), HourOf(t), MinuteOf(t)) && TimeOfDay(HourOf(t), MinuteOf(t))
  {
    var minutes := t / MS_PER_MINUTE;
    var hours, minute := minutes / 60, minutes % 60;
    AssembledParts(hours / 24, hours % 24, minute, t);
  }

  // A date past the end of its month lands in the next month on another date.
  lemma DateInMonth(c: Calendar, month: int, date: int, hour: int, minute: int, t: int)
    requires c.Valid() && 1 <= date <= 31 && TimeOfDay(hour, minute) && t == InMonth(c, month, date, hour, minute)
    ensures DateOf(c, t) == date <==> date <= c.length(month)
    ensures date <= c.length(month) ==> MonthAt(c, t) == month && On(c, t, date, hour, minute)
  {
    AssembledParts(c.start(month) + date - 1, hour, minute, t);
    assert c.Regular(month) && c.Regular(month + 1);
    if date <= c.length(month) {
      c.MonthIsUnique(Day(t), month);
    } else {
      c.MonthIsUnique(Day(t), month + 1);
    }
  }

  // The only instants on a day and time are the dates of the months that have them.
  lemma OnlyInMonths(c: Calendar, t: int, date: int, hour: int, minute: int)
    requires c.Valid() && On(c, t, date, hour, minute)
    ensures 1 <= date <= c.length(MonthAt(c, t)) && t == InMonth(c, MonthAt(c, t), date, hour, minute)
  {
    PartsAssemble(t);
    assert c.Placed(Day(t));
  }

  // A later month has later instants.
  lemma EarlierMonthIsPast(c: Calendar, month: int, date: int, hour: int, minute: int, t: int)
    requires c.Valid() && 1 <= date <= c.length(month) && TimeOfDay(hour, minute) && month < MonthAt(c, t)
    ensures InMonth(c, month, date, hour, minute) < t
  {
    c.MonthsAreOrdered(month, MonthAt(c, t));
    assert c.Placed(Day(t));
  }

  lemma LaterMonthIsFuture(c: Calendar, month: int, date: int, hour: int, minute: int, t: int)
    requires c.Valid() && 1 <= date && TimeOfDay(hour, minute) && MonthAt(c, t) < month
    ensures t < InMonth(c, month, date, hour, minute)
  {
    c.MonthsAreOrdered(MonthAt(c, t), month);
    assert c.Placed(Day(t));
  }

  // Each try is one month back, except that Date.UTC moves years 0 to 99 on by 1900.
  lemma CandidateIsInMonth(c: Calendar, createdAt: int, back: int, date: int, hour: int, minute: int, month: int)
    requires month == MonthAt(c, createdAt) - back + if TwoDigitYear(c, createdAt) then 12 * 1900 else 0
    ensures Candidate(c, createdAt, back, date, hour, minute) == InMonth(c, month, date, hour, minute)
  {
  }

  // The search ends within three months, so its last line is never reached.
  lemma FoundWithinThreeMonths(c: Calendar, createdAt: int, date: int, hour: int, minute: int) returns (back: nat)
    requires c.Valid() && 1 <= date <= 31 && TimeOfDay(hour, minute) && !TwoDigitYear(c, createdAt)
    ensures back <= 2 && Taken(c, Candidate(c, createdAt, back, date, hour, minute), createdAt, date)
  {
    var m := MonthAt(c, createdAt);
    assert c.Regular(m - 1) && c.Regular(m - 2);
    back := if date <= c.length(m - 1) then 1 else 2;
    CandidateIsInMonth(c, createdAt, back, date, hour, minute, m - back);
    DateInMonth(c, m - back, date, hour, minute, InMonth(c, m - back, date, hour, minute));
    EarlierMonthIsPast(c, m - back, date, hour, minute, createdAt);
  }

  // No instant on the day and time, up to creation, is in a month after `last`.
  ghost predicate RuledOut(c: Calendar, createdAt: int, last: int, date: int, hour: int, minute: int) {
    forall other :: On(c, other, date, hour, minute) && other <= createdAt ==> MonthAt(c, other) <= last
  }

  lemma StartRulesOut(c: Calendar, createdAt: int, date: int, hour: int, minute: int)
    requires c.Valid()
    ensures RuledOut(c, createdAt, MonthAt(c, createdAt), date, hour, minute)
  {
    forall other | On(c, other, date, hour, minute) && other <= createdAt
      ensures MonthAt(c, other) <= MonthAt(c, createdAt)
    {
      c.DaysAreMonotone(Day(other), Day(createdAt));
    }
  }

  // What is taken is the latest, once the later months have been ruled out.
  lemma TakenIsLatest(c: Calendar, createdAt: int, month: int, date: int, hour: int, minute: int, t: int)
    requires c.Valid() && 1 <= date <= 31 && TimeOfDay(hour, minute)
    requires t == InMonth(c, month, date, hour, minute) && Taken(c, t, createdAt, date)
    requires RuledOut(c, createdAt, month, date, hour, minute)
    ensures Latest(c, t, createdAt, date, hour, minute)
  {
    DateInMonth(c, month, date, hour, minute, t);
    forall other | On(c, other, date, hour, minute) && other <= createdAt
      ensures other <= t
    {
      OnlyInMonths(c, other, date, hour, minute);
      if MonthAt(c, other) < month {
        EarlierMonthIsPast(c, MonthAt(c, other), date, hour, minute, t);
      }
    }
  }

  lemma NotTakenRulesOut(c: Calendar, createdAt: int, month: int, date: int, hour: int, minute: int, t: int)
    requires c.Valid() && RuledOut(c, createdAt, month, date, hour, minute)
    requires t == InMonth(c, month, date, hour, minute) && !Taken(c, t, createdAt, date)
    ensures RuledOut(c, createdAt, month - 1, date, hour, minute)
  {
    forall other | On(c, other, date, hour, minute) && other <= createdAt
      ensures MonthAt(c, other) <= month - 1
    {
      OnlyInMonths(c, other, date, hour, minute);
    }
  }

  // Somewhere at or after `back`, up to `hit`, the latest instant is found.
  lemma {:induction false} SearchFindsLatest(c: Calendar, createdAt: int, date: int, hour: int, minute: int,
                                             back: nat, hit: nat)
    requires c.Valid() && 1 <= date <= 31 && TimeOfDay(hour, minute) && !TwoDigitYear(c, createdAt) && back <= hit < 12
    requires RuledOut(c, createdAt, MonthAt(c, createdAt) - back, date, hour, minute)
    requires Taken(c, Candidate(c, createdAt, hit, date, hour, minute), createdAt, date)
    ensures Latest(c, Found(c, createdAt, date, hour, minute, back), createdAt, date, hour, minute)
    decreases hit - back
  {
    var t, month := Candidate(c, createdAt, back, date, hour, minute), MonthAt(c, createdAt) - back;
    CandidateIsInMonth(c, createdAt, back, date, hour, minute, month);
    if Taken(c, t, createdAt, date) {
      TakenIsLatest(c, createdAt, month, date, hour, minute, t);
    } else {
      NotTakenRulesOut(c, createdAt, month, date, hour, minute, t);
      SearchFindsLatest(c, createdAt, date, hour, minute, back + 1, hit);
    }
  }

  // ---------- Where it falls back ----------

  lemma {:induction false} NothingTaken(c: Calendar, createdAt: int, date: int, hour: int, minute: int, back: nat)
    requires back <= 12
    requires forall b :: back <= b < 12 ==> createdAt < Candidate(c, createdAt, b, date, hour, minute)
    ensures Found(c, createdAt, date, hour, minute, back) == createdAt
    decreases 12 - back
  {
    if back == 12 {
    } else {
      NothingTaken(c, createdAt, date, hour, minute, back + 1);
    }
  }

  // A year from 0 to 99 sends every try to the twentieth century.
  lemma TwoDigitYearsTakeNothing(c: Calendar, createdAt: int, date: int, hour: int, minute: int)
    requires c.Valid() && 1 <= date <= 31 && TimeOfDay(hour, minute) && TwoDigitYear(c, createdAt)
    ensures Found(c, createdAt, date, hour, minute, 0) == createdAt
  {
    forall b | 0 <= b < 12
      ensures createdAt < Candidate(c, createdAt, b, date, hour, minute)
    {
      var month := MonthAt(c, createdAt) - b + 12 * 1900;
      CandidateIsInMonth(c, createdAt, b, date, hour, minute, month);
      LaterMonthIsFuture(c, month, date, hour, minute, createdAt);
    }
    NothingTaken(c, createdAt, date, hour, minute, 0);
  }

  // For a plausible whole day, the result is the latest such instant exactly when the
  // year of creation is not one that Date.UTC misreads, or creation itself is on the day
  // and time. Otherwise the result is the time of creation.
  lemma LatestExactlyWhen(c: Calendar, createdAt: int, date: int, hour: int, minute: int)
    requires c == Gregorian() && 1 <= date <= 31 && TimeOfDay(hour, minute)
    ensures Latest(c, Found(c, createdAt, date, hour, minute, 0), createdAt, date, hour, minute)
            <==> !TwoDigitYear(c, createdAt) || On(c, createdAt, date, hour, minute)
    ensures TwoDigitYear(c, createdAt) ==> Found(c, createdAt, date, hour, minute, 0) == createdAt
  {
    GregorianIsValid();
    FindsLatestOrNothing(c, createdAt, date, hour, minute);
  }

  lemma FindsLatestOrNothing(c: Calendar, createdAt: int, date: int, hour: int, minute: int)
    requires c.Valid() && 1 <= date <= 31 && TimeOfDay(hour, minute)
    ensures Latest(c, Found(c, createdAt, date, hour, minute, 0), createdAt, date, hour, minute)
            <==> !TwoDigitYear(c, createdAt) || On(c, createdAt, date, hour, minute)
    ensures TwoDigitYear(c, createdAt) ==> Found(c, createdAt, date, hour, minute, 0) == createdAt
  {
    if TwoDigitYear(c, createdAt) {
      TwoDigitYearsTakeNothing(c, createdAt, date, hour, minute);
    } else {
      var hit := FoundWithinThreeMonths(c, createdAt, date, hour, minute);
      StartRulesOut(c, createdAt, date, hour, minute);
      SearchFindsLatest(c, createdAt, date, hour, minute, 0, hit);
    }
  }

  // A run created on 2 January of the year 50 misses the day before it: its month is
  // looked up in 1950, and the search falls back to the time of creation.
  lemma YearFiftyIsMissed(c: Calendar, createdAt: int)
    requires c == Gregorian() && createdAt == InMonth(c, 12 * 50, 2, 0, 0)
    ensures Found(c, createdAt, 1, 0, 0, 0) == createdAt && !Latest(c, createdAt, createdAt, 1, 0, 0)
  {
    GregorianIsValid();
    assert c.Regular(12 * 50);
    DateInMonth(c, 12 * 50, 2, 0, 0, createdAt);
    LatestExactlyWhen(c, createdAt, 1, 0, 0);
  }

  // 951831900000 milliseconds after 1970 began it was 13:45 on 29 February 2000.
  lemma InstantOnRecord(c: Calendar, t: int)
    requires c == Gregorian() && t == 951_831_900_000
    ensures DateOf(c, t) == 29 && MonthAt(c, t) == 12 * 2000 + 1 && HourOf(t) == 13 && MinuteOf(t) == 45
    ensures t == DateUTC(c, 2000, 1, 29, 13, 45)
  {
    DayOnRecord(c);
    InstantParts(c, t, 11016, 12 * 2000 + 1);
  }

  lemma InstantParts(c: Calendar, t: int, day: int, month: int)
    requires t == 951_831_900_000 && day == 11016 && c.monthOf(day) == month && c.start(month) + 28 == day
    requires month == 12 * 2000 + 1
    ensures DateOf(c, t) == 29 && MonthAt(c, t) == month && HourOf(t) == 13 && MinuteOf(t) == 45
    ensures t == DateUTC(c, 2000, 1, 29, 13, 45)
  {
    AssembledParts(day, 13, 45, t);
  }
}
