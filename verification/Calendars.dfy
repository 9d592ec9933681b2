// The proleptic Gregorian calendar of section 21.4.1 of ECMA-262, as months that abut.
module Calendars {
  import opened Arithmetic

  // Months numbered without gaps, each with its first day and its length.
  datatype Calendar = Calendar(start: int -> int, length: int -> int, monthOf: int -> int) {

    // Month m has 28 to 31 days, the next one starts where it ends, and of it and its
    // neighbour one is long.
    ghost predicate Regular(m: int) {
      28 <= length(m) <= 31 && start(m + 1) == start(m) + length(m) && (length(m) == 31 || length(m - 1) == 31)
    }

    ghost predicate Placed(day: int) {
      start(monthOf(day)) <= day < start(monthOf(day)) + length(monthOf(day))
    }

    ghost predicate Valid() {
      (forall m: int :: Regular(m)) && (forall day: int :: Placed(day))
    }

    lemma {:induction false} MonthsAreOrdered(m: int, later: int)
      requires Valid() && m < later
      ensures start(m) + length(m) <= start(later)
      decreases later - m
    {
      assert Regular(m);
      if m + 1 == later {
      } else {
        MonthsAreOrdered(m + 1, later);
        assert Regular(m + 1);
      }
    }

    lemma MonthIsUnique(day: int, m: int)
      requires Valid() && start(m) <= day < start(m) + length(m)
      ensures m == monthOf(day)
    {
      assert Placed(day);
      if m < monthOf(day) {
        MonthsAreOrdered(m, monthOf(day));
      } else if monthOf(day) < m {
        MonthsAreOrdered(monthOf(day), m);
      }
    }

    lemma DaysAreMonotone(day: int, later: int)
      requires Valid() && day <= later
      ensures monthOf(day) <= monthOf(later)
    {
      assert Placed(day) && Placed(later);
      if monthOf(later) < monthOf(day) {
        MonthsAreOrdered(monthOf(later), monthOf(day));
      }
    }
  }

  function DayFromYear(y: int): int {
    365 * (y - 1970) + (y - 1969) / 4 - (y - 1901) / 100 + (y - 1601) / 400
  }

  predicate Leap(y: int) {
    y % 4 == 0 && (y % 100 != 0 || y % 400 == 0)
  }

  // Days of the year before month m.
  function MonthOffset(m: int, leap: bool): int
    requires 0 <= m <= 12
  {
    var l := if leap then 1 else 0;
    if m == 0 then 0 else if m == 1 then 31 else if m == 2 then 59 + l else if m == 3 then 90 + l
    else if m == 4 then 120 + l else if m == 5 then 151 + l else if m == 6 then 181 + l else if m == 7 then 212 + l
    else if m == 8 then 243 + l else if m == 9 then 273 + l else if m == 10 then 304 + l
    else if m == 11 then 334 + l else 365 + l
  }

  // Months are counted 12 to a year from year 0.
  function MonthStart(month: int): int {
    DayFromYear(month / 12) + MonthOffset(month % 12, Leap(month / 12))
  }

  function MonthLength(month: int): int {
    var m := month % 12;
    if m == 1 then (if Leap(month / 12) then 29 else 28)
    else if m in {3, 5, 8, 10} then 30 else 31
  }

  // The largest year that starts no later than the day.
  function YearOf(day: int): (y: int)
    ensures DayFromYear(y) <= day < DayFromYear(y + 1)
  {
    var guess := 1970 + day * 400 / 146097;
    GuessIsClose(day, guess);
    if day < DayFromYear(guess) then guess - 1
    else if DayFromYear(guess + 1) <= day then guess + 1
    else guess
  }

  lemma GuessIsClose(day: int, guess: int)
    requires guess == 1970 + day * 400 / 146097
    ensures DayFromYear(guess - 1) <= day < DayFromYear(guess + 2)
  {
  }

  lemma YearLength(y: int)
    ensures DayFromYear(y + 1) - DayFromYear(y) == if Leap(y) then 366 else 365
  {
    LeapStep(y, 4, 1969);
    LeapStep(y, 100, 1901);
    LeapStep(y, 400, 1601);
    CenturiesNest(y);
    DaysAdd(y, (y - 1969) / 4, (y - 1901) / 100, (y - 1601) / 400,
            (y - 1968) / 4, (y - 1900) / 100, (y - 1600) / 400);
  }

  lemma CenturiesNest(y: int)
    ensures y % 400 == 0 ==> y % 100 == 0
    ensures y % 100 == 0 ==> y % 4 == 0
  {
    if y % 100 == 0 {
      Division(y, y / 100 * 25, 4, 0);
    }
    if y % 400 == 0 {
      Division(y, y / 400 * 4, 100, 0);
    }
  }

  // With the multiples of 4, 100 and 400 counted before a year and before the next.
  lemma DaysAdd(y: int, a: int, b: int, c: int, a': int, b': int, c': int)
    requires a' - a == if y % 4 == 0 then 1 else 0
    requires b' - b == if y % 100 == 0 then 1 else 0
    requires c' - c == if y % 400 == 0 then 1 else 0
    requires (y % 400 == 0 ==> y % 100 == 0) && (y % 100 == 0 ==> y % 4 == 0)
    ensures 365 * (y + 1 - 1970) + a' - b' + c' - (365 * (y - 1970) + a - b + c) == if Leap(y) then 366 else 365
  {
  }

  // The quotient moves on exactly when y is a multiple of n.
  lemma LeapStep(y: int, n: int, base: int)
    requires n in {4, 100, 400} && base % n == 1
    ensures (y + 1 - base) / n - (y - base) / n == if y % n == 0 then 1 else 0
  {
    var x := y - base;
    Division(x, x / n, n, x % n);
    if x % n < n - 1 {
      Division(x + 1, x / n, n, x % n + 1);
      Division(y, x / n + base / n, n, x % n + 1);
    } else {
      Division(x + 1, x / n + 1, n, 0);
      Division(y, x / n + base / n + 1, n, 0);
    }
  }

  function MonthIn(offset: int, leap: bool): (m: int)
    requires 0 <= offset < if leap then 366 else 365
    ensures 0 <= m < 12 && MonthOffset(m, leap) <= offset < MonthOffset(m + 1, leap)
  {
    // No month is longer than 31 days, so this is the month or the one before it.
    var guess := offset / 31;
    if offset < MonthOffset(guess + 1, leap) then guess else guess + 1
  }

  // The month a day falls in.
  function MonthOf(day: int): (month: int)
    ensures MonthStart(month) <= day < MonthStart(month) + MonthLength(month) && month / 12 == YearOf(day)
  {
    MonthWithin(YearOf(day), day)
  }

  function MonthWithin(y: int, day: int): (month: int)
    requires DayFromYear(y) <= day < DayFromYear(y + 1)
    ensures MonthStart(month) <= day < MonthStart(month) + MonthLength(month) && month / 12 == y
  {
    OffsetFits(y, day);
    var m := MonthIn(day - DayFromYear(y), Leap(y));
    MonthHolds(y, m, day);
    12 * y + m
  }

  lemma OffsetFits(y: int, day: int)
    requires DayFromYear(y) <= day < DayFromYear(y + 1)
    ensures 0 <= day - DayFromYear(y) < if Leap(y) then 366 else 365
  {
    YearLength(y);
  }

  lemma MonthHolds(y: int, m: int, day: int)
    requires 0 <= m < 12 && MonthOffset(m, Leap(y)) <= day - DayFromYear(y) < MonthOffset(m + 1, Leap(y))
    ensures MonthStart(12 * y + m) <= day < MonthStart(12 * y + m) + MonthLength(12 * y + m)
    ensures (12 * y + m) / 12 == y
  {
    MonthOfYear(y, m);
  }

  lemma MonthOfYear(y: int, m: int)
    requires 0 <= m < 12
    ensures (12 * y + m) / 12 == y && MonthStart(12 * y + m) == DayFromYear(y) + MonthOffset(m, Leap(y))
    ensures MonthOffset(m + 1, Leap(y)) == MonthOffset(m, Leap(y)) + MonthLength(12 * y + m)
  {
    Division(12 * y + m, y, 12, m);
  }

  lemma MonthsAbut(month: int)
    ensures MonthStart(month + 1) == MonthStart(month) + MonthLength(month)
  {
    var y, m := month / 12, month % 12;
    YearLength(y);
    if m < 11 {
      assert (month + 1) / 12 == y && (month + 1) % 12 == m + 1;
    } else {
      assert (month + 1) / 12 == y + 1 && (month + 1) % 12 == 0;
    }
  }

  function Gregorian(): Calendar {
    Calendar(MonthStart, MonthLength, MonthOf)
  }

  lemma GregorianIsValid()
    ensures Gregorian().Valid()
  {
    forall m: int
      ensures Gregorian().Regular(m)
    {
      MonthsAbut(m);
      OneOfTwoIsLong(m);
    }
    forall day: int
      ensures Gregorian().Placed(day)
    {
      var m := MonthOf(day);
    }
  }

  // Of two neighbouring months, one has 31 days.
  lemma OneOfTwoIsLong(month: int)
    ensures MonthLength(month) == 31 || MonthLength(month - 1) == 31
  {
  }

  lemma YearsOnRecord()
    ensures DayFromYear(1970) == 0 && DayFromYear(2000) == 10957
    ensures Leap(2000) && !Leap(1900) && !Leap(2100)
  {
  }

  // Days are counted from 1 January 1970, and 29 February 2000 is day 11016; 1900 and 2100
  // have no such day.
  lemma DaysOnRecord()
    ensures MonthStart(12 * 1970) == 0 && MonthStart(12 * 2000 + 1) + 28 == 11016 && MonthLength(12 * 2000 + 1) == 29
    ensures MonthLength(12 * 1900 + 1) == 28 && MonthLength(12 * 2100 + 1) == 28
  {
    YearsOnRecord();
    MonthOfYear(1970, 0);
    MonthOfYear(2000, 1);
    MonthOfYear(1900, 1);
    MonthOfYear(2100, 1);
  }

  lemma DayOnRecord(c: Calendar)
    requires c == Gregorian()
    ensures c.monthOf(11016) == 12 * 2000 + 1 && c.start(12 * 2000 + 1) + 28 == 11016
  {
    GregorianIsValid();
    DaysOnRecord();
    c.MonthIsUnique(11016, 12 * 2000 + 1);
  }

  // 400 years have 146097 days.
  lemma FourCenturies(y: int)
    ensures DayFromYear(y + 400) == DayFromYear(y) + 146097
  {
    Division(y + 400 - 1969, (y - 1969) / 4 + 100, 4, (y - 1969) % 4);
    Division(y + 400 - 1901, (y - 1901) / 100 + 4, 100, (y - 1901) % 100);
    Division(y + 400 - 1601, (y - 1601) / 400 + 1, 400, (y - 1601) % 400);
  }

  // A common year has 31, 28, 31, 30, 31, 30, 31, 31, 30, 31, 30 and 31 days.
  lemma MonthsOnRecord(y: int, m: int, lengths: seq<int>)
    requires 0 <= m < 12 && lengths == [31, 28, 31, 30, 31, 30, 31, 31, 30, 31, 30, 31]
    ensures MonthLength(12 * y + m) == lengths[m] + if m == 1 && Leap(y) then 1 else 0
  {
    Division(12 * y + m, y, 12, m);
  }
}
