// The form's datetime text: what is cut from an ISO string, read back, and sent on as
// day and time.
module EventForm {
  import opened Calendars
  import opened EventDate

  // ---------- Decimal text ----------

  function DigitChar(d: int): (x: char)
    requires 0 <= d <= 9
    ensures Digit(x) && DigitValue(x) == d
  {
    ('0' as int + d) as char
  }

  // The last `width` decimal digits of n, padded with zeros.
  function Digits(n: nat, width: nat): (s: string)
    ensures |s| == width && forall i :: 0 <= i < width ==> Digit(s[i])
    decreases width
  {
    if width == 0 then [] else Digits(n / 10, width - 1) + [DigitChar(n % 10)]
  }

  function Pow10(width: nat): nat
    decreases width
  {
    if width == 0 then 1 else 10 * Pow10(width - 1)
  }

  lemma {:induction false} DigitsReadBack(n: nat, width: nat)
    requires n < Pow10(width)
    ensures Decimal(Digits(n, width)) == n
    decreases width
  {
    if width == 0 {
    } else {
      DigitsReadBack(n / 10, width - 1);
      assert Digits(n, width)[..width - 1] == Digits(n / 10, width - 1);
    }
  }

  lemma {:induction false} SmallPowers()
    ensures Pow10(2) == 100 && Pow10(4) == 10_000 && Pow10(6) == 1_000_000
  {
    assert Pow10(3) == 1_000;
    assert Pow10(5) == 100_000;
  }

  // ---------- The text of the form ----------

  predicate PlainYear(y: int) {
    0 <= y <= 9999
  }

  // Four digits, or a sign and six.
  function YearText(y: int): (s: string)
    requires -1_000_000 < y < 1_000_000
    ensures |s| == if PlainYear(y) then 4 else 7
    ensures s[0] in ['+', '-'] <==> !PlainYear(y)
  {
    if PlainYear(y) then Digits(y, 4) else [if y < 0 then '-' else '+'] + Digits(if y < 0 then -y else y, 6)
  }

  // The parts of a date and time that an ISO string spells out.
  datatype Parts = Parts(year: int, month: nat, date: nat, hour: nat, minute: nat) {
    predicate Valid() {
      -1_000_000 < year < 1_000_000 && 1 <= month <= 12 && 1 <= date <= 31 && TimeOfDay(hour, minute)
    }
  }

  function ToTheHour(p: Parts): (s: string)
    requires p.Valid()
    ensures |s| == |YearText(p.year)| + 9
  {
    YearText(p.year) + ['-'] + Digits(p.month, 2) + ['-'] + Digits(p.date, 2) + ['T'] + Digits(p.hour, 2)
  }

  // The first sixteen characters of the ISO string; `tail` is its seconds and zone.
  function FormText(p: Parts, tail: string): (s: string)
    requires p.Valid()
    ensures |s| == 16
  {
    (ToTheHour(p) + [':'] + Digits(p.minute, 2) + tail)[..16]
  }

  // What Date makes of sixteen characters and ":00Z". A signed year leaves no room for
  // minutes, so the suffix is read as the minutes.
  function ReadForm(s: string): Parts
    requires |s| == 16
  {
    if s[0] in ['+', '-'] then
      Parts(if s[0] == '-' then -Decimal(s[1..7]) else Decimal(s[1..7]),
            Natural(s[8..10]), Natural(s[11..13]), Natural(s[14..16]), 0)
    else
      Parts(Decimal(s[..4]), Natural(s[5..7]), Natural(s[8..10]), Natural(s[11..13]), Natural(s[14..16]))
  }

  function Natural(s: string): nat {
    if Decimal(s) < 0 then 0 else Decimal(s)
  }

  lemma HourPieces(y: string, mo: string, d: string, h: string, s: string)
    requires |mo| == 2 && |d| == 2 && |h| == 2 && s == y + ['-'] + mo + ['-'] + d + ['T'] + h
    ensures s[..|y|] == y && s[|y| + 1..|y| + 3] == mo && s[|y| + 4..|y| + 6] == d && s[|y| + 7..|y| + 9] == h
  {
  }

  lemma TwoDigitsReadBack(n: nat)
    requires n < 100
    ensures Natural(Digits(n, 2)) == n
  {
    SmallPowers();
    DigitsReadBack(n, 2);
  }

  lemma YearReadsBack(y: int)
    requires -1_000_000 < y < 1_000_000
    ensures PlainYear(y) ==> Decimal(YearText(y)) == y
    ensures !PlainYear(y) ==> Decimal(YearText(y)[1..]) == (if y < 0 then -y else y)
    ensures !PlainYear(y) ==> (YearText(y)[0] == '-' <==> y < 0)
  {
    SmallPowers();
    if PlainYear(y) {
      DigitsReadBack(y, 4);
    } else {
      var size := if y < 0 then -y else y;
      DigitsReadBack(size, 6);
      assert YearText(y)[1..] == Digits(size, 6);
    }
  }

  lemma PartsReadBack(p: Parts)
    requires p.Valid()
    ensures Natural(Digits(p.month, 2)) == p.month && Natural(Digits(p.date, 2)) == p.date
    ensures Natural(Digits(p.hour, 2)) == p.hour && Natural(Digits(p.minute, 2)) == p.minute
  {
    TwoDigitsReadBack(p.month);
    TwoDigitsReadBack(p.date);
    TwoDigitsReadBack(p.hour);
    TwoDigitsReadBack(p.minute);
  }

  // The text reads back to the parts; past year 9999 and before year 0 it loses the minutes.
  lemma TextReadsBack(p: Parts, tail: string)
    requires p.Valid()
    ensures ReadForm(FormText(p, tail)) == if PlainYear(p.year) then p else p.(minute := 0)
  {
    var s, y, h := FormText(p, tail), YearText(p.year), ToTheHour(p);
    HourPieces(y, Digits(p.month, 2), Digits(p.date, 2), Digits(p.hour, 2), h);
    YearReadsBack(p.year);
    PartsReadBack(p);
    if PlainYear(p.year) {
      assert s == h + [':'] + Digits(p.minute, 2);
      assert s[..4] == h[..4] && s[5..7] == h[5..7] && s[8..10] == h[8..10] && s[11..13] == h[11..13];
      assert s[14..16] == Digits(p.minute, 2);
    } else {
      assert s == h;
      assert s[1..7] == y[1..];
    }
  }

  lemma {:induction false} NumbersOnRecord()
    ensures Digits(2024, 4) == "2024" && Digits(1, 2) == "01" && Digits(3, 2) == "03"
    ensures Digits(14, 2) == "14" && Digits(5, 2) == "05"
  {
    assert Digits(2, 1) == "2" && Digits(20, 2) == "20" && Digits(202, 3) == "202";
    assert Digits(0, 1) == "0" && Digits(1, 1) == "1";
  }

  // Five past two in the afternoon of 3 January 2024, and the text of it.
  lemma TextOnRecord(p: Parts, tail: string)
    requires p == Parts(2024, 1, 3, 14, 5)
    ensures FormText(p, tail) == "2024-01-03T14:05" && ReadForm("2024-01-03T14:05") == p
  {
    NumbersOnRecord();
    assert ToTheHour(p) == "2024-01-03T14";
    TextReadsBack(p, tail);
  }

  // ---------- Form and input ----------

  // The stored day and time of an event.
  datatype Input = Input(dia: string, hhmm: string)

  function PartsOf(c: Calendar, t: int): (p: Parts)
    requires c.Valid() && -1_000_000 < YearAt(c, t) < 1_000_000
    ensures p.Valid()
  {
    PartsAreParts(c, t);
    Parts(YearAt(c, t), MonthAt(c, t) % 12 + 1, DateOf(c, t), HourOf(t), MinuteOf(t))
  }

  lemma PartsAreParts(c: Calendar, t: int)
    requires c.Valid()
    ensures 1 <= DateOf(c, t) <= 31 && TimeOfDay(HourOf(t), MinuteOf(t))
  {
    assert c.Placed(Day(t)) && c.Regular(MonthAt(c, t));
  }

  function InstantOf(c: Calendar, p: Parts): int {
    InMonth(c, 12 * p.year + p.month - 1, p.date, p.hour, p.minute)
  }

  // The day and time sent for a form.
  function InputOf(c: Calendar, text: string): Input
    requires c.Valid() && |text| == 16
  {
    var t := InstantOf(c, ReadForm(text));
    PartsAreParts(c, t);
    Input(Digits(DateOf(c, t), 2), Digits(HourOf(t), 2) + Digits(MinuteOf(t), 2))
  }

  // What a form made at instant t sends.
  function Sent(c: Calendar, t: int, tail: string): Input
    requires c.Valid() && -1_000_000 < YearAt(c, t) < 1_000_000
  {
    InputOf(c, FormText(PartsOf(c, t), tail))
  }

  // Parts of a whole minute make the same date and hour again, at whatever minute is read.
  lemma PartsRebuild(c: Calendar, t: int, p: Parts)
    requires c.Valid() && -1_000_000 < YearAt(c, t) < 1_000_000
    requires p.minute <= 59 && p == PartsOf(c, t).(minute := p.minute)
    ensures DateOf(c, InstantOf(c, p)) == DateOf(c, t) && HourOf(InstantOf(c, p)) == HourOf(t)
    ensures MinuteOf(InstantOf(c, p)) == p.minute
  {
    PartsAreParts(c, t);
    assert c.Placed(Day(t));
    assert 12 * p.year + p.month - 1 == MonthAt(c, t);
    DateInMonth(c, MonthAt(c, t), p.date, p.hour, p.minute, InstantOf(c, p));
  }

  lemma {:induction false} TextOfDecimal(s: string)
    requires forall i :: 0 <= i < |s| ==> Digit(s[i])
    ensures 0 <= Decimal(s) && Digits(Decimal(s), |s|) == s
    decreases |s|
  {
    if s == [] {
    } else {
      var front, d := s[..|s| - 1], DigitValue(s[|s| - 1]);
      TextOfDecimal(front);
      assert Decimal(s) / 10 == Decimal(front) && Decimal(s) % 10 == d;
      assert s == front + [s[|s| - 1]];
    }
  }

  // A form made at instant t sends the day and time of t exactly when its year has four
  // digits or it is on the hour.
  lemma FormSendsItsTimeExactlyWhen(c: Calendar, t: int, tail: string)
    requires c.Valid() && -1_000_000 < YearAt(c, t) < 1_000_000
    ensures 1 <= DateOf(c, t) <= 31 && TimeOfDay(HourOf(t), MinuteOf(t))
    ensures Sent(c, t, tail) == Spelled(DateOf(c, t), HourOf(t), MinuteOf(t))
            <==> PlainYear(YearAt(c, t)) || MinuteOf(t) == 0
  {
    PartsAreParts(c, t);
    var p := ReadForm(FormText(PartsOf(c, t), tail));
    TextReadsBack(PartsOf(c, t), tail);
    PartsRebuild(c, t, p);
    var hh, sent, mine := Digits(HourOf(t), 2), Digits(p.minute, 2), Digits(MinuteOf(t), 2);
    assert (hh + sent)[2..] == sent && (hh + mine)[2..] == mine;
    TwoDigitsReadBack(p.minute);
    TwoDigitsReadBack(MinuteOf(t));
  }

  predicate AllDigits(s: string) {
    forall i :: 0 <= i < |s| ==> Digit(s[i])
  }

  // What a form sends for a day and time.
  function Spelled(date: nat, hour: nat, minute: nat): Input {
    Input(Digits(date, 2), Digits(hour, 2) + Digits(minute, 2))
  }

  lemma SpelledIsInjective(date: nat, hour: nat, minute: nat, date': nat, hour': nat, minute': nat)
    requires date < 100 && hour < 100 && minute < 100 && date' < 100 && hour' < 100 && minute' < 100
    requires Spelled(date, hour, minute) == Spelled(date', hour', minute')
    ensures date == date' && hour == hour' && minute == minute'
  {
    var hhmm := Spelled(date, hour, minute).hhmm;
    assert hhmm[..2] == Digits(hour, 2) == Digits(hour', 2) && hhmm[2..] == Digits(minute, 2) == Digits(minute', 2);
    TwoDigitsReadBack(date);
    TwoDigitsReadBack(date');
    TwoDigitsReadBack(hour);
    TwoDigitsReadBack(hour');
    TwoDigitsReadBack(minute);
    TwoDigitsReadBack(minute');
  }

  // Two digits of each part spell the stored time.
  lemma StoredTime(hhmm: string, hour: int, minute: int)
    requires FourDigits(hhmm) && hour == Decimal(hhmm[..2]) && minute == Decimal(hhmm[2..])
    ensures 0 <= hour && 0 <= minute && Digits(hour, 2) + Digits(minute, 2) == hhmm
  {
    TextOfDecimal(hhmm[..2]);
    TextOfDecimal(hhmm[2..]);
    assert hhmm == hhmm[..2] + hhmm[2..];
  }

  lemma SpelledTimePasses(hhmm: string, hour: nat, minute: nat)
    requires TimeOfDay(hour, minute) && hhmm == Digits(hour, 2) + Digits(minute, 2)
    ensures FourDigits(hhmm) && Decimal(hhmm[..2]) == hour && Decimal(hhmm[2..]) == minute
  {
    assert hhmm[..2] == Digits(hour, 2) && hhmm[2..] == Digits(minute, 2);
    SmallPowers();
    DigitsReadBack(hour, 2);
    DigitsReadBack(minute, 2);
  }

  // What passes the guard: every day from 1 to 31 with every time from 0000 to 2359, and
  // nothing else.
  lemma PlausibleExactlyWhen(day: Number, hhmm: string)
    ensures Plausible(day, hhmm) <==>
            day.Num? && 1.0 <= day.value <= 31.0
            && exists hour, minute :: TimeOfDay(hour, minute) && hhmm == Digits(hour, 2) + Digits(minute, 2)
  {
    if Plausible(day, hhmm) {
      StoredTime(hhmm, Decimal(hhmm[..2]), Decimal(hhmm[2..]));
    }
    if hour, minute :| TimeOfDay(hour, minute) && hhmm == Digits(hour, 2) + Digits(minute, 2) {
      SpelledTimePasses(hhmm, hour, minute);
    }
  }

  // A stored day written in digits is the two digits sent exactly when it has two.
  lemma StoredDay(dia: string, date: nat)
    requires AllDigits(dia) && Decimal(dia) == date
    ensures Digits(date, 2) == dia <==> |dia| == 2
  {
    TextOfDecimal(dia);
  }

  // The form of a found instant sends the stored day and time exactly when its year has
  // four digits or it is on the hour; a fallback to creation, when creation is at them.
  ghost predicate Repeats(c: Calendar, createdAt: int, date: int, hour: int, minute: int, t: int) {
    if TwoDigitYear(c, createdAt) then
      DateOf(c, createdAt) == date && HourOf(createdAt) == hour && MinuteOf(createdAt) == minute
    else PlainYear(YearAt(c, t)) || minute == 0
  }

  lemma FoundIsSent(c: Calendar, createdAt: int, date: int, hour: int, minute: int, t: int, tail: string)
    requires c.Valid() && 1 <= date <= 31 && TimeOfDay(hour, minute) && -999_999 < YearAt(c, createdAt) < 1_000_000
    requires t == Found(c, createdAt, date, hour, minute, 0)
    ensures -1_000_000 < YearAt(c, t) < 1_000_000
    ensures Sent(c, t, tail) == Spelled(date, hour, minute) <==> Repeats(c, createdAt, date, hour, minute, t)
  {
    FindsLatestOrNothing(c, createdAt, date, hour, minute);
    if !TwoDigitYear(c, createdAt) {
      FoundInRecentYear(c, createdAt, date, hour, minute, t);
    }
    FormSendsItsTimeExactlyWhen(c, t, tail);
    if Sent(c, t, tail) == Spelled(date, hour, minute) && Spelled(DateOf(c, t), HourOf(t), MinuteOf(t)) == Sent(c, t, tail) {
      SpelledIsInjective(DateOf(c, t), HourOf(t), MinuteOf(t), date, hour, minute);
    }
  }

  // Repeating a stored event sends its time back unchanged, and its day as two digits,
  // however it was written, exactly when Repeats says so. A day stored in digits comes
  // back as it was if it had two.
  lemma RepeatSendsTheSame(c: Calendar, stored: Input, day: Number, createdAt: int, date: int, hour: int, minute: int,
                           t: int, tail: string)
    requires c == Gregorian() && Plausible(day, stored.hhmm) && day.value == date as real
    requires hour == Decimal(stored.hhmm[..2]) && minute == Decimal(stored.hhmm[2..])
    requires -999_999 < YearAt(c, createdAt) < 1_000_000 && t == Found(c, createdAt, date, hour, minute, 0)
    ensures c.Valid() && 1 <= date <= 31 && -1_000_000 < YearAt(c, t) < 1_000_000
    ensures Sent(c, t, tail) == Input(Digits(date, 2), stored.hhmm) <==> Repeats(c, createdAt, date, hour, minute, t)
    ensures AllDigits(stored.dia) && Decimal(stored.dia) == date && Repeats(c, createdAt, date, hour, minute, t) ==>
              (Sent(c, t, tail) == stored <==> |stored.dia| == 2)
    ensures 100 <= YearAt(c, createdAt) <= 9999 ==> Repeats(c, createdAt, date, hour, minute, t)
  {
    GregorianIsValid();
    StoredTime(stored.hhmm, hour, minute);
    FoundIsSent(c, createdAt, date, hour, minute, t, tail);
    if AllDigits(stored.dia) && Decimal(stored.dia) == date {
      StoredDay(stored.dia, date);
    }
    if !TwoDigitYear(c, createdAt) {
      FoundInRecentYear(c, createdAt, date, hour, minute, t);
    }
  }

  // Half past midnight on 1 January of the year 10000 is sent without its minutes.
  lemma YearTenThousandLosesMinutes(c: Calendar, t: int, tail: string)
    requires c == Gregorian() && t == InMonth(c, 12 * 10000, 1, 0, 30)
    ensures c.Valid() && YearAt(c, t) == 10000 && DateOf(c, t) == 1 && HourOf(t) == 0 && MinuteOf(t) == 30
    ensures Sent(c, t, tail) != Spelled(1, 0, 30)
  {
    GregorianIsValid();
    assert c.Regular(12 * 10000);
    DateInMonth(c, 12 * 10000, 1, 0, 30, t);
    FormSendsItsTimeExactlyWhen(c, t, tail);
  }

  // The instant found is at most three months back.
  lemma FoundInRecentYear(c: Calendar, createdAt: int, date: int, hour: int, minute: int, t: int)
    requires c.Valid() && 1 <= date <= 31 && TimeOfDay(hour, minute) && !TwoDigitYear(c, createdAt)
    requires t == Found(c, createdAt, date, hour, minute, 0)
    ensures YearAt(c, createdAt) - 1 <= YearAt(c, t) <= YearAt(c, createdAt)
  {
    FindsLatestOrNothing(c, createdAt, date, hour, minute);
    c.DaysAreMonotone(Day(t), Day(createdAt));
    var back := FoundWithinThreeMonths(c, createdAt, date, hour, minute);
    var hit, month := Candidate(c, createdAt, back, date, hour, minute), MonthAt(c, createdAt) - back;
    CandidateIsInMonth(c, createdAt, back, date, hour, minute, month);
    DateInMonth(c, month, date, hour, minute, hit);
    c.DaysAreMonotone(Day(hit), Day(t));
  }
}
