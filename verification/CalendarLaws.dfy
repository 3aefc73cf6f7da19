/**
 The calendar behind `InstantOf`, pinned by the length of every month, by the count that each next day
 adds one to, and by what one more hour, minute, second or zone minute in the text does.
 */
module CalendarLaws {
  import opened CleanupPlan

  predicate Leap(year: int) {
    year % 400 == 0 || (year % 4 == 0 && year % 100 != 0)
  }

  lemma MonthLengths(year: int, month: int, day: int)
    ensures IsDate(year, month, day) <==>
              && year >= 1 && 1 <= month <= 12 && day >= 1
              && day <= (if month == 2 then (if Leap(year) then 29 else 28)
                         else if month in {4, 6, 9, 11} then 30
                         else 31)
  {
    if 1 <= month <= 12 {
      Before(year, month);
      Before(year, month + 1);
    }
    hide Leap, DaysBeforeMonth;
  }

  lemma Before(year: int, month: int)
    requires 1 <= month <= 13
    ensures DaysBeforeMonth(year, month) ==
            [0, 31, 59, 90, 120, 151, 181, 212, 243, 273, 304, 334, 365][month - 1]
            + (if month > 2 && Leap(year) then 1 else 0)
  {
    LeapMeans(year);
    var leap := Leap(year);
    assert leap == (year % 4 == 0 && (year % 100 != 0 || year % 400 == 0));
    hide Leap;
  }

  lemma LeapMeans(year: int)
    ensures year % 400 == 0 ==> year % 100 == 0
    ensures year % 100 == 0 ==> year % 4 == 0
  {
    if year % 100 == 0 {
      assert year == 4 * (25 * (year / 100));
    }
    if year % 400 == 0 {
      assert year == 100 * (4 * (year / 400));
    }
  }

  /** Day zero is the first of January of year one, and every next day has the next number. */
  lemma NextDay(year: int, month: int, day: int)
    requires IsDate(year, month, day)
    ensures DayNumber(1, 1, 1) == 0
    ensures var number := DayNumber(year, month, day) + 1;
            if IsDate(year, month, day + 1) then DayNumber(year, month, day + 1) == number
            else if month < 12 then IsDate(year, month + 1, 1) && DayNumber(year, month + 1, 1) == number
            else IsDate(year + 1, 1, 1) && DayNumber(year + 1, 1, 1) == number
  {
    Before(year, month);
    Before(year, month + 1);
    Before(year, 1);
    Before(year + 1, 1);
    MonthLengths(year, month, day);
    MonthLengths(year, month, day + 1);
    MonthLengths(year, month + 1, 1);
    MonthLengths(year + 1, 1, 1);
    assert IsDate(1, 1, 1) && DayNumber(1, 1, 1) == 0 by { MonthLengths(1, 1, 1); }
    YearLength(year);
    hide IsDate, DaysBeforeMonth, Leap;
  }

  lemma YearLength(year: int)
    requires year >= 1
    ensures year / 4 - (year - 1) / 4 - (year / 100 - (year - 1) / 100) + year / 400 - (year - 1) / 400
            == if Leap(year) then 1 else 0
  {
    LeapMeans(year);
    ByFour(year);
    ByHundred(year);
    ByFourHundred(year);
  }

  lemma ByFour(year: int)
    ensures year / 4 - (year - 1) / 4 == if year % 4 == 0 then 1 else 0
  {
  }

  lemma ByHundred(year: int)
    ensures year / 100 - (year - 1) / 100 == if year % 100 == 0 then 1 else 0
  {
  }

  lemma ByFourHundred(year: int)
    ensures year / 400 - (year - 1) / 400 == if year % 400 == 0 then 1 else 0
  {
  }

  function Digit(text: string, at: nat): int
    requires at < |text|
  {
    text[at] as int - '0' as int
  }

  function Pair(text: string, at: nat): int
    requires at + 2 <= |text|
  {
    10 * Digit(text, at) + Digit(text, at + 1)
  }

  lemma PairIs(text: string, at: nat)
    requires at + 2 <= |text|
    ensures Number(text, at, at + 2) == Pair(text, at)
  {
    assert Number(text, at, at + 1) == Digit(text, at);
  }

  lemma YearIs(text: string)
    requires |text| >= 4
    ensures Number(text, 0, 4) == 100 * Pair(text, 0) + Pair(text, 2)
  {
    PairIs(text, 0);
    assert Number(text, 0, 3) == 10 * Number(text, 0, 2) + Digit(text, 2);
  }

  lemma {:induction false} SamePart(a: string, b: string, from: nat, to: nat)
    requires from <= to <= |a| && to <= |b| && a[from..to] == b[from..to]
    ensures Number(a, from, to) == Number(b, from, to)
  {
    if from < to {
      assert a[from..to - 1] == a[from..to][..to - 1 - from] == b[from..to - 1];
      assert a[to - 1] == a[from..to][to - 1 - from] == b[to - 1];
      SamePart(a, b, from, to - 1);
    }
  }

  lemma DateHolds(text: string)
    requires Rfc3339(text)
    ensures IsDate(100 * Pair(text, 0) + Pair(text, 2), Pair(text, 5), Pair(text, 8))
  {
    YearIs(text);
    PairIs(text, 5);
    PairIs(text, 8);
    hide Number, IsDate, Pair;
  }

  function DayOf(text: string): int
    requires Rfc3339(text)
  {
    DateHolds(text);
    DayNumber(100 * Pair(text, 0) + Pair(text, 2), Pair(text, 5), Pair(text, 8))
  }

  lemma DayIs(text: string)
    requires Rfc3339(text)
    ensures DayOf(text) == DayNumber(Number(text, 0, 4), Number(text, 5, 7), Number(text, 8, 10))
  {
    YearIs(text);
    PairIs(text, 5);
    PairIs(text, 8);
    DateHolds(text);
    hide Number, IsDate, DayNumber, Pair;
  }

  /**
   Two texts that end alike lie apart by their days and by the hours, minutes and seconds they show.
   */
  lemma TimeRuns(a: string, b: string)
    requires Rfc3339(a) && Rfc3339(b) && a[19..] == b[19..]
    ensures InstantOf(b) - InstantOf(a) ==
            86_400_000_000 * (DayOf(b) - DayOf(a)) + 3_600_000_000 * (Pair(b, 11) - Pair(a, 11))
            + 60_000_000 * (Pair(b, 14) - Pair(a, 14)) + 1_000_000 * (Pair(b, 17) - Pair(a, 17))
  {
    DayIs(a);
    DayIs(b);
    ClockIs(a);
    ClockIs(b);
    SameZone(a, b);
    hide IsDate, DayNumber, DayOf, Number, Rfc3339, Offset, SecondOfDay, Pair;
  }

  lemma ClockIs(text: string)
    requires Rfc3339(text)
    ensures SecondOfDay(text) == 3_600 * Pair(text, 11) + 60 * Pair(text, 14) + Pair(text, 17)
  {
    PairIs(text, 11);
    PairIs(text, 14);
    PairIs(text, 17);
    hide Number, IsDate, Pair;
  }

  lemma SameZone(a: string, b: string)
    requires Rfc3339(a) && Rfc3339(b) && a[19..] == b[19..]
    ensures Offset(a) == Offset(b)
  {
    assert |a| == |a[19..]| + 19 == |b|;
    assert a[19] == a[19..][0] == b[19..][0] == b[19];
    if |a| == 25 {
      assert a[20..22] == a[19..][1..3] == b[20..22];
      assert a[23..25] == a[19..][4..6] == b[23..25];
      SamePart(a, b, 20, 22);
      SamePart(a, b, 23, 25);
    }
    hide Number, IsDate, TwoDigits;
  }

  /** The same date and clock with `+hh:mm` name an instant that much earlier than with `Z`, and later with `-hh:mm`. */
  lemma ZoneShifts(zoned: string, utc: string)
    requires Rfc3339(zoned) && Rfc3339(utc) && |zoned| == 25 && |utc| == 20 && zoned[..19] == utc[..19]
    ensures var shift := 3_600_000_000 * Pair(zoned, 20) + 60_000_000 * Pair(zoned, 23);
            InstantOf(utc) - InstantOf(zoned) == if zoned[19] == '-' then -shift else shift
  {
    SameMoment(zoned, utc);
    PairIs(zoned, 20);
    PairIs(zoned, 23);
    hide IsDate, DayNumber, Number, SecondOfDay, Pair, TwoDigits;
  }

  lemma SameMoment(a: string, b: string)
    requires Rfc3339(a) && Rfc3339(b) && a[..19] == b[..19]
    ensures Number(a, 0, 4) == Number(b, 0, 4) && Number(a, 5, 7) == Number(b, 5, 7) && Number(a, 8, 10) == Number(b, 8, 10)
    ensures SecondOfDay(a) == SecondOfDay(b)
  {
    SameStart(a, b, 0, 4);
    SameStart(a, b, 5, 7);
    SameStart(a, b, 8, 10);
    SameStart(a, b, 11, 13);
    SameStart(a, b, 14, 16);
    SameStart(a, b, 17, 19);
    hide IsDate, Number, TwoDigits;
  }

  lemma SameStart(a: string, b: string, from: nat, to: nat)
    requires |a| >= 19 && |b| >= 19 && a[..19] == b[..19] && from <= to <= 19
    ensures Number(a, from, to) == Number(b, from, to)
  {
    forall i | from <= i < to ensures a[i] == b[i] {
      assert a[i] == a[..19][i] == b[..19][i] == b[i];
    }
    assert a[from..to] == b[from..to];
    SamePart(a, b, from, to);
  }
}
