/** Unix time and calendar dates. */
module Calendar {
  import Arith

  datatype DateTime = DateTime(second: nat, minute: nat, hour: nat, day: nat, month: nat, year: nat, weekday: nat)

  predicate IsLeapYear(year: nat) { (year % 4 == 0 && year % 100 != 0) || year % 400 == 0 }

  const DAYS: seq<nat> := [31, 28, 31, 30, 31, 30, 31, 31, 30, 31, 30, 31]

  function DaysInMonth(month: nat, year: nat): nat {
    if month < 1 || month > 12 then 0 else if month == 2 && IsLeapYear(year) then 29 else DAYS[month - 1]
  }

  function YearDays(year: nat): nat { if IsLeapYear(year) then 366 else 365 }

  // ----- the meaning of a date

  /** Days from the epoch to the first of January of `year`. */
  function DaysBeforeYear(year: nat): nat {
    if year <= 1970 then 0 else DaysBeforeYear(year - 1) + YearDays(year - 1)
  }

  /** Days from the first of January to the first of `month`. */
  function DaysBeforeMonth(month: nat, year: nat): nat {
    if month <= 1 then 0 else DaysBeforeMonth(month - 1, year) + DaysInMonth(month - 1, year)
  }

  function DayOfYear(d: DateTime): int { DaysBeforeMonth(d.month, d.year) + d.day - 1 }

  function Days(d: DateTime): int { DaysBeforeYear(d.year) + DayOfYear(d) }

  function Clock(d: DateTime): nat { d.hour * 3600 + d.minute * 60 + d.second }

  function Seconds(d: DateTime): int { Days(d) * 86400 + Clock(d) }

  predicate ValidDate(d: DateTime) {
    && d.year >= 1970 && 1 <= d.month <= 12 && 1 <= d.day <= DaysInMonth(d.month, d.year)
    && d.hour < 24 && d.minute < 60 && d.second < 60
  }

  /** Sunday is 1, and the epoch was a Thursday. */
  function Weekday(days: nat): nat { (days + 4) % 7 + 1 }

  lemma MonthSums(year: nat)
    ensures var f := DaysInMonth(2, year); var m := k => DaysBeforeMonth(k, year);
      && m(1) == 0 && m(2) == 31 && m(3) == 31 + f && m(4) == 62 + f && m(5) == 92 + f && m(6) == 123 + f
      && m(7) == 153 + f && m(8) == 184 + f && m(9) == 215 + f && m(10) == 245 + f && m(11) == 276 + f
      && m(12) == 306 + f && m(13) == 337 + f
  {
    assert DaysBeforeMonth(2, year) == 31;
    assert DaysBeforeMonth(4, year) == DaysBeforeMonth(3, year) + 31;
    assert DaysBeforeMonth(6, year) == DaysBeforeMonth(4, year) + 61;
    assert DaysBeforeMonth(8, year) == DaysBeforeMonth(6, year) + 61;
    assert DaysBeforeMonth(10, year) == DaysBeforeMonth(8, year) + 61;
    assert DaysBeforeMonth(12, year) == DaysBeforeMonth(10, year) + 61;
  }

  lemma MonthTable(year: nat)
    ensures DaysBeforeMonth(13, year) == YearDays(year)
    ensures forall m :: 1 <= m <= 12 ==> DaysInMonth(m, year) >= 28
  {
    MonthSums(year);
    hide DaysBeforeMonth;
  }

  /** Thirty days have September, April, June and November. */
  lemma MonthLengths(month: nat, year: nat)
    ensures DaysInMonth(month, year) == 30 <==> month == 4 || month == 6 || month == 9 || month == 11
    ensures DaysInMonth(2, year) == if YearDays(year) == 366 then 29 else 28
    ensures 1 <= month <= 12 && month != 2 ==> DaysInMonth(month, year) >= 30
    ensures DaysInMonth(month, year) <= 31 && (DaysInMonth(month, year) > 0 <==> 1 <= month <= 12)
  {
  }

  /** Days from the first of January to the first of `month`, as a straight line rounded down and
      corrected for February. */
  function MonthLine(month: nat, year: nat): int {
    (367 * month - 362) / 12 - if month <= 2 then 0 else if YearDays(year) == 366 then 1 else 2
  }

  /** The month table is the closed formula. */
  lemma MonthFormula(month: nat, year: nat)
    requires 1 <= month <= 12
    ensures DaysBeforeMonth(month, year) == MonthLine(month, year)
  {
    MonthSums(year);
    hide DaysBeforeMonth;
  }

  lemma {:induction false} MonthsGrow(m: nat, n: nat, year: nat)
    requires 1 <= m < n
    ensures DaysBeforeMonth(m, year) + DaysInMonth(m, year) <= DaysBeforeMonth(n, year)
  {
    if m + 1 < n {
      MonthsGrow(m, n - 1, year);
    }
  }

  lemma {:induction false} YearsGrow(y: nat, z: nat)
    requires 1970 <= y < z
    ensures DaysBeforeYear(y) + YearDays(y) <= DaysBeforeYear(z)
  {
    if y + 1 < z {
      YearsGrow(y, z - 1);
    }
  }

  lemma DayInYear(d: DateTime)
    requires ValidDate(d)
    ensures 0 <= DayOfYear(d) < YearDays(d.year)
  {
    MonthTable(d.year);
    MonthsGrow(d.month, 13, d.year);
  }

  // ----- order and uniqueness

  predicate DayBefore(a: DateTime, b: DateTime) {
    a.year < b.year || (a.year == b.year && (a.month < b.month || (a.month == b.month && a.day < b.day)))
  }

  predicate SameDay(a: DateTime, b: DateTime) { a.year == b.year && a.month == b.month && a.day == b.day }

  predicate ClockBefore(a: DateTime, b: DateTime) {
    a.hour < b.hour || (a.hour == b.hour && (a.minute < b.minute || (a.minute == b.minute && a.second < b.second)))
  }

  /** The order of dates read off their fields. */
  predicate Before(a: DateTime, b: DateTime) { DayBefore(a, b) || (SameDay(a, b) && ClockBefore(a, b)) }

  lemma DaysGrow(a: DateTime, b: DateTime)
    requires ValidDate(a) && ValidDate(b) && DayBefore(a, b)
    ensures Days(a) < Days(b)
  {
    DayInYear(a);
    DayInYear(b);
    if a.year < b.year {
      YearsGrow(a.year, b.year);
    } else if a.month < b.month {
      MonthsGrow(a.month, b.month, a.year);
    }
    hide DaysBeforeYear, DaysBeforeMonth, YearDays;
  }

  /** Unix time orders valid dates as the calendar does; in particular it tells them apart. */
  lemma OrderPreserved(a: DateTime, b: DateTime)
    requires ValidDate(a) && ValidDate(b)
    ensures Seconds(a) < Seconds(b) <==> Before(a, b)
    ensures Seconds(a) == Seconds(b) <==>
      SameDay(a, b) && a.hour == b.hour && a.minute == b.minute && a.second == b.second
  {
    if DayBefore(a, b) {
      DaysGrow(a, b);
    } else if DayBefore(b, a) {
      DaysGrow(b, a);
    } else {
      assert SameDay(a, b);
    }
    hide Days, DaysInMonth;
  }

  // ----- the POSIX formula

  /** Section 4.16 of POSIX.1-2017 (XBD), with tm_year counted from 1900. */
  function Posix(d: DateTime, yday: int): int {
    var y := d.year - 1900;
    d.second + d.minute * 60 + d.hour * 3600 + yday * 86400 + (y - 70) * 31536000
    + ((y - 69) / 4) * 86400 - ((y - 1) / 100) * 86400 + ((y + 299) / 400) * 86400
  }

  function Fourths(y: int): int { (y - 69) / 4 }
  function Hundredths(y: int): int { (y - 1) / 100 }
  function FourHundredths(y: int): int { (y + 299) / 400 }

  lemma NextFourth(year: nat)
    ensures Fourths(year - 1899) == Fourths(year - 1900) + if year % 4 == 0 then 1 else 0
  {
  }

  lemma NextHundredth(year: nat)
    ensures Hundredths(year - 1899) == Hundredths(year - 1900) + if year % 100 == 0 then 1 else 0
  {
  }

  lemma NextFourHundredth(year: nat)
    ensures FourHundredths(year - 1899) == FourHundredths(year - 1900) + if year % 400 == 0 then 1 else 0
  {
  }

  lemma Divides(year: nat)
    ensures year % 400 == 0 ==> year % 100 == 0
    ensures year % 100 == 0 ==> year % 4 == 0
  {
    if year % 400 == 0 {
      Arith.Split(100, 4 * (year / 400), 0, year);
    }
    if year % 100 == 0 {
      Arith.Split(4, 25 * (year / 100), 0, year);
    }
  }

  function PosixYears(y: int): int { (y - 70) * 365 + Fourths(y) - Hundredths(y) + FourHundredths(y) }

  lemma NextYear(year: nat)
    ensures PosixYears(year - 1899) == PosixYears(year - 1900) + YearDays(year)
  {
    hide Fourths, Hundredths, FourHundredths;
    NextFourth(year);
    NextHundredth(year);
    NextFourHundredth(year);
    Divides(year);
  }

  lemma {:induction false} PosixDays(year: nat)
    requires year >= 1970
    ensures DaysBeforeYear(year) == PosixYears(year - 1900)
  {
    if year > 1970 {
      PosixDays(year - 1);
      hide PosixYears, YearDays;
      NextYear(year - 1);
    }
  }

  /** The loops compute the closed formula of the standard, with the day of the year in closed form too. */
  lemma AgreesWithPosix(d: DateTime)
    requires d.year >= 1970
    ensures Seconds(d) == Posix(d, DayOfYear(d))
    ensures 1 <= d.month <= 12 ==> DayOfYear(d) == MonthLine(d.month, d.year) + d.day - 1
  {
    PosixDays(d.year);
    if 1 <= d.month <= 12 {
      MonthFormula(d.month, d.year);
    }
    hide DaysBeforeYear, DaysBeforeMonth, MonthLine;
  }

  // ----- the day of the week

  /** Zeller's congruence: the day of the week from year, month and day alone, 1 for Sunday to 7 for
      Saturday, with January and February counted as the last months of the year before. */
  function Zeller(year: nat, month: nat, day: nat): int
    requires year > 0
  {
    var (m, y) := if month <= 2 then (month + 12, year - 1) else (month, year);
    (day + 13 * (m + 1) / 5 + y + y / 4 - y / 100 + y / 400 + 6) % 7 + 1
  }

  /** The leap days before the first of January of `year`, counted from the year 1. */
  function LeapDays(y: int): int { y / 4 - y / 100 + y / 400 }

  lemma LeapDaysPosix(year: nat)
    requires year >= 1970
    ensures DaysBeforeYear(year) == (year - 1970) * 365 + LeapDays(year - 1) - 477
  {
    PosixDays(year);
    hide DaysBeforeYear;
    assert Fourths(year - 1900) == (year - 1) / 4 - 492;
    assert Hundredths(year - 1900) == (year - 1) / 100 - 19;
    assert FourHundredths(year - 1900) == (year - 1) / 400 - 4;
  }

  lemma LeapDaysStep(year: nat)
    requires year > 0
    ensures LeapDays(year) == LeapDays(year - 1) + YearDays(year) - 365
  {
    Divides(year);
    assert year / 4 == (year - 1) / 4 + if year % 4 == 0 then 1 else 0;
    assert year / 100 == (year - 1) / 100 + if year % 100 == 0 then 1 else 0;
    assert year / 400 == (year - 1) / 400 + if year % 400 == 0 then 1 else 0;
  }

  /** Adding whole weeks does not change the day. */
  lemma WholeWeeks(a: int, b: int, q: int)
    requires a == b + 7 * q
    ensures a % 7 == b % 7
  {
  }

  lemma MonthWeeks(month: nat, m: nat)
    requires 1 <= month <= 12 && m == if month <= 2 then month + 12 else month
    ensures (367 * month - 362) / 12 == 13 * (m + 1) / 5 + 28 * month - if month <= 2 then 64 else 33
  {
  }

  /** Days since the epoch, up to whole weeks. */
  lemma DaysInWeeks(d: DateTime, m: nat, y: nat)
    requires ValidDate(d)
    requires (m, y) == if d.month <= 2 then (d.month + 12, d.year - 1) else (d.month, d.year)
    ensures Days(d) + 4 == d.day + 13 * (m + 1) / 5 + y + LeapDays(y) + 6
      + 7 * (52 * d.year + 4 * d.month - if d.month <= 2 then 102799 else 102795)
  {
    LeapDaysPosix(d.year);
    LeapDaysStep(d.year);
    MonthFormula(d.month, d.year);
    MonthWeeks(d.month, m);
    hide DaysBeforeYear, DaysBeforeMonth, DaysInMonth, IsLeapYear, LeapDays;
  }

  /** The weekday of a date is the one Zeller's congruence gives. */
  lemma WeekdayIsZeller(d: DateTime)
    requires ValidDate(d)
    ensures Days(d) >= 0 && Weekday(Days(d)) == Zeller(d.year, d.month, d.day)
  {
    DayInYear(d);
    var (m, y) := if d.month <= 2 then (d.month + 12, d.year - 1) else (d.month, d.year);
    DaysInWeeks(d, m, y);
    hide DayOfYear, DaysBeforeYear, DaysInMonth, YearDays;
    WholeWeeks(Days(d) + 4, d.day + 13 * (m + 1) / 5 + y + LeapDays(y) + 6,
               52 * d.year + 4 * d.month - if d.month <= 2 then 102799 else 102795);
  }

  // ----- the two conversions

  /** The value of an unsigned 32-bit computation. */
  function Wrap(n: int): nat { n % 0x1_0000_0000 }

  /** The 32-bit results of datetime_to_unix order two dates as the calendar does whenever the counter
      has wrapped equally often before both, in particular for all dates up to its first wrap. */
  lemma OrderOfResults(a: DateTime, b: DateTime)
    requires ValidDate(a) && ValidDate(b) && Seconds(a) / 0x1_0000_0000 == Seconds(b) / 0x1_0000_0000
    ensures Wrap(Seconds(a)) < Wrap(Seconds(b)) <==> Before(a, b)
    ensures Wrap(Seconds(a)) == Wrap(Seconds(b)) <==>
      SameDay(a, b) && a.hour == b.hour && a.minute == b.minute && a.second == b.second
  {
    hide Seconds, Before, SameDay, ValidDate;
    OrderPreserved(a, b);
    var q := Seconds(a) / 0x1_0000_0000;
    assert Seconds(a) == q * 0x1_0000_0000 + Wrap(Seconds(a)) && Seconds(b) == q * 0x1_0000_0000 + Wrap(Seconds(b));
  }

  /** The second after the last one that fits, on 7 February 2106, is converted to the epoch. */
  lemma WrapsIn2106()
    ensures var d := DateTime(16, 28, 6, 7, 2, 2106, 1);
      ValidDate(d) && Seconds(d) == 0x1_0000_0000 && Wrap(Seconds(d)) == 0
  {
    hide Seconds, DaysBeforeYear;
    var d := DateTime(16, 28, 6, 7, 2, 2106, 1);
    assert DaysBeforeMonth(2, 2106) == DaysBeforeMonth(1, 2106) + 31;
    AgreesWithPosix(d);
  }

  lemma WrapPlus(a: int, b: int)
    ensures Wrap(Wrap(a) + b) == Wrap(a + b)
  {
  }

  lemma WrapTimes(a: int)
    ensures Wrap(Wrap(a) * 86400) == Wrap(a * 86400)
  {
    var q, r := a / 0x1_0000_0000, Wrap(a) * 86400;
    assert a == q * 0x1_0000_0000 + Wrap(a);
    Arith.DivMod(r, 0x1_0000_0000);
    Arith.Split(0x1_0000_0000, q * 86400 + r / 0x1_0000_0000, r % 0x1_0000_0000, a * 86400);
  }

  /** The two loops of datetime_to_unix: whole years, then whole months. */
  method CountDays(year: nat, month: nat) returns (days: nat)
    ensures days == DaysBeforeYear(year) + DaysBeforeMonth(month, year)
  {
    days := 0;
    var y := 1970;
    while y < year
      invariant y == 1970 || 1970 <= y <= year
      invariant days == DaysBeforeYear(y)
    {
      days := days + if IsLeapYear(y) then 366 else 365;
      y := y + 1;
    }
    assert days == DaysBeforeYear(year);
    var m := 1;
    while m < month
      invariant m == 1 || 1 <= m <= month
      invariant days == DaysBeforeYear(year) + DaysBeforeMonth(m, year)
    {
      days := days + DaysInMonth(m, year);
      m := m + 1;
    }
  }

  method DatetimeToUnix(d: DateTime) returns (r: nat)
    ensures r == Wrap(Seconds(d))
  {
    hide Wrap, DaysBeforeYear, DaysBeforeMonth;
    var days := CountDays(d.year, d.month);
    days := Wrap(days + d.day - 1);
    WrapTimes(Days(d));
    var seconds := Wrap(days * 86400);
    WrapPlus(Days(d) * 86400, d.hour * 3600);
    seconds := Wrap(seconds + d.hour * 3600);
    WrapPlus(Days(d) * 86400 + d.hour * 3600, d.minute * 60);
    seconds := Wrap(seconds + d.minute * 60);
    WrapPlus(Days(d) * 86400 + d.hour * 3600 + d.minute * 60, d.second);
    r := Wrap(seconds + d.second);
  }

  lemma SplitTime(time: nat)
    ensures var (m, h) := (time / 60, time / 60 / 60);
      time == (h / 24) * 86400 + (h % 24) * 3600 + (m % 60) * 60 + time % 60 && h / 24 == time / 86400
  {
  }

  /** The loop of unix_to_datetime that finds the year. */
  method FindYear(all: nat) returns (year: nat, days: nat)
    ensures year >= 1970 && all == DaysBeforeYear(year) + days && days < YearDays(year)
  {
    days := all;
    year := 1970;
    while true
      invariant year >= 1970 && all == DaysBeforeYear(year) + days
      decreases days
    {
      var daysInYear := if IsLeapYear(year) then 366 else 365;
      if days < daysInYear {
        break;
      }
      days := days - daysInYear;
      year := year + 1;
    }
  }

  /** The loop that finds the month; it never runs past December. */
  method FindMonth(all: nat, year: nat) returns (month: nat, days: nat)
    requires all < YearDays(year)
    ensures 1 <= month <= 12 && all == DaysBeforeMonth(month, year) + days && days < DaysInMonth(month, year)
  {
    days := all;
    month := 1;
    MonthTable(year);
    while true
      invariant 1 <= month <= 12 && all == DaysBeforeMonth(month, year) + days
      decreases days
    {
      var daysInM := DaysInMonth(month, year);
      if days < daysInM {
        break;
      }
      days := days - daysInM;
      month := month + 1;
    }
  }

  method UnixToDatetime(time: nat) returns (d: DateTime)
    requires time < 0x1_0000_0000
    ensures ValidDate(d) && Seconds(d) == time && d.weekday == Weekday(time / 86400)
    ensures d.weekday == Zeller(d.year, d.month, d.day)
  {
    hide DaysBeforeYear, DaysBeforeMonth, DaysInMonth, YearDays;
    SplitTime(time);
    var remaining := time;
    var second := remaining % 60;
    remaining := remaining / 60;
    var minute := remaining % 60;
    remaining := remaining / 60;
    var hour := remaining % 24;
    remaining := remaining / 24;
    var days := remaining;
    var weekday := (days + 4) % 7 + 1;
    var year, month;
    year, days := FindYear(days);
    month, days := FindMonth(days, year);
    d := DateTime(second, minute, hour, days + 1, month, year, weekday);
    WeekdayIsZeller(d);
  }

  lemma NotNegative(d: DateTime)
    requires ValidDate(d)
    ensures Seconds(d) >= 0
  {
    DayInYear(d);
    hide DaysBeforeYear, DayOfYear;
  }

  /** Converting a valid date to Unix time and back gives the date exactly when its time fits 32 bits. */
  method RoundTrip(d: DateTime) returns (e: DateTime)
    requires ValidDate(d)
    ensures e == d.(weekday := e.weekday) <==> Seconds(d) < 0x1_0000_0000
    ensures Seconds(d) < 0x1_0000_0000 ==> e.weekday == Weekday(Seconds(d) / 86400)
  {
    NotNegative(d);
    hide Days, DaysInMonth, Clock;
    var t := DatetimeToUnix(d);
    e := UnixToDatetime(t);
    OrderPreserved(d, e);
  }

  /** Converting any 32-bit time to a date and back gives the time. */
  method RoundTripBack(time: nat) returns (t: nat)
    requires time < 0x1_0000_0000
    ensures t == time
  {
    var d := UnixToDatetime(time);
    t := DatetimeToUnix(d);
  }
}
