/** The proleptic Gregorian calendar of ECMA-262, section 21.4.1: day numbers, civil dates and instants in UTC. */
module Calendar {
  const MS_PER_MINUTE := 60_000
  const MS_PER_HOUR := 3_600_000
  const MS_PER_DAY := 86_400_000

  predicate Leap(y: int) {
    y % 4 == 0 && (y % 100 != 0 || y % 400 == 0)
  }

  function DaysInYear(y: int): nat {
    if Leap(y) then 366 else 365
  }

  /** The day number of 1 January; day 0 is 1 January 1970. */
  function DayFromYear(y: int): int {
    365 * (y - 1970) + (y - 1969) / 4 - (y - 1901) / 100 + (y - 1601) / 400
  }

  lemma FourthYear(y: int)
    ensures (y - 1968) / 4 == (y - 1969) / 4 + if y % 4 == 0 then 1 else 0
  {
  }

  lemma HundredthYear(y: int)
    ensures (y - 1900) / 100 == (y - 1901) / 100 + if y % 100 == 0 then 1 else 0
  {
  }

  lemma FourHundredthYear(y: int)
    ensures (y - 1600) / 400 == (y - 1601) / 400 + if y % 400 == 0 then 1 else 0
    ensures y % 400 == 0 ==> y % 100 == 0
    ensures y % 100 == 0 ==> y % 4 == 0
  {
  }

  lemma YearLength(y: int)
    ensures DayFromYear(y + 1) == DayFromYear(y) + DaysInYear(y)
  {
    FourthYear(y);
    HundredthYear(y);
    FourHundredthYear(y);
    var a, b, c := (y - 1968) / 4, (y - 1900) / 100, (y - 1600) / 400;
    assert y + 1 - 1969 == y - 1968 && y + 1 - 1901 == y - 1900 && y + 1 - 1601 == y - 1600;
    assert DayFromYear(y + 1) == 365 * (y - 1970) + 365 + a - b + c;
  }

  /** The year a day lies in: the largest whose first day is not after it. */
  function YearFromDay(d: int): (y: int)
    ensures DayFromYear(y) <= d < DayFromYear(y + 1)
  {
    if d >= 0 then YearUp(d, 1970) else YearDown(d, 1969)
  }

  function YearUp(d: int, from: int): (y: int)
    requires DayFromYear(from) <= d
    ensures DayFromYear(y) <= d < DayFromYear(y + 1)
    decreases d - DayFromYear(from)
  {
    YearLength(from);
    if d < DayFromYear(from + 1) then from else YearUp(d, from + 1)
  }

  function YearDown(d: int, from: int): (y: int)
    requires d < DayFromYear(from + 1)
    ensures DayFromYear(y) <= d < DayFromYear(y + 1)
    decreases DayFromYear(from + 1) - d
  {
    YearLength(from);
    if DayFromYear(from) <= d then from else YearDown(d, from - 1)
  }

  /** Years do not overlap. */
  lemma {:induction false} YearsAscend(y: int, y': int)
    requires y < y'
    ensures DayFromYear(y) + 365 * (y' - y) <= DayFromYear(y') <= DayFromYear(y) + 366 * (y' - y)
    decreases y' - y
  {
    YearLength(y);
    if y + 1 < y' {
      YearsAscend(y + 1, y');
    }
  }

  lemma YearIsUnique(d: int, y: int)
    requires DayFromYear(y) <= d < DayFromYear(y + 1)
    ensures YearFromDay(d) == y
  {
    hide DayFromYear;
    var y' := YearFromDay(d);
    if y' + 1 < y {
      YearsAscend(y' + 1, y);
    } else if y + 1 < y' {
      YearsAscend(y + 1, y');
    }
  }

  // --- Months (0 is January) ---------------------------------------------------------------

  /** The day of the year on which a month of a common year starts; month 12 stands for the end of the year. */
  function CommonStart(m: nat): (n: nat)
    requires m <= 12
    ensures n <= 365
  {
    if m == 0 then 0 else if m == 1 then 31 else if m == 2 then 59 else if m == 3 then 90 else if m == 4 then 120
    else if m == 5 then 151 else if m == 6 then 181 else if m == 7 then 212 else if m == 8 then 243 else if m == 9 then 273
    else if m == 10 then 304 else if m == 11 then 334 else 365
  }

  function MonthStart(m: nat, leap: bool): (n: nat)
    requires m <= 12
    ensures n <= 366
  {
    CommonStart(m) + if leap && m >= 2 then 1 else 0
  }

  function MonthLength(m: nat, leap: bool): (n: nat)
    requires m < 12
    ensures 28 <= n <= 31 && n == MonthStart(m + 1, leap) - MonthStart(m, leap)
    ensures leap && m == 1 ==> n == 29
    ensures !(leap && m == 1) ==> n == MonthLength(m, false)
  {
    if m == 1 then if leap then 29 else 28
    else if m == 3 || m == 5 || m == 8 || m == 10 then 30 else 31
  }

  /** The month of a day of the year. */
  function MonthOf(n: nat, leap: bool): (m: nat)
    requires n < MonthStart(12, leap)
    ensures m < 12 && MonthStart(m, leap) <= n < MonthStart(m + 1, leap)
  {
    MonthFrom(n, leap, 0)
  }

  function MonthFrom(n: nat, leap: bool, m: nat): (r: nat)
    requires m < 12 && MonthStart(m, leap) <= n < MonthStart(12, leap)
    ensures r < 12 && MonthStart(r, leap) <= n < MonthStart(r + 1, leap)
    decreases 12 - m
  {
    if n < MonthStart(m + 1, leap) then m else MonthFrom(n, leap, m + 1)
  }

  lemma MonthsAscend(m: nat, m': nat, leap: bool)
    requires m <= m' <= 12
    ensures MonthStart(m, leap) <= MonthStart(m', leap)
  {
  }

  lemma MonthIsUnique(n: nat, leap: bool, m: nat)
    requires m < 12 && MonthStart(m, leap) <= n < MonthStart(m + 1, leap)
    ensures n < MonthStart(12, leap) && MonthOf(n, leap) == m
  {
    hide MonthStart, MonthFrom, MonthOf;
    MonthsAscend(m + 1, 12, leap);
    var m' := MonthOf(n, leap);
    if m' < m {
      MonthsAscend(m' + 1, m, leap);
    } else if m < m' {
      MonthsAscend(m + 1, m', leap);
    }
  }

  // --- Civil dates ---------------------------------------------------------------------------

  /** Year, month (0 to 11) and day of the month (from 1). */
  datatype Civil = Civil(year: int, month: nat, date: nat)

  predicate ValidCivil(c: Civil) {
    c.month < 12 && 1 <= c.date <= MonthLength(c.month, Leap(c.year))
  }

  function CivilFromDay(d: int): (c: Civil)
    ensures ValidCivil(c)
  {
    var y := YearFromDay(d);
    YearLength(y);
    var n := d - DayFromYear(y);
    var m := MonthOf(n, Leap(y));
    Civil(y, m, n - MonthStart(m, Leap(y)) + 1)
  }

  /** `MakeDay`: month and date may lie outside their ranges. */
  function MakeDay(y: int, month: int, date: int): int {
    var ym := y + month / 12;
    DayFromYear(ym) + MonthStart(month % 12, Leap(ym)) + date - 1
  }

  lemma CivilRoundTrip(d: int)
    ensures var c := CivilFromDay(d);
            MakeDay(c.year, c.month, c.date) == d && MakeDay(c.year, c.month, c.date + 1) == d + 1
  {
    hide DayFromYear, MonthStart, Leap, YearFromDay, MonthOf;
  }

  /** Every civil date is the date of its day number. */
  lemma DayRoundTrip(c: Civil)
    requires ValidCivil(c)
    ensures CivilFromDay(MakeDay(c.year, c.month, c.date)) == c
  {
    hide DayFromYear, MonthLength, MonthOf, Leap, YearFromDay;
    var leap := Leap(c.year);
    var n := MonthStart(c.month, leap) + c.date - 1;
    MonthIsUnique(n, leap, c.month);
    YearLength(c.year);
    assert MonthStart(12, leap) == DaysInYear(c.year);
    YearIsUnique(DayFromYear(c.year) + n, c.year);
  }

  /** Day 0 of a month is the last day of the month before it. */
  lemma DayZero(year: int, month: int)
    requires 1 <= month <= 12
    ensures MakeDay(year, month, 0) == MakeDay(year, month - 1, MonthLength(month - 1, Leap(year)))
  {
    hide DayFromYear, Leap, MonthLength;
    YearLength(year);
    if month == 12 {
      assert MonthStart(12, Leap(year)) == DaysInYear(year);
    }
  }

  /** `daysInMonth`: `new Date(Date.UTC(year, month, 0)).getUTCDate()` for a month from 1 to 12. */
  function DaysInMonth(year: int, month: int): (n: nat)
    requires 1 <= month <= 12
    ensures n == MonthLength(month - 1, Leap(FullYear(year)))
  {
    var y := FullYear(year);
    DayZero(y, month);
    DayRoundTrip(Civil(y, month - 1, MonthLength(month - 1, Leap(y))));
    CivilFromDay(MakeDay(y, month, 0)).date
  }

  /** Sunday is 0; day 0 was a Thursday. */
  function WeekDay(d: int): (w: nat)
    ensures w < 7
  {
    (d + 4) % 7
  }

  /** Leap years, month lengths and weekdays by example: the counting starts on Thursday 1 January 1970. */
  lemma CalendarAnchors()
    ensures Leap(2000) && Leap(2024) && !Leap(1900) && !Leap(2026) && !Leap(2100)
    ensures forall m :: 0 <= m < 12 ==> MonthLength(m, false) == [31, 28, 31, 30, 31, 30, 31, 31, 30, 31, 30, 31][m]
    ensures MakeDay(1970, 0, 1) == 0 && WeekDay(0) == 4
  {
  }

  /** The calendar repeats after 400 years. */
  lemma CalendarRepeats(y: int)
    ensures DayFromYear(y + 400) == DayFromYear(y) + 146_097
  {
    var a, b, c := (y - 1969) / 4, (y - 1901) / 100, (y - 1601) / 400;
    Quarters(y - 1969);
    Centuries(y - 1901);
    FourCenturies(y - 1601);
    assert y + 400 - 1969 == y - 1969 + 400 && y + 400 - 1901 == y - 1901 + 400 && y + 400 - 1601 == y - 1601 + 400;
    assert DayFromYear(y + 400) == 365 * (y - 1970) + 146_000 + (a + 100) - (b + 4) + (c + 1);
  }

  lemma Quarters(x: int)
    ensures (x + 400) / 4 == x / 4 + 100
  {
  }

  lemma Centuries(x: int)
    ensures (x + 400) / 100 == x / 100 + 4
  {
  }

  lemma FourCenturies(x: int)
    ensures (x + 400) / 400 == x / 400 + 1
  {
  }

  /** Weekdays follow each other. */
  lemma WeekDaysFollow(d: int)
    ensures WeekDay(d + 1) == if WeekDay(d) == 6 then 0 else WeekDay(d) + 1
  {
  }

  // --- Instants in milliseconds ---------------------------------------------------------------

  function Day(t: int): int {
    t / MS_PER_DAY
  }

  /** Minute `m` of hour `h` of a day. */
  function Instant(d: int, h: int, m: int): int {
    d * MS_PER_DAY + h * MS_PER_HOUR + m * MS_PER_MINUTE
  }

  /** `MakeFullYear`: `Date.UTC` takes the years 0 to 99 for 1900 to 1999. */
  function FullYear(y: int): int {
    if 0 <= y <= 99 then 1900 + y else y
  }

  /** `Date.UTC(year, month, date, h, m, 0, 0)`. */
  function DateUtc(year: int, month: int, date: int, h: int, m: int): int {
    Instant(MakeDay(FullYear(year), month, date), h, m)
  }

  lemma TwoDigitYears()
    ensures FullYear(0) == 1900 && FullYear(70) == 1970 && FullYear(99) == 1999 && FullYear(100) == 100 && FullYear(-1) == -1
  {
  }

  function HourOf(t: int): int {
    t % MS_PER_DAY / MS_PER_HOUR
  }

  function MinuteOf(t: int): int {
    t % MS_PER_HOUR / MS_PER_MINUTE
  }

  lemma SplitDay(d: int, r: int)
    requires 0 <= r < MS_PER_DAY
    ensures (d * MS_PER_DAY + r) / MS_PER_DAY == d && (d * MS_PER_DAY + r) % MS_PER_DAY == r
  {
  }

  lemma SplitHour(h: int, r: int)
    requires 0 <= r < MS_PER_HOUR
    ensures (h * MS_PER_HOUR + r) / MS_PER_HOUR == h && (h * MS_PER_HOUR + r) % MS_PER_HOUR == r
  {
  }

  lemma SplitMinute(m: int, r: int)
    requires 0 <= r < MS_PER_MINUTE
    ensures (m * MS_PER_MINUTE + r) / MS_PER_MINUTE == m && (m * MS_PER_MINUTE + r) % MS_PER_MINUTE == r
  {
  }

  lemma InstantParts(d: int, h: int, m: int)
    requires 0 <= h < 24 && 0 <= m < 60
    ensures var t := Instant(d, h, m);
            Day(t) == d && HourOf(t) == h && MinuteOf(t) == m && t % MS_PER_MINUTE == 0
  {
    SplitDay(d, h * MS_PER_HOUR + m * MS_PER_MINUTE);
    SplitHour(h, m * MS_PER_MINUTE);
    SplitHour(d * 24 + h, m * MS_PER_MINUTE);
    SplitMinute(m, 0);
    SplitMinute((d * 24 + h) * 60 + m, 0);
  }

  /** An instant on a minute is the instant of its day, hour and minute. */
  lemma PartsInstant(t: int)
    requires t % MS_PER_MINUTE == 0
    ensures 0 <= HourOf(t) < 24 && 0 <= MinuteOf(t) < 60 && t == Instant(Day(t), HourOf(t), MinuteOf(t))
  {
    var r := t % MS_PER_DAY;
    assert t == Day(t) * MS_PER_DAY + r;
    assert t == (Day(t) * 24) * MS_PER_HOUR + r;
    assert t % MS_PER_HOUR == r % MS_PER_HOUR;
    assert t == (Day(t) * 1440) * MS_PER_MINUTE + r;
    assert r % MS_PER_MINUTE == 0;
    var q := r % MS_PER_HOUR;
    assert r == HourOf(t) * MS_PER_HOUR + q;
    assert r == (HourOf(t) * 60) * MS_PER_MINUTE + q;
    assert q % MS_PER_MINUTE == 0;
  }
}
