/** Which schedules the six-year search always satisfies. */
module CronReach {
  import opened Whitespace
  import opened Calendar
  import opened CronFields
  import opened Cron
  import opened Decimals

  /** What parsing gives: every field has a value, and only values within its limits. */
  ghost predicate InLimits(s: Schedule) {
    && Ranges(s.mins, 0, 59) && Ranges(s.hours, 0, 23) && Ranges(s.doms, 1, 31) && Ranges(s.months, 1, 12) && Ranges(s.dows, 0, 7)
  }

  ghost predicate Ranges(values: set<int>, min: int, max: int) {
    (exists v :: v in values) && forall v :: v in values ==> min <= v <= max
  }

  lemma ParsedInLimits(expr: string)
    requires ParseSchedule(expr).Some?
    ensures InLimits(ParseSchedule(expr).value)
  {
    hide FieldValues, SplitSpaces;
    var parts := SplitSpaces(Trim(expr));
    forall i | 0 <= i < 5 && FieldValues(parts[i], LIMITS[i].0, LIMITS[i].1).Some?
      ensures Ranges(FieldValues(parts[i], LIMITS[i].0, LIMITS[i].1).value, LIMITS[i].0, LIMITS[i].1)
    {
      FieldInRange(parts[i], LIMITS[i].0, LIMITS[i].1);
    }
  }

  lemma FieldInRange(field: string, min: int, max: int)
    requires min <= max && FieldValues(field, min, max).Some?
    ensures Ranges(FieldValues(field, min, max).value, min, max)
  {
    FieldNeverEmpty(field, min, max);
  }

  /** The weekday field is restricted, or some allowed month has an allowed day in every year. */
  predicate Yearly(s: Schedule) {
    DowConstrained(s) || exists m, date :: m in s.months && date in s.doms && EveryYear(m, date)
  }

  predicate EveryYear(m: int, date: int) {
    1 <= m <= 12 && 1 <= date <= MonthLength(m - 1, false)
  }

  /** `computeNextFire` finds an instant whenever it is asked from year 100 on. */
  ghost predicate AlwaysFires(s: Schedule) {
    forall from :: YearFromDay(FirstDay(from)) >= 100 ==> FiresFrom(s, from)
  }

  ghost predicate FiresFrom(s: Schedule, from: int) {
    exists t :: InWindow(from, t) && Fires(s, t)
  }

  /** A civil date that satisfies the day rule, in the year after the search begins, is reached. */
  lemma NextYearReached(s: Schedule, from: int, c: Civil)
    requires InLimits(s) && ValidCivil(c) && c.year == YearFromDay(FirstDay(from)) + 1
    requires DateOk(s, c.month + 1, c.date, WeekDay(MakeDay(c.year, c.month, c.date)))
    ensures FiresFrom(s, from)
  {
    hide DateOk, CivilFromDay, DayFromYear, Fires, Leap, MonthLength, YearFromDay;
    var d0, d := FirstDay(from), MakeDay(c.year, c.month, c.date);
    DayRoundTrip(c);
    assert DayOk(s, d) by { DayRule(s, d); }
    DayInYear(c);
    YearsAscend(c.year - 1, c.year + 1);
    assert d0 < d < d0 + SEARCH_DAYS;
    var h :| h in s.hours;
    var m :| m in s.mins;
    assert Slot(s, d, h, m);
    SlotFires(s, d, h, m);
    assert (d0 + 1) * MS_PER_DAY <= d * MS_PER_DAY;
    assert InWindow(from, Instant(d, h, m));
  }

  lemma DayInYear(c: Civil)
    requires ValidCivil(c)
    ensures DayFromYear(c.year) <= MakeDay(c.year, c.month, c.date) < DayFromYear(c.year + 1)
  {
    hide DayFromYear, MonthLength, Leap;
    YearLength(c.year);
    MonthsAscend(c.month + 1, 12, Leap(c.year));
    assert MonthStart(12, Leap(c.year)) == DaysInYear(c.year);
  }

  lemma RestrictedWeekDayFires(s: Schedule, from: int)
    requires InLimits(s) && DowConstrained(s)
    ensures FiresFrom(s, from)
  {
    hide InLimits, YearFromDay, DayFromYear;
    var y := YearFromDay(FirstDay(from)) + 1;
    var m, v := AllowedMonthAndWeekDay(s);
    var first := MakeDay(y, m - 1, 1);
    var k := (v - WeekDay(first)) % 7;
    var c := Civil(y, m - 1, 1 + k);
    assert MakeDay(y, m - 1, 1 + k) == first + k;
    assert WeekDay(first + k) == v;
    NextYearReached(s, from, c);
  }

  lemma AllowedMonthAndWeekDay(s: Schedule) returns (m: int, v: int)
    requires InLimits(s) && DowConstrained(s)
    ensures m in s.months && 1 <= m <= 12 && v in s.dows && 0 <= v < 7
  {
    m :| m in s.months;
    v :| v in s.dows;
  }

  lemma YearlyDateFires(s: Schedule, from: int, m: int, date: int)
    requires InLimits(s) && !DowConstrained(s) && m in s.months && date in s.doms && EveryYear(m, date)
    ensures FiresFrom(s, from)
  {
    hide YearFromDay, InLimits, DomConstrained, DowConstrained;
    NextYearReached(s, from, Civil(YearFromDay(FirstDay(from)) + 1, m - 1, date));
  }

  // --- The other direction: only 29 February is left ----------------------------------------------

  function UpTo(n: nat): (r: set<int>)
    ensures |r| == n && forall v :: v in r <==> 1 <= v <= n
  {
    if n == 0 then {} else UpTo(n - 1) + {n}
  }

  /** All 31 days of the month hold the first. */
  lemma FullDomsHoldOne(s: Schedule)
    requires InLimits(s) && !DomConstrained(s)
    ensures 1 in s.doms
  {
    var all := UpTo(31);
    assert s.doms <= all;
    assert |all - s.doms| == |all| - |s.doms|;
    assert 1 in all;
  }

  lemma OnlyLeapDay(s: Schedule, d: int)
    requires InLimits(s) && !Yearly(s) && DayOk(s, d)
    ensures var c := CivilFromDay(d); Leap(c.year) && c.month == 1 && c.date == 29
  {
    hide YearFromDay, MonthLength, DayFromYear, Leap;
    var c := CivilFromDay(d);
    assert EveryYear(c.month + 1, 1);
    if !DomConstrained(s) {
      FullDomsHoldOne(s);
    } else {
      assert !EveryYear(c.month + 1, c.date);
      assert MonthLength(1, false) == 28 by {
        FebruaryLength();
      }
    }
  }

  lemma FebruaryLength()
    ensures MonthLength(1, false) == 28
  {
  }

  /** 1 March 2096: the next leap day is almost eight years away, since 2100 is not a leap year. */
  const GAP := Instant(MakeDay(2096, 2, 1), 0, 0)

  lemma NoLeapDayInGap(s: Schedule)
    requires InLimits(s) && !Yearly(s)
    ensures YearFromDay(FirstDay(GAP)) >= 100 && !FiresFrom(s, GAP)
  {
    hide CivilFromDay, YearFromDay, DayFromYear, Fires, DayOk, Yearly, InLimits;
    var first := MakeDay(2096, 2, 1);
    GapStart();
    forall t | InWindow(GAP, t) ensures !Fires(s, t) {
      FiresIsSlot(s, t);
      EarlierInstant(Day(t), HourOf(t), MinuteOf(t), first, 0, 0);
      if DayOk(s, Day(t)) {
        OnlyLeapDay(s, Day(t));
        GapHasNoLeapDay(Day(t));
      }
    }
  }

  lemma GapStart()
    ensures FirstDay(GAP) == MakeDay(2096, 2, 1) && YearFromDay(FirstDay(GAP)) == 2096
    ensures MakeDay(2096, 2, 1) == DayFromYear(2096) + 60
  {
    hide YearFromDay;
    InstantParts(MakeDay(2096, 2, 1), 0, 1);
    YearIsUnique(MakeDay(2096, 2, 1), 2096);
  }

  lemma GapHasNoLeapDay(d: int)
    requires DayFromYear(2096) + 60 <= d < DayFromYear(2096) + 60 + SEARCH_DAYS
    ensures var c := CivilFromDay(d); !(Leap(c.year) && c.month == 1 && c.date == 29)
  {
    hide CivilFromDay, DayFromYear;
    var c := CivilFromDay(d);
    CivilRoundTrip(d);
    DayInYear(c);
    YearsAscend(2096, 2103);
    if c.year > 2103 {
      YearsAscend(2103, c.year);
    }
    if c.year < 2095 {
      YearsAscend(c.year + 1, 2096);
    }
  }

  /** A schedule fires from every instant exactly when its weekday field is restricted or it names a date of every year. */
  lemma AlwaysFiresIffYearly(expr: string)
    requires ParseSchedule(expr).Some?
    ensures var s := ParseSchedule(expr).value; AlwaysFires(s) <==> Yearly(s)
  {
    hide ParseSchedule, InLimits, YearFromDay, FiresFrom;
    var s := ParseSchedule(expr).value;
    ParsedInLimits(expr);
    if Yearly(s) {
      forall from ensures FiresFrom(s, from) {
        if DowConstrained(s) {
          RestrictedWeekDayFires(s, from);
        } else {
          var m, date :| m in s.months && date in s.doms && EveryYear(m, date);
          YearlyDateFires(s, from, m, date);
        }
      }
    } else {
      NoLeapDayInGap(s);
    }
  }

  // --- When the weekday field is honoured --------------------------------------------------------

  /** A 7 in the weekday field lifts it: the day rule is the month and, if restricted, the day of the month. */
  lemma SevenLiftsWeekDays(s: Schedule, d: int)
    requires 7 in s.dows
    ensures var c := CivilFromDay(d);
            DayOk(s, d) <==> c.month + 1 in s.months && (!DomConstrained(s) || c.date in s.doms)
  {
  }

  /** On some month and day of the month the rule depends on the weekday. */
  ghost predicate WeekDayMatters(s: Schedule) {
    exists month: nat, date: nat, w: nat, w': nat ::
      1 <= month <= 12 && 1 <= date <= 31 && w < 7 && w' < 7 && DateOk(s, month, date, w) && !DateOk(s, month, date, w')
  }

  /** The weekday field matters exactly when it holds neither a 7 nor all of 0 to 6. */
  lemma WeekDayMattersIff(s: Schedule)
    requires InLimits(s)
    ensures WeekDayMatters(s) <==> 7 !in s.dows && !({0, 1, 2, 3, 4, 5, 6} <= s.dows)
  {
    if DowConstrained(s) {
      var month, w := AllowedMonthAndWeekDay(s);
      var w': nat :| w' in {0, 1, 2, 3, 4, 5, 6} && w' !in s.dows;
      var date := FreeDate(s);
      assert DateOk(s, month, date, w) && !DateOk(s, month, date, w');
    }
  }

  /** A day of the month that a restricted day field does not hold; any, if it is not restricted. */
  lemma FreeDate(s: Schedule) returns (date: nat)
    requires InLimits(s)
    ensures 1 <= date <= 31 && (DomConstrained(s) ==> date !in s.doms)
  {
    var all := UpTo(31);
    date := 1;
    if DomConstrained(s) {
      assert s.doms <= all;
      assert s.doms != all;
      var v :| v in all && v !in s.doms;
      date := v;
    }
  }

  // --- The text `* * * * 5-7` ----------------------------------------------------------------------

  predicate NoSpaces(w: string) {
    forall k :: 0 <= k < |w| ==> !IsSpace(w[k])
  }

  lemma {:induction false} SpaceAfter(w: string, rest: string)
    requires NoSpaces(w)
    ensures SpaceAt(w) == |w| && SpaceAt(w + " " + rest) == |w|
  {
    if |w| > 0 {
      SpaceAfter(w[1..], rest);
      assert (w + " " + rest)[1..] == w[1..] + " " + rest;
    }
  }

  lemma SplitWord(w: string, rest: string)
    requires NoSpaces(w) && |rest| > 0 && !IsSpace(rest[0])
    ensures SplitSpaces(w + " " + rest) == [w] + SplitSpaces(rest) && SplitSpaces(w) == [w]
  {
    hide IsSpace;
    SpaceAfter(w, rest);
    var s := w + " " + rest;
    assert s[..|w|] == w && s[|w| + 1..] == rest;
    assert TrimStart(rest) == rest;
  }

  lemma StarsSplit(last: string)
    requires |last| > 0 && NoSpaces(last)
    ensures SplitSpaces(Trim("* * * * " + last)) == ["*", "*", "*", "*", last]
  {
    hide SplitSpaces;
    var s4, s3, s2 := "*" + " " + last, "*" + " " + ("*" + " " + last), "*" + " " + ("*" + " " + ("*" + " " + last));
    var s := "*" + " " + s2;
    assert s == "* * * * " + last;
    assert TrimStart(s) == s && TrimEnd(s) == s;
    SplitWord(last, "*");
    SplitWord("*", last);
    SplitWord("*", s4);
    SplitWord("*", s3);
    SplitWord("*", s2);
  }

  lemma OneStar(min: int, max: int)
    ensures FieldValues("*", min, max).Some?
    ensures forall v :: v in FieldValues("*", min, max).value <==> min <= v <= max
  {
    var pieces := Split("*", ',');
    assert "*"[1..] == "" && pieces == ["*"];
    assert ReadPiece(pieces[0]) == Star;
    assert PiecesOk(pieces, min, max);
    forall v | min <= v <= max ensures AnyDenotes(pieces, min, max, v) {
      assert Denotes(ReadPiece(pieces[0]), min, max, v);
    }
  }

  lemma FiveToSeven()
    ensures FieldValues("5-7", 0, 7).Some? && 7 in FieldValues("5-7", 0, 7).value
  {
    var f := "5-7";
    assert f[1..] == "-7" && "-7"[1..] == "7" && "7"[1..] == "";
    assert IndexOf("-7", '-') == 0 && IndexOf(f, '-') == 1;
    assert IndexOf("7", ',') == 1 && IndexOf("-7", ',') == 2 && IndexOf(f, ',') == 3;
    var pieces := Split(f, ',');
    assert pieces == [f];
    assert f[..1] == "5" && f[2..] == "7" && "5"[..0] == "" && "7"[..0] == "";
    assert ParseNat("5") == 5 && ParseNat("7") == 7;
    assert ReadPiece(f) == Range(5, 7);
    assert PiecesOk(pieces, 0, 7);
    assert Denotes(ReadPiece(pieces[0]), 0, 7, 7);
    assert AnyDenotes(pieces, 0, 7, 7);
  }

  /** Meant for the weekend and Friday, it fires on every day. */
  lemma FiveToSevenFiresDaily(d: int)
    ensures ParseSchedule("* * * * 5-7").Some? && DayOk(ParseSchedule("* * * * 5-7").value, d)
  {
    hide FieldValues, SplitSpaces, DayOk, CivilFromDay;
    assert "* * * * " + "5-7" == "* * * * 5-7";
    StarsSplit("5-7");
    OneStar(0, 59);
    OneStar(0, 23);
    OneStar(1, 31);
    OneStar(1, 12);
    FiveToSeven();
    var s := ParseSchedule("* * * * 5-7").value;
    assert s.doms == UpTo(31);
    SevenLiftsWeekDays(s, d);
  }
}
