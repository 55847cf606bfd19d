/** `computeNextFire`: the next instant at which a cron schedule fires, in UTC. */
module Cron {
  import opened Prelude
  import opened Calendar
  import opened CronFields

  /** `366 * 6`. */
  const SEARCH_DAYS := 2196

  predicate DomConstrained(s: Schedule) {
    |s.doms| != 31
  }

  /** A set with a 7 counts as unrestricted, whatever else it holds. */
  predicate DowConstrained(s: Schedule) {
    !({0, 1, 2, 3, 4, 5, 6} <= s.dows) && 7 !in s.dows
  }

  /** The day rule on a month (from 1), a day of the month and a weekday. */
  predicate DateOk(s: Schedule, month: nat, date: nat, weekDay: nat) {
    && month in s.months
    && ((!DomConstrained(s) && !DowConstrained(s)) || (DomConstrained(s) && date in s.doms) || (DowConstrained(s) && weekDay in s.dows))
  }

  predicate DayOk(s: Schedule, d: int) {
    var c := CivilFromDay(d);
    DateOk(s, c.month + 1, c.date, WeekDay(d))
  }

  /** The schedule fires at an instant: on the minute, with minute, hour and day allowed. */
  predicate Fires(s: Schedule, t: int) {
    t % MS_PER_MINUTE == 0 && MinuteOf(t) in s.mins && HourOf(t) in s.hours && DayOk(s, Day(t))
  }

  /** The first day the search looks at: that of the instant a minute after `from`. */
  function FirstDay(from: int): int {
    Day(from + MS_PER_MINUTE)
  }

  /** The instants the search covers. */
  predicate InWindow(from: int, t: int) {
    from < t && Day(t) < FirstDay(from) + SEARCH_DAYS
  }

  /** The window is open at the time asked and 2,196 days long, counted from the day a minute later. */
  lemma SixYears(from: int, t: int)
    ensures InWindow(from, t) <==> from < t && Day(t) - Day(from + 60_000) < 366 * 6
  {
  }

  // --- The search --------------------------------------------------------------------------------

  predicate Slot(s: Schedule, d: int, h: int, m: int) {
    0 <= h < 24 && 0 <= m < 60 && m in s.mins && h in s.hours && DayOk(s, d)
  }

  predicate Before(d: int, h: int, m: int, d': int, h': int, m': int) {
    d < d' || (d == d' && (h < h' || (h == h' && m < m')))
  }

  /** Every slot after `from` is at or past minute `m` of hour `h` of day `d`. */
  ghost predicate ClearBefore(s: Schedule, from: int, d: int, h: int, m: int) {
    forall d', h', m' :: Slot(s, d', h', m') && Instant(d', h', m') > from ==> !Before(d', h', m', d, h, m)
  }

  lemma FiresIsSlot(s: Schedule, t: int)
    ensures Fires(s, t) ==> Slot(s, Day(t), HourOf(t), MinuteOf(t)) && t == Instant(Day(t), HourOf(t), MinuteOf(t))
  {
    hide DayOk;
    if t % MS_PER_MINUTE == 0 {
      PartsInstant(t);
    }
  }

  lemma SlotFires(s: Schedule, d: int, h: int, m: int)
    requires Slot(s, d, h, m)
    ensures Fires(s, Instant(d, h, m)) && Day(Instant(d, h, m)) == d
  {
    hide DayOk, Instant;
    InstantParts(d, h, m);
  }

  /** Nothing after `from` fires before the first day, even when `from` lies in the last minute of a day. */
  lemma StartClear(s: Schedule, from: int)
    ensures ClearBefore(s, from, FirstDay(from), 0, 0)
  {
    hide DayOk;
    var first := FirstDay(from);
    assert first * MS_PER_DAY <= from + MS_PER_MINUTE;
    forall d, h, m | Slot(s, d, h, m) && Instant(d, h, m) > from ensures !Before(d, h, m, first, 0, 0) {
      assert d < first ==> (d + 1) * MS_PER_DAY <= first * MS_PER_DAY;
    }
  }

  lemma ClearMeansLeast(s: Schedule, from: int, d: int, h: int, m: int)
    requires Slot(s, d, h, m) && ClearBefore(s, from, d, h, m)
    ensures forall t :: from < t < Instant(d, h, m) ==> !Fires(s, t)
  {
    hide DayOk, Fires;
    forall t | from < t < Instant(d, h, m) ensures !Fires(s, t) {
      FiresIsSlot(s, t);
      EarlierInstant(Day(t), HourOf(t), MinuteOf(t), d, h, m);
    }
  }

  lemma EarlierInstant(d: int, h: int, m: int, d': int, h': int, m': int)
    requires 0 <= h' < 24 && 0 <= m' < 60
    ensures 0 <= h < 24 && 0 <= m < 60 && Instant(d, h, m) < Instant(d', h', m') ==> Before(d, h, m, d', h', m')
  {
    assert d' < d ==> (d' + 1) * MS_PER_DAY <= d * MS_PER_DAY;
  }

  lemma ClearMeansNone(s: Schedule, from: int)
    requires ClearBefore(s, from, FirstDay(from) + SEARCH_DAYS, 0, 0)
    ensures forall t :: InWindow(from, t) ==> !Fires(s, t)
  {
    hide DayOk, Fires;
    forall t | InWindow(from, t) ensures !Fires(s, t) {
      FiresIsSlot(s, t);
    }
  }

  /** The first slot after `from` on one allowed day, hour by hour and minute by minute. */
  method SearchDay(s: Schedule, from: int, d: int, year: int, month: int, date: int) returns (at: Option<int>)
    requires DayOk(s, d) && ClearBefore(s, from, d, 0, 0)
    requires MakeDay(FullYear(year), month, date) == d
    ensures match at
            case Some(t) => from < t && Fires(s, t) && Day(t) == d && (forall u :: from < u < t ==> !Fires(s, u))
            case None => ClearBefore(s, from, d + 1, 0, 0)
  {
    hide DayOk, Fires, MakeDay, FullYear, Instant;
    var h := 0;
    while h < 24
      invariant 0 <= h <= 24 && ClearBefore(s, from, d, h, 0)
    {
      if h in s.hours {
        var m := 0;
        while m < 60
          invariant 0 <= m <= 60 && ClearBefore(s, from, d, h, m)
        {
          if m in s.mins {
            var t := DateUtc(year, month, date, h, m);
            if t > from {
              SlotFires(s, d, h, m);
              ClearMeansLeast(s, from, d, h, m);
              return Some(t);
            }
          }
          m := m + 1;
        }
      }
      h := h + 1;
    }
    at := None;
  }

  /**
   * `computeNextFire`, on the years that `Date.UTC` takes as written: the least instant after `from` at which the
   * schedule fires, and an error exactly when the text does not parse or no such instant lies in the search window.
   */
  method ComputeNextFire(expr: string, from: int) returns (r: Result<int>)
    requires YearFromDay(FirstDay(from)) >= 100
    ensures ParseSchedule(expr).None? ==> r.Err?
    ensures ParseSchedule(expr).Some? ==>
              var s := ParseSchedule(expr).value;
              match r
              case Ok(t) => InWindow(from, t) && Fires(s, t) && forall u :: from < u < t ==> !Fires(s, u)
              case Err(_) => forall u :: InWindow(from, u) ==> !Fires(s, u)
  {
    hide ParseSchedule, Fires, CivilFromDay, YearFromDay, MakeDay, DayOk;
    var parsed := ParseCronFieldList(expr);
    if parsed.Err? {
      return Err(parsed.code);
    }
    var s := parsed.value;
    var first := FirstDay(from);
    var candidate := StartOfMinute(from + MS_PER_MINUTE);
    StartClear(s, from);
    var dayIter := 0;
    while dayIter < SEARCH_DAYS
      invariant 0 <= dayIter <= SEARCH_DAYS && Day(candidate) == first + dayIter
      invariant ClearBefore(s, from, first + dayIter, 0, 0)
    {
      var d := Day(candidate);
      var c := CivilFromDay(d);
      CivilRoundTrip(d);
      LaterYear(first, d);
      assert DayOk(s, d) == DateOk(s, c.month + 1, c.date, WeekDay(d)) by {
        DayRule(s, d);
      }
      if DateOk(s, c.month + 1, c.date, WeekDay(d)) {
        var at := SearchDay(s, from, d, c.year, c.month, c.date);
        if at.Some? {
          return Ok(at.value);
        }
      } else {
        SkipDay(s, from, d);
      }
      candidate := Instant(MakeDay(c.year, c.month, c.date + 1), 0, 0);
      InstantParts(d + 1, 0, 0);
      dayIter := dayIter + 1;
    }
    ClearMeansNone(s, from);
    r := Err("no occurrence found within 6 years");
  }

  lemma DayRule(s: Schedule, d: int)
    ensures var c := CivilFromDay(d); DayOk(s, d) == DateOk(s, c.month + 1, c.date, WeekDay(d))
  {
  }

  lemma SkipDay(s: Schedule, from: int, d: int)
    requires !DayOk(s, d) && ClearBefore(s, from, d, 0, 0)
    ensures ClearBefore(s, from, d + 1, 0, 0)
  {
    hide DayOk;
  }

  /** Rounding down to the minute through the civil fields keeps the day. */
  function StartOfMinute(t: int): (r: int)
    requires YearFromDay(Day(t)) >= 100
    ensures Day(r) == Day(t)
  {
    var c := CivilFromDay(Day(t));
    CivilRoundTrip(Day(t));
    HourInRange(t);
    InstantParts(Day(t), HourOf(t), MinuteOf(t));
    DateUtc(c.year, c.month, c.date, HourOf(t), MinuteOf(t))
  }

  lemma HourInRange(t: int)
    ensures 0 <= HourOf(t) < 24 && 0 <= MinuteOf(t) < 60
  {
  }

  lemma LaterYear(d: int, d': int)
    requires d <= d'
    ensures YearFromDay(d) <= CivilFromDay(d').year
  {
    hide DayFromYear, YearFromDay;
    var y, y' := YearFromDay(d), YearFromDay(d');
    if y' + 1 < y {
      YearsAscend(y' + 1, y);
    }
  }
}
