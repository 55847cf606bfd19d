/** What cron texts mean: numerals, stars, ranges, steps and lists, and how the two day fields work together. */
module CronTexts {
  import opened Prelude
  import opened Decimals
  import opened Whitespace
  import opened Calendar
  import opened CronFields
  import opened Cron
  import opened CronReach

  // --- Fields ------------------------------------------------------------------------------------------

  predicate Without(s: string, c: char) {
    forall k :: 0 <= k < |s| ==> s[k] != c
  }

  lemma {:induction false} NotFound(s: string, c: char)
    requires Without(s, c)
    ensures IndexOf(s, c) == |s|
  {
    if |s| > 0 {
      NotFound(s[1..], c);
    }
  }

  lemma {:induction false} FoundBehind(s: string, c: char, rest: string)
    requires Without(s, c)
    ensures IndexOf(s + [c] + rest, c) == |s|
  {
    if |s| > 0 {
      FoundBehind(s[1..], c, rest);
      assert (s + [c] + rest)[1..] == s[1..] + [c] + rest;
    }
  }

  /** A field of one piece denotes what the piece does, if it is in order. */
  lemma OnePiece(p: string, min: int, max: int)
    requires Without(p, ',')
    ensures FieldValues(p, min, max).Some? <==> PieceOk(ReadPiece(p), min, max)
    ensures FieldValues(p, min, max).Some? ==> forall v :: v in FieldValues(p, min, max).value <==> Denotes(ReadPiece(p), min, max, v)
  {
    hide ReadPiece;
    NotFound(p, ',');
    var pieces := Split(p, ',');
    assert pieces == [p] && pieces[0] == p;
    if PieceOk(ReadPiece(p), min, max) {
      assert PiecesOk(pieces, min, max);
      forall v ensures AnyDenotes(pieces, min, max, v) <==> Denotes(ReadPiece(p), min, max, v) {
        assert Denotes(ReadPiece(pieces[0]), min, max, v) <==> Denotes(ReadPiece(p), min, max, v);
      }
    } else {
      assert !PieceOk(ReadPiece(pieces[0]), min, max);
    }
  }

  lemma NumeralParts(n: nat)
    ensures Without(Digits(n), ',') && Without(Digits(n), '-') && Digits(n) != "*" && AllDigits(Digits(n)) && ParseNat(Digits(n)) == n
    ensures |Digits(n)| > 2 ==> Digits(n)[..2] != "*/"
  {
    ParseDigits(n);
    assert IsDigit(Digits(n)[0]);
    assert |Digits(n)| > 2 ==> Digits(n)[..2][0] == Digits(n)[0];
  }

  /** A numeral denotes its number, and is rejected outside the limits. */
  lemma NumeralField(n: nat, min: int, max: int)
    ensures FieldValues(Digits(n), min, max) == if min <= n <= max then Some({n as int}) else None
  {
    hide Digits, FieldValues;
    NumeralParts(n);
    NotFound(Digits(n), '-');
    assert ReadPiece(Digits(n)) == One(n);
    OnePiece(Digits(n), min, max);
    if min <= n <= max {
      var vs := FieldValues(Digits(n), min, max).value;
      forall v ensures v in vs <==> v in {n as int} {
        assert v in vs <==> Denotes(One(n), min, max, v);
      }
      assert vs == {n as int};
    }
  }

  /** A range denotes the numbers between its ends. */
  lemma RangeField(lo: nat, hi: nat, min: int, max: int)
    ensures var f := Digits(lo) + "-" + Digits(hi);
            && (FieldValues(f, min, max).Some? <==> min <= lo <= hi <= max)
            && (FieldValues(f, min, max).Some? ==> forall v :: v in FieldValues(f, min, max).value <==> lo <= v <= hi)
  {
    hide Digits, FieldValues;
    NumeralParts(lo);
    NumeralParts(hi);
    var f := Digits(lo) + "-" + Digits(hi);
    FoundBehind(Digits(lo), '-', Digits(hi));
    assert f[..|Digits(lo)|] == Digits(lo) && f[|Digits(lo)| + 1..] == Digits(hi);
    assert f[0] == Digits(lo)[0] && |f| > 2 ==> f[..2][0] == f[0];
    assert IsDigit(f[0]);
    assert ReadPiece(f) == Range(lo, hi);
    OnePiece(f, min, max);
  }

  /** A step denotes the least value and every `n`-th one after it: `min`, `min + n`, `min + 2 * n` and so on. */
  lemma StepField(n: nat, min: int, max: int)
    requires min <= max
    ensures var f := "*/" + Digits(n);
            && (FieldValues(f, min, max).Some? <==> 1 <= n <= max)
            && (FieldValues(f, min, max).Some? ==>
                  forall v :: v in FieldValues(f, min, max).value <==> v <= max && exists k: nat :: Reached(min, n, k, v))
  {
    hide Digits, FieldValues, OnStep;
    NumeralParts(n);
    var f := "*/" + Digits(n);
    assert f[..2] == "*/" && f[2..] == Digits(n) && |f| > 2;
    assert ReadPiece(f) == Every(n);
    OnePiece(f, min, max);
    if 1 <= n <= max {
      forall v ensures Denotes(Every(n), min, max, v) <==> v <= max && exists k: nat :: Reached(min, n, k, v) {
        StepsReach(min, n, v);
      }
    }
  }

  /** `v` is the `k`-th value after `min` in steps of `n`. */
  predicate Reached(min: int, n: nat, k: nat, v: int) {
    v == min + k * n
  }

  lemma StepsReach(min: int, n: nat, v: int)
    requires n > 0
    ensures min <= v && OnStep(min, n, v) <==> exists k: nat :: Reached(min, n, k, v)
  {
    if min <= v && OnStep(min, n, v) {
      var k: nat := (v - min) / n;
      assert Reached(min, n, k, v);
    }
    if k: nat :| Reached(min, n, k, v) {
      Remainder(k, n, 0);
      assert v - min == k * n + 0;
    }
  }

  /** A comma joins two fields: the list is in order when both are, and denotes what either does. */
  lemma ListField(f: string, g: string, min: int, max: int)
    requires Without(f, ',')
    ensures var both := FieldValues(f + "," + g, min, max);
            && (both.Some? <==> FieldValues(f, min, max).Some? && FieldValues(g, min, max).Some?)
            && (both.Some? ==> both.value == FieldValues(f, min, max).value + FieldValues(g, min, max).value)
  {
    hide ReadPiece;
    FoundBehind(f, ',', g);
    NotFound(f, ',');
    var s := f + "," + g;
    assert s[..|f|] == f && s[|f| + 1..] == g;
    var pieces, later := Split(s, ','), Split(g, ',');
    assert pieces == [f] + later && Split(f, ',') == [f];
    assert PiecesOk([f], min, max) <==> PieceOk(ReadPiece(f), min, max) by {
      assert [f][0] == f;
    }
    assert PiecesOk(pieces, min, max) <==> PieceOk(ReadPiece(f), min, max) && PiecesOk(later, min, max) by {
      assert pieces[0] == f && forall i :: 0 <= i < |later| ==> pieces[i + 1] == later[i];
      assert forall i :: 0 < i < |pieces| ==> pieces[i] == later[i - 1];
    }
    forall v ensures AnyDenotes(pieces, min, max, v) <==> AnyDenotes([f], min, max, v) || AnyDenotes(later, min, max, v) {
      JoinedDenote(f, later, min, max, v);
    }
  }

  lemma JoinedDenote(f: string, later: seq<string>, min: int, max: int, v: int)
    ensures AnyDenotes([f] + later, min, max, v) <==> AnyDenotes([f], min, max, v) || AnyDenotes(later, min, max, v)
  {
    hide ReadPiece;
    var pieces := [f] + later;
    if AnyDenotes([f], min, max, v) {
      assert Denotes(ReadPiece(pieces[0]), min, max, v);
    }
    if AnyDenotes(later, min, max, v) {
      var i :| 0 <= i < |later| && Denotes(ReadPiece(later[i]), min, max, v);
      assert Denotes(ReadPiece(pieces[i + 1]), min, max, v);
    }
    if AnyDenotes(pieces, min, max, v) {
      var i :| 0 <= i < |pieces| && Denotes(ReadPiece(pieces[i]), min, max, v);
      if i == 0 {
        assert Denotes(ReadPiece([f][0]), min, max, v);
      } else {
        assert Denotes(ReadPiece(later[i - 1]), min, max, v);
      }
    }
  }

  // --- Five fields ----------------------------------------------------------------------------------------

  /** A field that is a star or a numeral. */
  datatype FieldText = Any | Only(n: nat)

  function Spelled(f: FieldText): string {
    match f
    case Any => "*"
    case Only(n) => Digits(n)
  }

  function Between(min: int, max: int): (r: set<int>)
    ensures forall v :: v in r <==> min <= v <= max
    decreases max - min
  {
    if max < min then {} else Between(min, max - 1) + {max}
  }

  function Allowed(f: FieldText, min: int, max: int): set<int> {
    match f
    case Any => Between(min, max)
    case Only(n) => {n}
  }

  predicate Fits(f: FieldText, min: int, max: int) {
    f.Only? ==> min <= f.n <= max
  }

  lemma FieldRead(f: FieldText, min: int, max: int)
    requires Fits(f, min, max)
    ensures FieldValues(Spelled(f), min, max) == Some(Allowed(f, min, max))
  {
    hide FieldValues;
    match f
    case Any =>
      OneStar(min, max);
      assert FieldValues("*", min, max).value == Between(min, max);
    case Only(n) => NumeralField(n, min, max);
  }

  lemma SpelledIsWord(f: FieldText)
    ensures |Spelled(f)| > 0 && NoSpaces(Spelled(f))
  {
    if f.Only? {
      var s := Digits(f.n);
      forall k | 0 <= k < |s| ensures !IsSpace(s[k]) {
        assert IsDigit(s[k]);
      }
    }
  }

  /** The five fields of a text, in their order: minute, hour, day of the month, month, day of the week. */
  lemma TextParses(min: FieldText, hour: FieldText, dom: FieldText, month: FieldText, dow: FieldText)
    requires Fits(min, 0, 59) && Fits(hour, 0, 23) && Fits(dom, 1, 31) && Fits(month, 1, 12) && Fits(dow, 0, 7)
    ensures ParseSchedule(Spelled(min) + " " + Spelled(hour) + " " + Spelled(dom) + " " + Spelled(month) + " " + Spelled(dow)) ==
            Some(Schedule(Allowed(min, 0, 59), Allowed(hour, 0, 23), Allowed(dom, 1, 31), Allowed(month, 1, 12), Allowed(dow, 0, 7)))
  {
    hide FieldValues, SplitSpaces, Spelled, Allowed, Trim;
    var text := Spelled(min) + " " + Spelled(hour) + " " + Spelled(dom) + " " + Spelled(month) + " " + Spelled(dow);
    FiveWords(Spelled(min), Spelled(hour), Spelled(dom), Spelled(month), Spelled(dow)) by {
      SpelledIsWord(min);
      SpelledIsWord(hour);
      SpelledIsWord(dom);
      SpelledIsWord(month);
      SpelledIsWord(dow);
    }
    var parts := SplitSpaces(Trim(text));
    FieldRead(min, 0, 59);
    FieldRead(hour, 0, 23);
    FieldRead(dom, 1, 31);
    FieldRead(month, 1, 12);
    FieldRead(dow, 0, 7);
    assert FieldValues(parts[0], LIMITS[0].0, LIMITS[0].1) == Some(Allowed(min, 0, 59));
    assert FieldValues(parts[1], LIMITS[1].0, LIMITS[1].1) == Some(Allowed(hour, 0, 23));
    assert FieldValues(parts[2], LIMITS[2].0, LIMITS[2].1) == Some(Allowed(dom, 1, 31));
    assert FieldValues(parts[3], LIMITS[3].0, LIMITS[3].1) == Some(Allowed(month, 1, 12));
    assert FieldValues(parts[4], LIMITS[4].0, LIMITS[4].1) == Some(Allowed(dow, 0, 7));
  }

  lemma FiveWords(a: string, b: string, c: string, d: string, e: string)
    requires |a| > 0 && |b| > 0 && |c| > 0 && |d| > 0 && |e| > 0
    requires NoSpaces(a) && NoSpaces(b) && NoSpaces(c) && NoSpaces(d) && NoSpaces(e)
    ensures SplitSpaces(Trim(a + " " + b + " " + c + " " + d + " " + e)) == [a, b, c, d, e]
  {
    hide SplitSpaces, IsSpace;
    var s4 := d + " " + e;
    var s3 := c + " " + s4;
    var s2 := b + " " + s3;
    var s := a + " " + b + " " + c + " " + d + " " + e;
    assert s == a + " " + s2;
    assert s[0] == a[0] && s[|s| - 1] == e[|e| - 1];
    assert TrimStart(s) == s && TrimEnd(s) == s;
    SplitWord(e, a);
    SplitWord(d, e);
    SplitWord(c, s4);
    SplitWord(b, s3);
    SplitWord(a, s2);
  }

  // --- The two day fields -----------------------------------------------------------------------------------

  /** With one day field or none restricted a day is allowed by its month and by the restricted field. */
  lemma OneDayField(s: Schedule, d: int)
    ensures var c := CivilFromDay(d);
            && (|s.doms| == 31 && (7 in s.dows || {0, 1, 2, 3, 4, 5, 6} <= s.dows) ==> (DayOk(s, d) <==> c.month + 1 in s.months))
            && (|s.doms| != 31 && (7 in s.dows || {0, 1, 2, 3, 4, 5, 6} <= s.dows) ==>
                  (DayOk(s, d) <==> c.month + 1 in s.months && c.date in s.doms))
            && (|s.doms| == 31 && 7 !in s.dows && !({0, 1, 2, 3, 4, 5, 6} <= s.dows) ==>
                  (DayOk(s, d) <==> c.month + 1 in s.months && WeekDay(d) in s.dows))
  {
    hide CivilFromDay, WeekDay;
  }

  /** With both restricted the days are united: a day is allowed when it is under either field alone. */
  lemma DayFieldsUnite(s: Schedule, d: int)
    requires |s.doms| != 31 && 7 !in s.dows && !({0, 1, 2, 3, 4, 5, 6} <= s.dows)
    ensures DayOk(s, d) <==> DayOk(s.(dows := Between(0, 6)), d) || DayOk(s.(doms := Between(1, 31)), d)
    ensures var c := CivilFromDay(d);
            DayOk(s, d) <==> c.month + 1 in s.months && (c.date in s.doms || WeekDay(d) in s.dows)
  {
    hide DayOk, CivilFromDay, WeekDay;
    assert Between(1, 31) == UpTo(31);
    BothDayFields(s, d);
    OneDayField(s.(dows := Between(0, 6)), d);
    OneDayField(s.(doms := Between(1, 31)), d);
  }

  lemma BothDayFields(s: Schedule, d: int)
    requires |s.doms| != 31 && 7 !in s.dows && !({0, 1, 2, 3, 4, 5, 6} <= s.dows)
    ensures var c := CivilFromDay(d);
            DayOk(s, d) <==> c.month + 1 in s.months && (c.date in s.doms || WeekDay(d) in s.dows)
  {
    hide CivilFromDay, WeekDay;
  }

  // --- The thirteenth, and Fridays -------------------------------------------------------------------------

  const THIRTEENTH_OR_FRIDAY := "0 0 13 * 5"

  /** The text fires at midnight of every 13th and of every Friday, and at no other instant. */
  lemma ThirteenthOrFriday(t: int)
    ensures ParseSchedule(THIRTEENTH_OR_FRIDAY).Some?
    ensures Fires(ParseSchedule(THIRTEENTH_OR_FRIDAY).value, t) <==>
            t % MS_PER_DAY == 0 && (CivilFromDay(Day(t)).date == 13 || WeekDay(Day(t)) == 5)
  {
    hide ParseSchedule, CivilFromDay, WeekDay, DayOk, Between;
    ThirteenthParses();
    var s := Schedule({0}, {0}, {13}, Between(1, 12), {5});
    assert 0 !in s.dows;
    DayFieldsUnite(s, Day(t));
    Midnight(t);
    EveryMonth(Day(t));
  }

  lemma ThirteenthParses()
    ensures ParseSchedule(THIRTEENTH_OR_FRIDAY) == Some(Schedule({0}, {0}, {13}, Between(1, 12), {5}))
  {
    hide ParseSchedule, Between;
    TextParses(Only(0), Only(0), Only(13), Any, Only(5));
    assert Digits(0) == "0" && Digits(5) == "5";
    assert Digits(13) == "13" by {
      assert Digits(13 / 10) == "1" && [Digit(13 % 10)] == "3";
    }
    assert Spelled(Only(0)) + " " + Spelled(Only(0)) + " " + Spelled(Only(13)) + " " + Spelled(Any) + " " + Spelled(Only(5)) ==
           THIRTEENTH_OR_FRIDAY;
  }

  lemma Midnight(t: int)
    ensures t % MS_PER_DAY == 0 <==> t % MS_PER_MINUTE == 0 && HourOf(t) == 0 && MinuteOf(t) == 0
  {
    if t % MS_PER_MINUTE == 0 {
      PartsInstant(t);
    } else if t % MS_PER_DAY == 0 {
      assert t == (Day(t) * 1440) * MS_PER_MINUTE;
    }
    InstantParts(Day(t), 0, 0);
  }

  lemma EveryMonth(d: int)
    ensures CivilFromDay(d).month + 1 in Between(1, 12)
  {
  }

  /** Asked on Monday 12 January 2026 it fires on Tuesday the 13th, and not as late as Friday the 16th. */
  lemma TuesdayTheThirteenth()
    ensures ParseSchedule(THIRTEENTH_OR_FRIDAY).Some?
    ensures var s := ParseSchedule(THIRTEENTH_OR_FRIDAY).value;
            var asked, tuesday := Instant(MakeDay(2026, 0, 12), 0, 0), Instant(MakeDay(2026, 0, 13), 0, 0);
            WeekDay(MakeDay(2026, 0, 13)) == 2 && Fires(s, tuesday) && forall t :: asked < t < tuesday ==> !Fires(s, t)
  {
    hide Fires, ParseSchedule, CivilFromDay;
    var d := MakeDay(2026, 0, 13);
    assert d == 20466 && MakeDay(2026, 0, 12) == 20465;
    DayRoundTrip(Civil(2026, 0, 13));
    InstantParts(d, 0, 0);
    Midnight(Instant(d, 0, 0));
    ThirteenthOrFriday(Instant(d, 0, 0));
    forall t | Instant(d - 1, 0, 0) < t < Instant(d, 0, 0)
      ensures !Fires(ParseSchedule(THIRTEENTH_OR_FRIDAY).value, t)
    {
      ThirteenthOrFriday(t);
    }
  }
}
