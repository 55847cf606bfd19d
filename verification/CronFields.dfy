/** The five-field cron grammar: what a field denotes, and the scheduler's parser for it. */
module CronFields {
  import opened Prelude
  import opened Decimals
  import opened Whitespace

  /** One piece of a comma list: a star, a star with a step, a range, a value. */
  datatype Piece = Star | Every(step: nat) | Range(lo: nat, hi: nat) | One(value: nat) | Unreadable

  datatype Schedule = Schedule(mins: set<int>, hours: set<int>, doms: set<int>, months: set<int>, dows: set<int>)

  /** Least and greatest value of minute, hour, day of the month, month and day of the week. */
  const LIMITS: seq<(int, int)> := [(0, 59), (0, 23), (1, 31), (1, 12), (0, 7)]

  // --- Text ------------------------------------------------------------------------------------

  function IndexOf(s: string, c: char): (n: nat)
    ensures n <= |s| && (n < |s| ==> s[n] == c) && c !in s[..n]
  {
    if |s| == 0 || s[0] == c then 0 else
    var n := 1 + IndexOf(s[1..], c);
    assert s[..n] == [s[0]] + s[1..][..n - 1];
    n
  }

  /** `s.split(c)`: at least one piece, none of which holds `c`. */
  function Split(s: string, c: char): (r: seq<string>)
    ensures |r| > 0 && forall i :: 0 <= i < |r| ==> c !in r[i]
    decreases |s|
  {
    var n := IndexOf(s, c);
    if n == |s| then assert s[..n] == s; [s] else [s[..n]] + Split(s[n + 1..], c)
  }

  function SpaceAt(s: string): (n: nat)
    ensures n <= |s| && (n < |s| ==> IsSpace(s[n]))
  {
    if |s| == 0 || IsSpace(s[0]) then 0 else 1 + SpaceAt(s[1..])
  }

  /** `s.split(/\s+/)`. */
  function SplitSpaces(s: string): (r: seq<string>)
    ensures |r| > 0
    decreases |s|
  {
    var n := SpaceAt(s);
    if n == |s| then [s] else [s[..n]] + SplitSpaces(TrimStart(s[n + 1..]))
  }

  predicate AllDigits(s: string) {
    |s| > 0 && forall k :: 0 <= k < |s| ==> IsDigit(s[k])
  }

  /** The four patterns of a piece, in the order both copies of the grammar try them. */
  function ReadPiece(p: string): Piece {
    if p == "*" then Star
    else if |p| > 2 && p[..2] == "*/" && AllDigits(p[2..]) then Every(ParseNat(p[2..]))
    else
      var d := IndexOf(p, '-');
      if d < |p| && AllDigits(p[..d]) && AllDigits(p[d + 1..]) then Range(ParseNat(p[..d]), ParseNat(p[d + 1..]))
      else if AllDigits(p) then One(ParseNat(p))
      else Unreadable
  }

  // --- Meaning -----------------------------------------------------------------------------------

  predicate PieceOk(p: Piece, min: int, max: int) {
    match p
    case Star => true
    case Every(n) => 1 <= n <= max
    case Range(lo, hi) => min <= lo <= hi <= max
    case One(v) => min <= v <= max
    case Unreadable => false
  }

  /** `v` is reached from `lo` in steps of `n`. */
  predicate OnStep(lo: int, n: nat, v: int)
    requires n > 0
  {
    (v - lo) % n == 0
  }

  predicate Denotes(p: Piece, min: int, max: int, v: int) {
    && min <= v <= max
    && match p
       case Star => true
       case Every(n) => n > 0 && OnStep(min, n, v)
       case Range(lo, hi) => lo <= v <= hi
       case One(n) => v == n
       case Unreadable => false
  }

  predicate PiecesOk(pieces: seq<string>, min: int, max: int) {
    forall i :: 0 <= i < |pieces| ==> PieceOk(ReadPiece(pieces[i]), min, max)
  }

  predicate AnyDenotes(pieces: seq<string>, min: int, max: int, v: int) {
    exists i :: 0 <= i < |pieces| && Denotes(ReadPiece(pieces[i]), min, max, v)
  }

  function Denoted(pieces: seq<string>, min: int, max: int): set<int> {
    set v | min <= v <= max && AnyDenotes(pieces, min, max, v)
  }

  /** The values of a field: a field whose pieces are all in order, and no other, denotes the union of what they denote. */
  function FieldValues(field: string, min: int, max: int): Option<set<int>> {
    var pieces := Split(field, ',');
    if PiecesOk(pieces, min, max) then Some(Denoted(pieces, min, max)) else None
  }

  lemma FieldNeverEmpty(field: string, min: int, max: int)
    requires min <= max && FieldValues(field, min, max).Some?
    ensures exists v :: v in FieldValues(field, min, max).value
  {
    hide ReadPiece;
    var p := ReadPiece(Split(field, ',')[0]);
    var v := match p case Range(lo, _) => lo as int case One(n) => n as int case _ => min;
    assert p.Every? ==> OnStep(min, p.step, min);
    assert Denotes(p, min, max, v);
    assert v in FieldValues(field, min, max).value;
  }

  function ParseSchedule(expr: string): Option<Schedule> {
    var parts := SplitSpaces(Trim(expr));
    if |parts| != 5 then None else
    var f := seq(5, i requires 0 <= i < 5 => FieldValues(parts[i], LIMITS[i].0, LIMITS[i].1));
    if exists i :: 0 <= i < 5 && f[i].None? then None
    else Some(Schedule(f[0].value, f[1].value, f[2].value, f[3].value, f[4].value))
  }

  // --- The parser ----------------------------------------------------------------------------------

  lemma Scale(x: int, y: int, n: nat)
    requires x <= y
    ensures x * n <= y * n
  {
  }

  lemma Remainder(q: int, n: nat, d: nat)
    requires d < n
    ensures (q * n + d) % n == d
  {
    var k, r := (q * n + d) / n, (q * n + d) % n;
    assert q * n + d == k * n + r;
    if q < k {
      Scale(q + 1, k, n);
    } else if k < q {
      Scale(k + 1, q, n);
    }
  }

  /** Adding less than `n` to a multiple of `n` leaves that much as the remainder; adding `n` leaves none. */
  lemma PastMultiple(a: int, n: nat, d: nat)
    requires n > 0 && a % n == 0 && d <= n
    ensures (a + d) % n == if d == n then 0 else d
  {
    var q := a / n;
    assert a == q * n;
    if d == n {
      assert a + d == (q + 1) * n;
      Remainder(q + 1, n, 0);
    } else {
      Remainder(q, n, d);
    }
  }

  /** Adds every `step`-th value of `lo..hi`. */
  method AddSteps(before: set<int>, lo: int, hi: int, step: nat) returns (values: set<int>)
    requires step > 0
    ensures forall u :: u in values <==> u in before || (lo <= u <= hi && OnStep(lo, step, u))
  {
    hide OnStep;
    values := before;
    var v := lo;
    FirstStep(lo, step);
    while v <= hi
      invariant v >= lo && OnStep(lo, step, v)
      invariant forall u :: u in values <==> u in before || (lo <= u < v && u <= hi && OnStep(lo, step, u))
    {
      NextStep(lo, step, v);
      values := values + {v};
      v := v + step;
    }
  }

  lemma FirstStep(lo: int, step: nat)
    requires step > 0
    ensures OnStep(lo, step, lo)
  {
  }

  lemma NextStep(lo: int, step: nat, v: int)
    requires step > 0 && OnStep(lo, step, v)
    ensures OnStep(lo, step, v + step)
    ensures forall u :: OnStep(lo, step, u) && v < u ==> v + step <= u
  {
    PastMultiple(v - lo, step, step);
    assert v + step - lo == v - lo + step;
    forall u | OnStep(lo, step, u) && v < u ensures v + step <= u {
      assert u - lo == v - lo + (u - v);
      if u < v + step {
        PastMultiple(v - lo, step, u - v);
      }
    }
  }

  /** `parseCronField`. */
  method ParseCronField(field: string, min: int, max: int) returns (r: Result<set<int>>)
    ensures r.Ok? <==> FieldValues(field, min, max).Some?
    ensures r.Ok? ==> r.value == FieldValues(field, min, max).value
  {
    hide ReadPiece;
    var values: set<int> := {};
    var pieces := Split(field, ',');
    var i := 0;
    while i < |pieces|
      invariant 0 <= i <= |pieces|
      invariant PiecesOk(pieces[..i], min, max)
      invariant values == Denoted(pieces[..i], min, max)
    {
      ghost var before := values;
      var p := ReadPiece(pieces[i]);
      match p {
        case Star =>
          values := AddSteps(values, min, max, 1);
        case Every(step) =>
          if step < 1 || step > max {
            return Err("invalid step");
          }
          values := AddSteps(values, min, max, step);
        case Range(lo, hi) =>
          if lo < min || hi > max || lo > hi {
            return Err("invalid range");
          }
          values := AddSteps(values, lo, hi, 1);
        case One(v) =>
          if v < min || v > max {
            return Err("value out of range");
          }
          values := values + {v as int};
        case Unreadable =>
          return Err("unparseable cron field");
      }
      assert forall u :: u in values <==> u in before || Denotes(p, min, max, u);
      DenotedStep(pieces, i, min, max, before, values);
      i := i + 1;
    }
    assert pieces[..i] == pieces;
    r := Ok(values);
  }

  lemma DenotedStep(pieces: seq<string>, i: nat, min: int, max: int, before: set<int>, after: set<int>)
    requires i < |pieces| && before == Denoted(pieces[..i], min, max)
    requires forall u :: u in after <==> u in before || Denotes(ReadPiece(pieces[i]), min, max, u)
    ensures after == Denoted(pieces[..i + 1], min, max)
  {
    hide ReadPiece;
    var now := pieces[..i + 1];
    forall u ensures u in after <==> u in Denoted(now, min, max) {
      if u in before {
        var j :| 0 <= j < i && Denotes(ReadPiece(pieces[..i][j]), min, max, u);
        assert now[j] == pieces[..i][j];
      }
      if u in Denoted(now, min, max) {
        var j :| 0 <= j <= i && Denotes(ReadPiece(now[j]), min, max, u);
        if j < i {
          assert pieces[..i][j] == now[j];
        }
      }
      assert now[i] == pieces[i];
    }
  }

  /** `parseCronFieldList`. */
  method ParseCronFieldList(expr: string) returns (r: Result<Schedule>)
    ensures r.Ok? <==> ParseSchedule(expr).Some?
    ensures r.Ok? ==> r.value == ParseSchedule(expr).value
  {
    hide FieldValues, SplitSpaces, Trim;
    var parts := SplitSpaces(Trim(expr));
    if |parts| != 5 {
      return Err("cron must have 5 fields");
    }
    var sets: seq<set<int>> := [];
    while |sets| < 5
      invariant |sets| <= 5
      invariant forall i :: 0 <= i < |sets| ==> FieldValues(parts[i], LIMITS[i].0, LIMITS[i].1) == Some(sets[i])
    {
      var i := |sets|;
      var values := ParseCronField(parts[i], LIMITS[i].0, LIMITS[i].1);
      if values.Err? {
        return Err(values.code);
      }
      sets := sets + [values.value];
    }
    r := Ok(Schedule(sets[0], sets[1], sets[2], sets[3], sets[4]));
  }
}
