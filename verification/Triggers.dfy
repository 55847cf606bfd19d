/** Schedule triggers: due instants turned into runs by tickers that may overlap and crash. */
module Triggers {
  import opened Prelude
  import opened Calendar
  import opened CronFields
  import opened Cron

  /**
   * What `computeNextFire` gives for the instants at which a schedule fires: the least one after the time asked, or an
   * error.
   */
  ghost predicate NextOf(fires: int -> bool, next: int -> Option<int>) {
    forall t :: next(t).Some? ==> t < next(t).value && fires(next(t).value) && forall u :: t < u < next(t).value ==> !fires(u)
  }

  type Ticker = nat

  /** What a ticker has read of the trigger row, and whether it is past the run insert. */
  datatype Claim = Claim(fireAt: int, handled: bool)

  /** `next_fire_at` was moved from one instant to another at some time. */
  datatype Move = Move(from: int, at: int, to: int)

  /**
   * One trigger, its runs by fire instant, the instants it was at the cap or had no version for, and how its
   * `next_fire_at` has been moved.
   */
  datatype Board = Board(
    now: int, nextFire: int, runs: seq<int>, declined: set<int>, moves: seq<Move>, tickers: map<Ticker, Claim>)

  datatype Step =
    | Clock(ms: nat)
    | Read(w: Ticker)
    | Insert(w: Ticker, admitted: bool)
    | Advance(w: Ticker)
    | Crash(w: Ticker)

  function Do(next: int -> Option<int>, b: Board, s: Step): Board {
    match s
    case Clock(ms) => b.(now := b.now + ms)
    case Read(w) => if b.nextFire <= b.now && w !in b.tickers then b.(tickers := b.tickers[w := Claim(b.nextFire, false)]) else b
    case Insert(w, admitted) =>
      if w !in b.tickers || b.tickers[w].handled then b else
      var f := b.tickers[w].fireAt;
      var b' := b.(tickers := b.tickers[w := Claim(f, true)]);
      if !admitted then b'.(declined := b.declined + {f}) else if f in b.runs then b' else b'.(runs := b.runs + [f])
    case Advance(w) =>
      if w !in b.tickers || !b.tickers[w].handled then b
      else if next(b.now).None? then b.(tickers := b.tickers - {w})
      else b.(nextFire := next(b.now).value, tickers := b.tickers - {w},
              moves := if next(b.now).value == b.nextFire then b.moves else b.moves + [Move(b.nextFire, b.now, next(b.now).value)])
    case Crash(w) => b.(tickers := b.tickers - {w})
  }

  function Start(now: int, first: int): Board {
    Board(now, first, [], {}, [], map[])
  }

  function Replay(next: int -> Option<int>, b: Board, steps: seq<Step>): Board {
    if |steps| == 0 then b else Do(next, Replay(next, b, steps[..|steps| - 1]), steps[|steps| - 1])
  }

  /** The trigger was given its next instant at some time that has passed. */
  ghost predicate Scheduled(next: int -> Option<int>, b: Board) {
    exists t :: t <= b.now && next(t) == Some(b.nextFire)
  }

  ghost predicate Distinct(xs: seq<int>) {
    forall i, j :: 0 <= i < j < |xs| ==> xs[i] != xs[j]
  }

  /** What every step keeps, tickers overlapping or not. */
  ghost predicate InOrder(fires: int -> bool, next: int -> Option<int>, b: Board) {
    && Scheduled(next, b)
    && Distinct(b.runs)
    && (forall f :: f in b.runs ==> f <= b.now && fires(f))
    && (forall w :: w in b.tickers ==> b.tickers[w].fireAt <= b.now && fires(b.tickers[w].fireAt))
  }

  lemma StepInOrder(fires: int -> bool, next: int -> Option<int>, b: Board, step: Step)
    requires NextOf(fires, next) && InOrder(fires, next, b)
    ensures InOrder(fires, next, Do(next, b, step))
  {
    var b' := Do(next, b, step);
    var t :| t <= b.now && next(t) == Some(b.nextFire);
    if b'.nextFire == b.nextFire {
      assert t <= b'.now && next(t) == Some(b'.nextFire);
    } else {
      assert next(b'.now) == Some(b'.nextFire);
    }
  }

  /** Over any history of ticks, overlapping tickers and crashes, no instant has two runs, none is early, and all are the schedule's. */
  lemma {:induction false} OneRunPerInstant(fires: int -> bool, next: int -> Option<int>, b: Board, steps: seq<Step>)
    requires NextOf(fires, next) && InOrder(fires, next, b)
    ensures InOrder(fires, next, Replay(next, b, steps))
  {
    hide Do, InOrder;
    if |steps| > 0 {
      OneRunPerInstant(fires, next, b, steps[..|steps| - 1]);
      StepInOrder(fires, next, Replay(next, b, steps[..|steps| - 1]), steps[|steps| - 1]);
    }
  }

  /** An advance moves a due trigger past the present, and leaves a trigger that is not due where it is. */
  lemma AdvanceMovesForward(fires: int -> bool, next: int -> Option<int>, b: Board, step: Step)
    requires NextOf(fires, next) && InOrder(fires, next, b)
    ensures var b' := Do(next, b, step);
            if b'.nextFire == b.nextFire then true else step.Advance? && b.nextFire <= b.now < b'.nextFire
  {
    var t :| t <= b.now && next(t) == Some(b.nextFire);
    if step.Advance? && next(b.now).Some? && b.now < b.nextFire {
      var v := next(b.now).value;
      assert fires(b.nextFire) && fires(v);
      assert !(b.now < b.nextFire < v) && !(t < v < b.nextFire);
    }
  }

  /** A ticker that has read a due instant gives it its run if it is admitted, and notes the refusal if not; then it may advance. */
  lemma InsertRecords(next: int -> Option<int>, b: Board, w: Ticker, admitted: bool)
    requires w in b.tickers && !b.tickers[w].handled
    ensures var f, b' := b.tickers[w].fireAt, Do(next, b, Insert(w, admitted));
            && b'.tickers == b.tickers[w := Claim(f, true)] && b'.nextFire == b.nextFire
            && (admitted ==> f in b'.runs && b'.declined == b.declined && (f in b.runs ==> b'.runs == b.runs))
            && (!admitted ==> f in b'.declined && b'.runs == b.runs)
    ensures forall v :: v !in b.tickers ==> (v in Do(next, b, Read(v)).tickers <==> b.nextFire <= b.now)
  {
  }

  // --- What becomes of the instants of the schedule -----------------------------------------------

  /** `next_fire_at` held the instant and was moved on from it. */
  predicate Held(b: Board, f: int) {
    exists i :: 0 <= i < |b.moves| && b.moves[i].from == f
  }

  /** The instant came after one that `next_fire_at` held, and had passed when that was moved on from. */
  predicate Skipped(b: Board, u: int) {
    exists i :: 0 <= i < |b.moves| && b.moves[i].from < u <= b.moves[i].at
  }

  /** The instant has its run, or was declined. */
  predicate Covered(b: Board, f: int) {
    f in b.runs || f in b.declined
  }

  /** The moves lead from the first instant to the current one, each past the time it was made at. */
  ghost predicate Chained(next: int -> Option<int>, first: int, b: Board) {
    && (if |b.moves| == 0 then b.nextFire == first else b.moves[0].from == first && b.moves[|b.moves| - 1].to == b.nextFire)
    && (forall i :: 0 < i < |b.moves| ==> b.moves[i - 1].to == b.moves[i].from)
    && (forall i :: 0 <= i < |b.moves| ==> b.moves[i].from <= b.moves[i].at < b.moves[i].to && next(b.moves[i].at) == Some(b.moves[i].to))
  }

  /** `next_fire_at` has held the instant, or holds it. */
  predicate Seen(b: Board, f: int) {
    Held(b, f) || f == b.nextFire
  }

  /** Runs, refusals and claims are about instants that have been seen, and a claim past its insert is covered. */
  ghost predicate Tracked(next: int -> Option<int>, first: int, b: Board) {
    && Chained(next, first, b)
    && (forall f :: Covered(b, f) ==> Seen(b, f))
    && (forall w :: w in b.tickers ==> Seen(b, b.tickers[w].fireAt) && (b.tickers[w].handled ==> Covered(b, b.tickers[w].fireAt)))
  }

  lemma StepTracked(fires: int -> bool, next: int -> Option<int>, first: int, b: Board, step: Step)
    requires NextOf(fires, next) && InOrder(fires, next, b) && Tracked(next, first, b)
    ensures Tracked(next, first, Do(next, b, step))
  {
    hide NextOf, InOrder, Held;
    StepChained(fires, next, first, b, step);
    StepHolds(next, b, step);
    hide Chained;
  }

  lemma StepChained(fires: int -> bool, next: int -> Option<int>, first: int, b: Board, step: Step)
    requires NextOf(fires, next) && InOrder(fires, next, b) && Chained(next, first, b)
    ensures Chained(next, first, Do(next, b, step))
  {
    hide NextOf, InOrder;
    AdvanceMovesForward(fires, next, b, step);
  }

  lemma StepHolds(next: int -> Option<int>, b: Board, step: Step)
    ensures var b' := Do(next, b, step);
            && (forall f :: Held(b, f) ==> Held(b', f)) && (b'.nextFire != b.nextFire ==> Held(b', b.nextFire))
            && (forall f :: Covered(b, f) ==> Covered(b', f))
            && (forall f :: Covered(b', f) && !Covered(b, f) ==> exists w :: w in b.tickers && b.tickers[w].fireAt == f)
  {
    var b' := Do(next, b, step);
    forall f | Held(b, f) ensures Held(b', f) {
      var i :| 0 <= i < |b.moves| && b.moves[i].from == f;
      assert b'.moves[i] == b.moves[i];
    }
    if b'.nextFire != b.nextFire {
      assert b'.moves[|b.moves|].from == b.nextFire;
    }
  }

  lemma {:induction false} HistoryTracked(fires: int -> bool, next: int -> Option<int>, b: Board, steps: seq<Step>)
    requires NextOf(fires, next) && InOrder(fires, next, b) && Tracked(next, b.nextFire, b) && b.moves == []
    ensures InOrder(fires, next, Replay(next, b, steps)) && Tracked(next, b.nextFire, Replay(next, b, steps))
  {
    hide Do, InOrder, Tracked, NextOf;
    OneRunPerInstant(fires, next, b, steps);
    if |steps| > 0 {
      HistoryTracked(fires, next, b, steps[..|steps| - 1]);
      StepTracked(fires, next, b.nextFire, Replay(next, b, steps[..|steps| - 1]), steps[|steps| - 1]);
    }
  }

  lemma {:induction false} MovesAscend(next: int -> Option<int>, first: int, b: Board, i: nat, j: nat)
    requires Chained(next, first, b) && i < j < |b.moves|
    ensures b.moves[i].to <= b.moves[j].from
  {
    if i + 1 < j {
      MovesAscend(next, first, b, i, j - 1);
    }
  }

  /** Every instant on the way lies in one move. */
  lemma {:induction false} MoveOf(next: int -> Option<int>, first: int, b: Board, u: int, n: nat) returns (i: nat)
    requires Chained(next, first, b) && 0 < n <= |b.moves| && first <= u < b.moves[n - 1].to
    ensures i < n && b.moves[i].from <= u < b.moves[i].to
  {
    if b.moves[n - 1].from <= u {
      i := n - 1;
    } else {
      i := MoveOf(next, first, b, u, n - 1);
    }
  }

  /**
   * Over any history, every instant of the schedule before the current one was either held by `next_fire_at` or
   * skipped, and not both; a skipped instant has no run and was not declined. Skipped are exactly the instants after
   * a held one, up to the time at which that was moved on from: a late tick drops all but the first.
   */
  lemma HeldOrSkipped(fires: int -> bool, next: int -> Option<int>, b: Board, steps: seq<Step>, u: int)
    requires NextOf(fires, next) && InOrder(fires, next, b) && Tracked(next, b.nextFire, b) && b.moves == []
    requires fires(u) && b.nextFire <= u < Replay(next, b, steps).nextFire
    ensures var b' := Replay(next, b, steps); (Held(b', u) <==> !Skipped(b', u)) && (Skipped(b', u) ==> !Covered(b', u))
  {
    hide Do, InOrder, Replay;
    HistoryTracked(fires, next, b, steps);
    var b' := Replay(next, b, steps);
    var i := MoveOf(next, b.nextFire, b', u, |b'.moves|);
    assert next(b'.moves[i].at) == Some(b'.moves[i].to);
    forall j | 0 <= j < |b'.moves| && j != i ensures b'.moves[j].to <= u || u < b'.moves[j].from {
      if j < i {
        MovesAscend(next, b.nextFire, b', j, i);
      } else {
        MovesAscend(next, b.nextFire, b', i, j);
      }
    }
  }

  /** One tick by one ticker, however late: every later instant that has passed is skipped. */
  lemma LateTickSkips(next: int -> Option<int>, b: Board, w: Ticker, admitted: bool, u: int)
    requires b.tickers == map[] && b.nextFire < u <= b.now && next(b.now).Some? && next(b.now).value != b.nextFire
    ensures Skipped(Do(next, Do(next, Do(next, b, Read(w)), Insert(w, admitted)), Advance(w)), u)
  {
    var b' := Do(next, Do(next, Do(next, b, Read(w)), Insert(w, admitted)), Advance(w));
    assert b'.moves[|b.moves|] == Move(b.nextFire, b.now, next(b.now).value);
  }

  /**
   * A step moves on from an instant that has neither a run nor a refusal exactly when it is an advance, past a due
   * and uncovered instant, by a ticker that has handled another one.
   */
  lemma StaleAdvanceLosesInstant(fires: int -> bool, next: int -> Option<int>, first: int, b: Board, step: Step)
    requires NextOf(fires, next) && InOrder(fires, next, b) && Tracked(next, first, b)
    ensures Do(next, b, step).nextFire != b.nextFire && !Covered(b, b.nextFire) <==>
            && step.Advance? && step.w in b.tickers && b.tickers[step.w].handled && b.tickers[step.w].fireAt != b.nextFire
            && next(b.now).Some? && b.nextFire <= b.now && !Covered(b, b.nextFire)
  {
    AdvanceMovesForward(fires, next, b, step);
  }

  // --- Without overlap every held instant is handled ---------------------------------------------

  /** At most one ticker is at work when another reads. */
  ghost predicate OneAtATime(b: Board, s: Step) {
    s.Read? ==> b.tickers == map[]
  }

  /** Every instant moved on from has a run or was declined; the ticker at work holds the current one. */
  ghost predicate AllHandled(b: Board) {
    && (forall f :: Held(b, f) ==> Covered(b, f))
    && (forall w :: w in b.tickers ==> b.tickers[w].fireAt == b.nextFire && (b.tickers[w].handled ==> Covered(b, b.nextFire)))
    && |b.tickers| <= 1
  }

  lemma Alone(m: map<Ticker, Claim>, w: Ticker)
    requires |m| <= 1 && w in m
    ensures m - {w} == map[] && m.Keys == {w}
  {
    assert {w} <= m.Keys;
    assert |m.Keys - {w}| == |m.Keys| - 1;
  }

  /** Only an advance past its insert moves on from an instant, and that is the current one. */
  lemma HeldByStep(next: int -> Option<int>, b: Board, s: Step)
    ensures forall f :: Held(Do(next, b, s), f) ==>
              Held(b, f) || (f == b.nextFire && s.Advance? && s.w in b.tickers && b.tickers[s.w].handled)
  {
    var b' := Do(next, b, s);
    forall f | Held(b', f) ensures Held(b, f) || (f == b.nextFire && s.Advance? && s.w in b.tickers && b.tickers[s.w].handled) {
      var i :| 0 <= i < |b'.moves| && b'.moves[i].from == f;
      if i < |b.moves| {
        assert b.moves[i] == b'.moves[i];
      }
    }
  }

  lemma StepHandles(next: int -> Option<int>, b: Board, s: Step)
    requires AllHandled(b) && OneAtATime(b, s)
    ensures AllHandled(Do(next, b, s))
  {
    hide AllHandled, Do;
    match s
    case Clock(ms) => ClockHandles(next, b, ms);
    case Read(w) => ReadHandles(next, b, w);
    case Insert(w, admitted) => InsertHandles(next, b, w, admitted);
    case Advance(w) => AdvanceHandles(next, b, w);
    case Crash(w) => CrashHandles(next, b, w);
  }

  lemma ClockHandles(next: int -> Option<int>, b: Board, ms: nat)
    requires AllHandled(b)
    ensures AllHandled(Do(next, b, Clock(ms)))
  {
    hide Held;
    HeldByStep(next, b, Clock(ms));
  }

  lemma ReadHandles(next: int -> Option<int>, b: Board, w: Ticker)
    requires AllHandled(b) && b.tickers == map[]
    ensures AllHandled(Do(next, b, Read(w)))
  {
    hide Held;
    HeldByStep(next, b, Read(w));
    var m: map<Ticker, Claim> := map[][w := Claim(b.nextFire, false)];
    assert m.Keys == {w};
  }

  lemma InsertHandles(next: int -> Option<int>, b: Board, w: Ticker, admitted: bool)
    requires AllHandled(b)
    ensures AllHandled(Do(next, b, Insert(w, admitted)))
  {
    hide Held;
    HeldByStep(next, b, Insert(w, admitted));
    if w in b.tickers {
      Alone(b.tickers, w);
      assert Do(next, b, Insert(w, admitted)).tickers.Keys == {w};
    }
  }

  lemma AdvanceHandles(next: int -> Option<int>, b: Board, w: Ticker)
    requires AllHandled(b)
    ensures AllHandled(Do(next, b, Advance(w)))
  {
    hide Held;
    HeldByStep(next, b, Advance(w));
    if w in b.tickers {
      Alone(b.tickers, w);
    }
  }

  lemma CrashHandles(next: int -> Option<int>, b: Board, w: Ticker)
    requires AllHandled(b)
    ensures AllHandled(Do(next, b, Crash(w)))
  {
    hide Held;
    HeldByStep(next, b, Crash(w));
    if w in b.tickers {
      Alone(b.tickers, w);
    } else {
      assert b.tickers - {w} == b.tickers;
    }
  }

  ghost predicate NeverOverlapping(next: int -> Option<int>, b: Board, steps: seq<Step>) {
    forall i :: 0 <= i < |steps| ==> OneAtATime(Replay(next, b, steps[..i]), steps[i])
  }

  lemma {:induction false} HeldInstantsHandled(next: int -> Option<int>, now: int, first: int, steps: seq<Step>)
    requires NeverOverlapping(next, Start(now, first), steps)
    ensures AllHandled(Replay(next, Start(now, first), steps))
  {
    hide Do;
    if |steps| > 0 {
      var k := |steps| - 1;
      assert OneAtATime(Replay(next, Start(now, first), steps[..k]), steps[k]);
      assert NeverOverlapping(next, Start(now, first), steps[..k]) by {
        forall i | 0 <= i < k ensures OneAtATime(Replay(next, Start(now, first), steps[..k][..i]), steps[..k][i]) {
          assert steps[..k][..i] == steps[..i];
          assert OneAtATime(Replay(next, Start(now, first), steps[..i]), steps[i]);
        }
      }
      HeldInstantsHandled(next, now, first, steps[..k]);
      StepHandles(next, Replay(next, Start(now, first), steps[..k]), steps[k]);
    }
  }

  /** With overlap one can be left out: a ticker that stalls before its advance moves the trigger past an instant nobody has read. */
  lemma StalledTickerLosesInstant(next: int -> Option<int>, f1: int, f2: int)
    requires f1 > 0 && next(0) == Some(f1) && next(f1) == Some(f2) && f2 > f1
    ensures var b0 := Start(0, 0);
            var b1 := Do(next, Do(next, b0, Read(1)), Read(2));
            var b2 := Do(next, Do(next, b1, Insert(1, true)), Advance(1));
            var b3 := Do(next, Do(next, b2, Insert(2, true)), Clock(f1));
            var b4 := Do(next, b3, Advance(2));
            Held(b4, f1) && !Covered(b4, f1) && b4.nextFire == f2
  {
    var b0 := Start(0, 0);
    var b1 := Do(next, Do(next, b0, Read(1)), Read(2));
    var b2 := Do(next, Do(next, b1, Insert(1, true)), Advance(1));
    var b3 := Do(next, Do(next, b2, Insert(2, true)), Clock(f1));
    var b4 := Do(next, b3, Advance(2));
    assert b4.moves == [Move(0, 0, f1), Move(f1, f1, f2)];
    assert b4.moves[1].from == f1;
  }

  // --- One tick ---------------------------------------------------------------------------------------

  class ScheduleTrigger {
    const cron: string
    var nextFire: int
    var runs: seq<int>

    constructor (cron: string, first: int)
      ensures this.cron == cron && nextFire == first && runs == []
    {
      this.cron := cron;
      nextFire := first;
      runs := [];
    }

    /**
     * `fireDueTriggers` on this trigger, undisturbed: a due trigger gets the run of its instant, if it has none and is
     * admitted, and its next instant is the schedule's first after now. A schedule with none in reach makes the tick
     * fail after the insert.
     */
    method Tick(now: int, admitted: bool) returns (r: Result<bool>)
      requires YearFromDay(FirstDay(now)) >= 100 && Distinct(runs)
      modifies this
      ensures Distinct(runs)
      ensures old(nextFire) > now ==> r == Ok(false) && runs == old(runs) && nextFire == old(nextFire)
      ensures old(nextFire) <= now ==>
                runs == if admitted && old(nextFire) !in old(runs) then old(runs) + [old(nextFire)] else old(runs)
      ensures old(nextFire) <= now && r.Ok? ==>
                ParseSchedule(cron).Some? && now < nextFire && Fires(ParseSchedule(cron).value, nextFire) &&
                forall u :: now < u < nextFire ==> !Fires(ParseSchedule(cron).value, u)
      ensures r.Err? ==> nextFire == old(nextFire)
    {
      hide Fires, ParseSchedule, YearFromDay;
      if nextFire > now {
        return Ok(false);
      }
      if admitted && nextFire !in runs {
        runs := runs + [nextFire];
      }
      var next := ComputeNextFire(cron, now);
      if next.Err? {
        return Err(next.code);
      }
      nextFire := next.value;
      r := Ok(true);
    }
  }
}
