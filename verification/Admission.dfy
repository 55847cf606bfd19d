/** Admission of runs to a workspace: concurrency limit, hard run cap, and the run-state transitions that free them. */
module Admission {
  import opened Prelude

  type RunId = nat

  datatype Status = Queued | Running | Waiting | Paused | Succeeded | Failed | Canceled

  datatype Row = Row(status: Status, blocked: bool, started: bool)

  /** A fixed plan; the cap is there only on plans without overage billing. */
  datatype Limits = Limits(concurrency: Option<nat>, hardCap: Option<nat>)

  /** The runs of a workspace and the counter of its subscription, which counts only inside its period. */
  datatype Tables = Tables(runs: map<RunId, Row>, consumed: nat, inPeriod: bool)

  const EMPTY := Tables(map[], 0, true)

  predicate Terminal(s: Status) {
    s.Succeeded? || s.Failed? || s.Canceled?
  }

  /** A blocked run is not active. */
  predicate Active(r: Row) {
    !Terminal(r.status) && !r.blocked
  }

  function ActiveIds(t: Tables): set<RunId> {
    set id | id in t.runs && Active(t.runs[id])
  }

  function ActiveCount(t: Tables): nat {
    |ActiveIds(t)|
  }

  /** What the admission query reads: nothing between the end of a period and its rollover. */
  function Consumed(t: Tables): nat {
    if t.inPeriod then t.consumed else 0
  }

  predicate AtConcurrencyLimit(l: Limits, t: Tables) {
    l.concurrency.Some? && ActiveCount(t) >= l.concurrency.value
  }

  predicate AtCap(l: Limits, t: Tables) {
    l.hardCap.Some? && Consumed(t) + ActiveCount(t) >= l.hardCap.value
  }

  function SetRow(t: Tables, id: RunId, r: Row): Tables {
    t.(runs := t.runs[id := r])
  }

  /** A terminal transition with its metering: one unit if the run ever started, and the period is open. */
  function Finish(t: Tables, id: RunId, status: Status): Tables
    requires id in t.runs
  {
    var r := t.runs[id];
    SetRow(t, id, r.(status := status)).(consumed := if r.started && t.inPeriod then t.consumed + 1 else t.consumed)
  }

  datatype Decision = Admitted | ConcurrencyLimit | RunLimit | Duplicate

  /** The admission transaction of a manual or webhook run. */
  function Decide(l: Limits, t: Tables, id: RunId): Decision {
    if AtConcurrencyLimit(l, t) then ConcurrencyLimit
    else if AtCap(l, t) then RunLimit
    else if id in t.runs then Duplicate
    else Admitted
  }

  /** Where an executor job leaves a run: parked, terminal, or still running when the worker dies. */
  datatype Step =
    | Admit(id: RunId)
    | Fire(id: RunId)
    | Promote(id: RunId)
    | Segment(id: RunId, to: Status)
    | Requeue(id: RunId)
    | Cancel(id: RunId)
    | Exhaust(id: RunId)
    | QueueTimeout(id: RunId)
    | EndPeriod
    | RollPeriod(ended: bool)

  function Do(l: Limits, t: Tables, s: Step): Tables {
    match s
    case Admit(id) => if Decide(l, t, id).Admitted? then SetRow(t, id, Row(Queued, false, false)) else t
    case Fire(id) =>
      if AtCap(l, t) || id in t.runs then t else SetRow(t, id, Row(Queued, AtConcurrencyLimit(l, t), false))
    case Promote(id) => if Promotes(l, t, id) then SetRow(t, id, t.runs[id].(blocked := false)) else t
    case Segment(id, to) =>
      if id !in t.runs || !Active(t.runs[id]) || to.Canceled? || to.Queued? then t
      else
        var started := SetRow(t, id, t.runs[id].(started := true));
        if Terminal(to) then Finish(started, id, to) else SetRow(t, id, Row(to, false, true))
    case Requeue(id) =>
      if id in t.runs && Active(t.runs[id]) then SetRow(t, id, t.runs[id].(status := Queued)) else t
    case Cancel(id) => if id in t.runs && !Terminal(t.runs[id].status) then Finish(t, id, Canceled) else t
    case Exhaust(id) => if id in t.runs && Active(t.runs[id]) then Finish(t, id, Failed) else t
    case QueueTimeout(id) =>
      if id in t.runs && t.runs[id].status.Queued? then SetRow(t, id, t.runs[id].(status := Failed)) else t
    case EndPeriod => t.(inPeriod := false)
    case RollPeriod(ended) => if t.inPeriod then t else t.(consumed := 0, inPeriod := !ended)
  }

  /** The concurrency retry looks at the concurrency limit, and not at the cap. */
  predicate Promotes(l: Limits, t: Tables, id: RunId) {
    id in t.runs && t.runs[id].status.Queued? && t.runs[id].blocked && l.concurrency.Some? && !AtConcurrencyLimit(l, t)
  }

  function Replay(l: Limits, steps: seq<Step>): Tables {
    if |steps| == 0 then EMPTY else Do(l, Replay(l, steps[..|steps| - 1]), steps[|steps| - 1])
  }

  /** A blocked run has not started: it is queued, or was ended from the queue. */
  ghost predicate BlockedIdle(t: Tables) {
    forall id :: id in t.runs && t.runs[id].blocked ==> !t.runs[id].started && (t.runs[id].status.Queued? || Terminal(t.runs[id].status))
  }

  // --- What a step does to a run -------------------------------------------------------------------

  /** Admission counts the runs that are neither ended nor blocked, and looks at the concurrency limit first. */
  lemma DecisionOf(l: Limits, t: Tables, id: RunId)
    ensures var active := |set run | run in t.runs && !t.runs[run].blocked && t.runs[run].status !in {Succeeded, Failed, Canceled}|;
            var consumed := if t.inPeriod then t.consumed else 0;
            Decide(l, t, id) ==
            if l.concurrency.Some? && active >= l.concurrency.value then ConcurrencyLimit
            else if l.hardCap.Some? && consumed + active >= l.hardCap.value then RunLimit
            else if id in t.runs then Duplicate
            else Admitted
  {
    assert ActiveIds(t) == set run | run in t.runs && !t.runs[run].blocked && t.runs[run].status !in {Succeeded, Failed, Canceled};
  }

  /** The rows that each step writes, the first of its kind for a run. */
  lemma NewRuns(l: Limits, t: Tables, id: RunId)
    requires id !in t.runs
    ensures Decide(l, t, id) == Admitted ==> Do(l, t, Admit(id)).runs == t.runs[id := Row(Queued, false, false)]
    ensures Decide(l, t, id) != Admitted ==> Do(l, t, Admit(id)) == t
    ensures !AtCap(l, t) ==> Do(l, t, Fire(id)).runs == t.runs[id := Row(Queued, AtConcurrencyLimit(l, t), false)]
    ensures AtCap(l, t) ==> Do(l, t, Fire(id)) == t
  {
  }

  /**
   * How a run that has not ended does end: cancelled it is `Canceled`, given up after its attempts or timed out in the
   * queue it is `Failed`, and a job of the executor leaves the status it came to.
   */
  lemma EndsOfRuns(l: Limits, t: Tables, id: RunId, to: Status)
    requires id in t.runs && t.runs[id].status !in {Succeeded, Failed, Canceled}
    ensures Do(l, t, Cancel(id)).runs == t.runs[id := t.runs[id].(status := Canceled)]
    ensures !t.runs[id].blocked ==> Do(l, t, Exhaust(id)).runs == t.runs[id := t.runs[id].(status := Failed)]
    ensures !t.runs[id].blocked ==> Do(l, t, Requeue(id)).runs == t.runs[id := t.runs[id].(status := Queued)]
    ensures t.runs[id].status == Queued ==> Do(l, t, QueueTimeout(id)).runs == t.runs[id := t.runs[id].(status := Failed)]
    ensures !t.runs[id].blocked && to !in {Queued, Canceled} ==> Do(l, t, Segment(id, to)).runs == t.runs[id := Row(to, false, true)]
  {
  }

  // --- Counting ------------------------------------------------------------------------------------

  /** One row decides about one id. */
  lemma SetRowCounts(t: Tables, id: RunId, r: Row)
    ensures ActiveIds(SetRow(t, id, r)) == if Active(r) then ActiveIds(t) + {id} else ActiveIds(t) - {id}
    ensures ActiveCount(SetRow(t, id, r)) ==
            ActiveCount(t) + (if Active(r) then 1 else 0) - (if id in t.runs && Active(t.runs[id]) then 1 else 0)
  {
    var before, after := ActiveIds(t), ActiveIds(SetRow(t, id, r));
    if Active(r) {
      assert after == before + {id};
    } else {
      assert after == before - {id};
    }
  }

  /** How one step changes the count of active runs and the counter: a run stops being active before it is counted. */
  lemma StepCounts(l: Limits, t: Tables, s: Step)
    requires BlockedIdle(t)
    ensures var t' := Do(l, t, s);
            || t' == t
            || (ActiveCount(t') == ActiveCount(t) && Consumed(t') <= Consumed(t))
            || (ActiveCount(t') + 1 == ActiveCount(t) && Consumed(t') <= Consumed(t) + 1)
            || (ActiveCount(t') == ActiveCount(t) + 1 && Consumed(t') == Consumed(t) && Enters(l, t, s))
  {
    hide ActiveCount;
    match s
    case Admit(id) => SetRowCounts(t, id, Row(Queued, false, false));
    case Fire(id) => SetRowCounts(t, id, Row(Queued, AtConcurrencyLimit(l, t), false));
    case Promote(id) =>
      if Promotes(l, t, id) {
        SetRowCounts(t, id, t.runs[id].(blocked := false));
      }
    case Segment(id, to) =>
      if id in t.runs {
        SetRowCounts(t, id, Row(to, false, true));
        SetRowCounts(t, id, t.runs[id].(started := true, status := to));
        SetRowCounts(t, id, t.runs[id].(started := true));
        var started := SetRow(t, id, t.runs[id].(started := true));
        SetRowCounts(started, id, started.runs[id].(status := to));
        CountsRuns(Finish(started, id, to), SetRow(started, id, started.runs[id].(status := to)));
      }
    case Requeue(id) =>
      if id in t.runs {
        SetRowCounts(t, id, t.runs[id].(status := Queued));
      }
    case Cancel(id) => FinishCounts(t, id, Canceled);
    case Exhaust(id) => FinishCounts(t, id, Failed);
    case QueueTimeout(id) =>
      if id in t.runs {
        SetRowCounts(t, id, t.runs[id].(status := Failed));
      }
    case EndPeriod => CountsRuns(t, Do(l, t, s));
    case RollPeriod(_) => CountsRuns(t, Do(l, t, s));
  }

  lemma CountsRuns(t: Tables, t': Tables)
    requires t.runs == t'.runs
    ensures ActiveCount(t) == ActiveCount(t')
  {
    assert ActiveIds(t) == ActiveIds(t');
  }

  lemma FinishCounts(t: Tables, id: RunId, status: Status)
    requires Terminal(status)
    ensures id in t.runs ==>
              ActiveCount(Finish(t, id, status)) == ActiveCount(t) - (if Active(t.runs[id]) then 1 else 0)
  {
    if id in t.runs {
      var r := t.runs[id].(status := status);
      SetRowCounts(t, id, r);
      CountsRuns(Finish(t, id, status), SetRow(t, id, r));
    }
  }

  /** The three ways in: admission, an unblocked scheduled run, a promotion. */
  predicate Enters(l: Limits, t: Tables, s: Step) {
    match s
    case Admit(id) => Decide(l, t, id).Admitted?
    case Fire(id) => !AtCap(l, t) && !AtConcurrencyLimit(l, t)
    case Promote(id) => Promotes(l, t, id)
    case _ => false
  }

  // --- Safety ----------------------------------------------------------------------------------------

  /** In every reachable state the active runs, however they came in, are within the concurrency limit. */
  lemma {:induction false} ConcurrencyIsKept(l: Limits, steps: seq<Step>)
    requires l.concurrency.Some?
    ensures ActiveCount(Replay(l, steps)) <= l.concurrency.value && BlockedIdle(Replay(l, steps))
  {
    hide ActiveCount, Do;
    if |steps| == 0 {
      NothingActive();
    } else {
      ConcurrencyIsKept(l, steps[..|steps| - 1]);
      StepCounts(l, Replay(l, steps[..|steps| - 1]), steps[|steps| - 1]);
      StepBlockedIdle(l, Replay(l, steps[..|steps| - 1]), steps[|steps| - 1]);
    }
  }

  lemma NothingActive()
    ensures ActiveCount(EMPTY) == 0
  {
    assert ActiveIds(EMPTY) == {};
  }

  predicate WithinCap(l: Limits, t: Tables) {
    l.hardCap.Some? ==> Consumed(t) + ActiveCount(t) <= l.hardCap.value
  }

  lemma StepBlockedIdle(l: Limits, t: Tables, s: Step)
    requires BlockedIdle(t)
    ensures BlockedIdle(Do(l, t, s))
  {
    hide AtConcurrencyLimit, AtCap;
  }

  /** A step leaves the hard cap kept exactly when it is not a promotion at the cap. */
  lemma OnlyPromotionBreaksCap(l: Limits, t: Tables, s: Step)
    requires WithinCap(l, t) && BlockedIdle(t)
    ensures WithinCap(l, Do(l, t, s)) <==> !(s.Promote? && Promotes(l, t, s.id) && AtCap(l, t))
  {
    hide ActiveCount, BlockedIdle;
    StepCounts(l, t, s);
    CancelOfBlocked(l, t, s);
    if s.Promote? && Promotes(l, t, s.id) {
      SetRowCounts(t, s.id, t.runs[s.id].(blocked := false));
    }
  }

  /** Whatever leaves the active count alone leaves the counter alone or resets it. */
  lemma CancelOfBlocked(l: Limits, t: Tables, s: Step)
    requires BlockedIdle(t)
    ensures var t' := Do(l, t, s);
            Consumed(t') > Consumed(t) ==> ActiveCount(t') + 1 == ActiveCount(t)
  {
    hide ActiveCount;
    match s
    case Segment(id, to) => StepCounts(l, t, s);
    case Cancel(id) => FinishCounts(t, id, Canceled);
    case Exhaust(id) => FinishCounts(t, id, Failed);
    case _ =>
  }

  /** Without schedule triggers no run is ever blocked, so on a hard-capped plan counted and active runs stay within the cap. */
  lemma {:induction false} CapIsKeptWithoutSchedules(l: Limits, steps: seq<Step>)
    requires forall i :: 0 <= i < |steps| ==> !steps[i].Fire?
    ensures var t := Replay(l, steps);
            WithinCap(l, t) && BlockedIdle(t) && forall id :: id in t.runs ==> !t.runs[id].blocked
  {
    hide Do, ActiveCount, WithinCap;
    if |steps| == 0 {
      NothingActive();
      assert WithinCap(l, EMPTY) by {
        EmptyWithinCap(l);
      }
    } else {
      CapIsKeptWithoutSchedules(l, steps[..|steps| - 1]);
      var t := Replay(l, steps[..|steps| - 1]);
      var s := steps[|steps| - 1];
      OnlyPromotionBreaksCap(l, t, s);
      StepBlockedIdle(l, t, s);
      NeverBlocked(l, t, s);
    }
  }

  lemma EmptyWithinCap(l: Limits)
    ensures WithinCap(l, EMPTY)
  {
    NothingActive();
  }

  lemma NeverBlocked(l: Limits, t: Tables, s: Step)
    requires !s.Fire? && forall id :: id in t.runs ==> !t.runs[id].blocked
    ensures var t' := Do(l, t, s); forall id :: id in t'.runs ==> !t'.runs[id].blocked
  {
    hide AtConcurrencyLimit, AtCap;
  }

  lemma ReplayMore(l: Limits, steps: seq<Step>, s: Step)
    ensures Replay(l, steps + [s]) == Do(l, Replay(l, steps), s)
  {
    hide Do;
    assert (steps + [s])[..|steps|] == steps;
  }

  /** One run is scheduled while another is at work; `j` runs have ended and been counted since. */
  function Pump(j: nat): seq<Step>
    requires j > 0
  {
    if j == 1 then [Admit(0), Fire(1), Segment(0, Succeeded)] else Pump(j - 1) + [Admit(j), Segment(j, Succeeded)]
  }

  /** Nothing is active, `j` runs are counted, and run 1 waits behind the concurrency limit. */
  ghost predicate Pumped(t: Tables, j: nat) {
    && t.inPeriod && t.consumed == j && ActiveIds(t) == {} && 1 in t.runs && t.runs[1] == Row(Queued, true, false)
    && forall id :: id in t.runs ==> id <= j || id == 1
  }

  lemma PumpStarts(l: Limits)
    requires l.concurrency == Some(1) && l.hardCap.Some? && l.hardCap.value >= 2
    ensures Pumped(Replay(l, Pump(1)), 1)
  {
    var steps: seq<Step> := [];
    var t0 := Replay(l, steps);
    NothingActive();
    ReplayMore(l, steps, Admit(0));
    ReplayMore(l, steps + [Admit(0)], Fire(1));
    ReplayMore(l, steps + [Admit(0)] + [Fire(1)], Segment(0, Succeeded));
    assert steps + [Admit(0)] + [Fire(1)] + [Segment(0, Succeeded)] == Pump(1);
    var t1 := Do(l, t0, Admit(0));
    assert t1 == Tables(map[0 := Row(Queued, false, false)], 0, true);
    assert ActiveIds(t1) == {0};
    var t2 := Do(l, t1, Fire(1));
    assert t2 == Tables(map[0 := Row(Queued, false, false), 1 := Row(Queued, true, false)], 0, true);
    var t3 := Do(l, t2, Segment(0, Succeeded));
    assert ActiveIds(t3) == {};
  }

  lemma PumpStep(l: Limits, t: Tables, j: nat)
    requires l.concurrency == Some(1) && l.hardCap.Some? && 0 < j < l.hardCap.value && Pumped(t, j)
    ensures Pumped(Do(l, Do(l, t, Admit(j + 1)), Segment(j + 1, Succeeded)), j + 1)
  {
    var t1 := Do(l, t, Admit(j + 1));
    assert t1.runs == t.runs[j + 1 := Row(Queued, false, false)];
    assert ActiveIds(t1) == {j + 1};
    var t2 := Do(l, t1, Segment(j + 1, Succeeded));
    assert t2.runs == t.runs[j + 1 := Row(Succeeded, false, true)];
    assert ActiveIds(t2) == {};
  }

  lemma {:induction false} PumpRuns(l: Limits, j: nat)
    requires l.concurrency == Some(1) && l.hardCap.Some? && 0 < j <= l.hardCap.value && l.hardCap.value >= 2
    ensures Pumped(Replay(l, Pump(j)), j)
  {
    hide Pumped, Do;
    if j == 1 {
      PumpStarts(l);
    } else {
      PumpRuns(l, j - 1);
      ReplayMore(l, Pump(j - 1), Admit(j));
      ReplayMore(l, Pump(j - 1) + [Admit(j)], Segment(j, Succeeded));
      assert Pump(j - 1) + [Admit(j)] + [Segment(j, Succeeded)] == Pump(j);
      PumpStep(l, Replay(l, Pump(j - 1)), j - 1);
    }
  }

  /** With them it is not, for any cap of at least two: a scheduled run is blocked below the cap, and promoted at it. */
  lemma PromotionExceedsCap(cap: nat)
    requires cap >= 2
    ensures var l := Limits(Some(1), Some(cap));
            WithinCap(l, Replay(l, Pump(cap))) && !WithinCap(l, Replay(l, Pump(cap) + [Promote(1)]))
  {
    var l := Limits(Some(1), Some(cap));
    PumpRuns(l, cap);
    ReplayMore(l, Pump(cap), Promote(1));
    hide Pump, Replay;
    var t := Replay(l, Pump(cap));
    assert ActiveIds(Do(l, t, Promote(1))) == {1};
  }

  /** Terminal is final, and what is counted is counted at the one transition into it. */
  lemma TerminalIsFinal(l: Limits, t: Tables, s: Step, id: RunId)
    requires id in t.runs && Terminal(t.runs[id].status)
    ensures var t' := Do(l, t, s); id in t'.runs && t'.runs[id] == t.runs[id]
  {
    hide AtConcurrencyLimit, AtCap;
  }

  lemma CountedAtTermination(l: Limits, t: Tables, s: Step)
    requires t.inPeriod && Do(l, t, s).consumed != t.consumed
    ensures s.Segment? || s.Cancel? || s.Exhaust?
    ensures var t' := Do(l, t, s);
            && t'.consumed == t.consumed + 1 && s.id in t.runs && !Terminal(t.runs[s.id].status)
            && Terminal(t'.runs[s.id].status) && t'.runs[s.id].started
  {
    hide AtConcurrencyLimit, AtCap;
  }

  /** The step takes this started run into a terminal status. */
  predicate Ends(l: Limits, t: Tables, s: Step, id: RunId) {
    && id in t.runs && !Terminal(t.runs[id].status)
    && var t' := Do(l, t, s); id in t'.runs && Terminal(t'.runs[id].status) && t'.runs[id].started
  }

  /** While the period is open, a started run that ends is counted exactly when it was not timed out in the queue. */
  lemma CountedIffNotQueueTimeout(l: Limits, t: Tables, s: Step, id: RunId)
    requires t.inPeriod && Ends(l, t, s, id)
    ensures Do(l, t, s).consumed == t.consumed + 1 <==> !s.QueueTimeout?
    ensures s.QueueTimeout? ==> s.id == id && t.runs[id].started && Do(l, t, s).consumed == t.consumed
  {
    hide AtConcurrencyLimit, AtCap;
  }

  /** It happens to a run that waited: put back into the queue after a day, it fails there and is never counted. */
  lemma StartedRunEndsUncounted(l: Limits)
    requires l.concurrency != Some(0) && l.hardCap != Some(0)
    ensures var t := Replay(l, [Admit(0), Segment(0, Waiting), Requeue(0)]);
            t.inPeriod && Ends(l, t, QueueTimeout(0), 0)
    ensures var t' := Replay(l, [Admit(0), Segment(0, Waiting), Requeue(0), QueueTimeout(0)]);
            t'.runs == map[0 := Row(Failed, false, true)] && t'.consumed == 0
  {
    hide Do;
    AdmitWaitRequeue(l);
    var three := [Admit(0), Segment(0, Waiting), Requeue(0)];
    ReplayMore(l, [], Admit(0));
    assert [] + [Admit(0)] == three[..1];
    ReplayMore(l, three[..1], three[1]);
    assert three[..1] + [three[1]] == three[..2];
    ReplayMore(l, three[..2], three[2]);
    assert three[..2] + [three[2]] == three;
    ReplayMore(l, three, QueueTimeout(0));
    assert three + [QueueTimeout(0)] == [Admit(0), Segment(0, Waiting), Requeue(0), QueueTimeout(0)];
  }

  lemma AdmitWaitRequeue(l: Limits)
    requires l.concurrency != Some(0) && l.hardCap != Some(0)
    ensures var t := Do(l, Do(l, Do(l, EMPTY, Admit(0)), Segment(0, Waiting)), Requeue(0));
            && t.inPeriod && Ends(l, t, QueueTimeout(0), 0)
            && Do(l, t, QueueTimeout(0)) == Tables(map[0 := Row(Failed, false, true)], 0, true)
  {
    var t1 := Do(l, EMPTY, Admit(0));
    assert ActiveIds(EMPTY) == {};
    assert t1 == Tables(map[0 := Row(Queued, false, false)], 0, true);
    var t2 := Do(l, t1, Segment(0, Waiting));
    assert t2 == Tables(map[0 := Row(Waiting, false, true)], 0, true);
  }
}
