/** Whole runs: any sequence of jobs that park, crash and resume. */
module Durability {
  import opened Prelude
  import opened Values
  import opened Workflow
  import opened Executor
  import opened WellFormed
  import opened Soundness
  import opened Parking
  import opened Progress
  import opened Replay
  import opened Resumability
  import opened Resume
  import opened Reference

  /** The jobs of one run, in order; a finished run is not executed again. */
  function RunHistory(w: World, steps: seq<Step>, jobs: seq<Mode>, r: Run): (Run, Option<Outcome>) {
    if |jobs| == 0 then (r, None) else
    var (r1, o) := RunJob(w, jobs[0], steps, r);
    if Finished(o) then (r1, Some(o)) else RunHistory(w, steps, jobs[1..], Persisted(r, r1, o))
  }

  /** Every job that parks can be resumed unseen. */
  ghost predicate CleanHistory(w: World, hidden: set<Id>, steps: seq<Step>, jobs: seq<Mode>, r: Run) {
    |jobs| == 0 ||
    (var (r1, o) := RunJob(w, jobs[0], steps, r);
     && jobs[0].Segment?
     && (o.Parked? ==> Resumable(hidden, o))
     && (Finished(o) || CleanHistory(w, hidden, steps, jobs[1..], Persisted(r, r1, o))))
  }

  lemma {:induction false} HistoryAlike(w: World, hidden: set<Id>, steps: seq<Step>, jobs: seq<Mode>, r: Run)
    requires WfSteps(steps, 0, {}) && HidesSteps(hidden, steps, 0) && SoundSteps(steps, 0, [], Top, r)
    requires CleanHistory(w, hidden, steps, jobs, r)
    ensures var (r', o) := RunHistory(w, steps, jobs, r);
            var (u, ou) := RunJob(w, Uninterrupted, steps, r);
            o.Some? ==> Alike(hidden, u, r') && SameVerdict(ou, o.value)
    decreases |jobs|, 0
  {
    hide Alike, ExecSteps, WfSteps, HidesSteps, SoundSteps, Resumable;
    if |jobs| > 0 {
      var m := jobs[0];
      var (r1, o) := RunJob(w, m, steps, r);
      if Finished(o) {
        StepsFinish(w, m, steps, 0, [], Top, NoLoop, r, NO_FLAGS);
        RowsUnseen(hidden, r1, r1);
      } else if o.Parked? {
        StepsSound(w, m, steps, 0, {}, [], Top, NoLoop, r, NO_FLAGS);
        StepsResume(w, m, hidden, steps, 0, {}, [], Top, NoLoop, r, NO_FLAGS, NO_FLAGS);
        NextAlike(w, hidden, steps, jobs, r, r1);
      } else {
        var r2 := Persisted(r, r1, o);
        RowsUnseen(hidden, r, r2);
        AlikeSound(hidden, r, r2, steps, 0, [], Top);
        StepsAlike(w, hidden, steps, 0, {}, [], Top, NoLoop, r, r2, NO_FLAGS, NO_FLAGS);
        NextAlike(w, hidden, steps, jobs, r, r2);
      }
    }
  }

  lemma {:induction false} NextAlike(w: World, hidden: set<Id>, steps: seq<Step>, jobs: seq<Mode>, r: Run, r1: Run)
    requires |jobs| > 0
    requires WfSteps(steps, 0, {}) && HidesSteps(hidden, steps, 0) && SoundSteps(steps, 0, [], Top, r1)
    requires CleanHistory(w, hidden, steps, jobs[1..], r1)
    requires var (u, ou) := RunJob(w, Uninterrupted, steps, r);
             var (v, ov) := RunJob(w, Uninterrupted, steps, r1);
             Alike(hidden, u, v) && SameVerdict(ou, ov)
    ensures var (r', o) := RunHistory(w, steps, jobs[1..], r1);
            var (u, ou) := RunJob(w, Uninterrupted, steps, r);
            o.Some? ==> Alike(hidden, u, r') && SameVerdict(ou, o.value)
    decreases |jobs| - 1, 1
  {
    hide Alike, ExecSteps, WfSteps, HidesSteps, SoundSteps;
    HistoryAlike(w, hidden, steps, jobs[1..], r1);
    var (r', o) := RunHistory(w, steps, jobs[1..], r1);
    if o.Some? {
      AlikeTrans(hidden, RunJob(w, Uninterrupted, steps, r).0, RunJob(w, Uninterrupted, steps, r1).0, r');
    }
  }

  /**
   * The run ended as the plain walk does: same statuses, done set, reply, failure mark and verdict, and the same
   * outputs outside `hidden`.
   */
  ghost predicate EndsAs(hidden: set<Id>, r: Run, o: Outcome, g: Plain, e: PlainEnd) {
    && (forall id :: id !in hidden ==> (id in r.outputs <==> id in g.outputs))
    && (forall id :: id !in hidden && id in g.outputs ==> r.outputs[id] == g.outputs[id])
    && r.status == g.status && r.done == g.done && r.reply == g.reply && r.runFailed == g.runFailed
    && SameStepsEnd(o, e)
    && (RunFails(r, o) <==> g.runFailed || e.Stops?)
  }

  /**
   * Parking is invisible: a run cut into any jobs, crashed ones included, that finishes has ended as the plain walk
   * does, the `results` of the loops it entered again aside.
   */
  lemma ParkingIsInvisible(w: World, hidden: set<Id>, steps: seq<Step>, jobs: seq<Mode>)
    requires WfSteps(steps, 0, {}) && HidesSteps(hidden, steps, 0)
    requires CleanHistory(w, hidden, steps, jobs, FRESH_RUN)
    ensures var (r, o) := RunHistory(w, steps, jobs, FRESH_RUN);
            var (g, e) := Walk(w, steps);
            o.Some? ==> EndsAs(hidden, r, o.value, g, e)
  {
    hide ExecSteps, WalkSteps, WfSteps, HidesSteps, SoundSteps, CleanHistory, RunHistory;
    FreshIsSound(steps);
    HistoryAlike(w, hidden, steps, jobs, FRESH_RUN);
    StepsPlain(w, steps, 0, {}, [], Top, NoLoop, FRESH_RUN, NO_FLAGS, false, Null);
    NeverSkipped(w, steps, 0, [], Top, NoLoop, FRESH_RUN, NO_FLAGS);
    var r := RunHistory(w, steps, jobs, FRESH_RUN).0;
    var u := RunJob(w, Uninterrupted, steps, FRESH_RUN).0;
    var o := RunHistory(w, steps, jobs, FRESH_RUN).1;
    if o.Some? {
      assert r.runFailed == u.runFailed == Walk(w, steps).0.runFailed;
      assert SameStepsEnd(o.value, Walk(w, steps).1);
    }
    assert o.Some? ==> forall id :: id !in hidden ==> SameOutput(u, r, id);
  }

  ghost predicate AllSegments(jobs: seq<Mode>) {
    forall m :: m in jobs ==> m.Segment?
  }

  /** On such a manifest every list of jobs is clean. */
  lemma {:induction false} EveryHistoryIsClean(w: World, hidden: set<Id>, steps: seq<Step>, jobs: seq<Mode>, r: Run)
    requires RerunnableSteps(hidden, steps, 0) && AllSegments(jobs)
    ensures CleanHistory(w, hidden, steps, jobs, r)
    decreases |jobs|
  {
    hide ExecSteps, RerunnableSteps, Resumable, RunJob;
    if |jobs| > 0 {
      JobResumable(w, jobs[0], hidden, steps, r);
      var (r1, o) := RunJob(w, jobs[0], steps, r);
      EveryHistoryIsClean(w, hidden, steps, jobs[1..], Persisted(r, r1, o));
    }
  }

  /**
   * The same with conditions on the manifest alone: all loops are hidden and nobody reads them, and no step reads a
   * condition it lies in.
   */
  lemma ParkingIsInvisibleAlways(w: World, hidden: set<Id>, steps: seq<Step>, jobs: seq<Mode>)
    requires WfSteps(steps, 0, {}) && HidesSteps(hidden, steps, 0) && RerunnableSteps(hidden, steps, 0) && AllSegments(jobs)
    ensures var (r, o) := RunHistory(w, steps, jobs, FRESH_RUN);
            var (g, e) := Walk(w, steps);
            o.Some? ==> EndsAs(hidden, r, o.value, g, e)
  {
    hide ExecSteps, WfSteps, HidesSteps, RerunnableSteps, CleanHistory, EndsAs, Walk;
    EveryHistoryIsClean(w, hidden, steps, jobs, FRESH_RUN);
    ParkingIsInvisible(w, hidden, steps, jobs);
  }

  lemma FreshIsSound(steps: seq<Step>)
    ensures SoundSteps(steps, 0, [], Top, FRESH_RUN)
    ensures Clean(FRESH_RUN, Scope([], Top, Heads(steps, 0)))
    ensures Tally(steps, 0, [], Top, FRESH_RUN, false, Null)
  {
    UntouchedSound(steps, 0, [], Top, FRESH_RUN);
  }

  lemma NeverSkipped(w: World, steps: seq<Step>, k: nat, parent: Path, via: Via, loop: Loop, r: Run, acc: Flags)
    requires k <= |steps|
    ensures var o := ExecSteps(w, Uninterrupted, steps, k, parent, via, loop, r, acc).1;
            o.Completed? ==> !o.skipped
    decreases |steps| - k
  {
  }

  // --- A run whose parks are answered ends -----------------------------------------------------

  /**
   * Every job either crashes or finds all points `asked` so far answered, and when one parks, the failed steps that
   * it leaves behind can be passed again.
   */
  ghost predicate Answered(w: World, hidden: set<Id>, steps: seq<Step>, jobs: seq<Mode>, asked: set<Path>, r: Run) {
    |jobs| == 0 ||
    (var (r1, o) := RunJob(w, jobs[0], steps, r);
     && jobs[0].Segment? && (o.Crashed? || (CrashFree(jobs[0]) && forall q :: q in asked ==> jobs[0].ready(q)))
     && (o.Parked? ==> Passable(w, hidden, o))
     && (Finished(o) ||
         Answered(w, hidden, steps, jobs[1..], if o.Parked? then asked + {o.at} else asked, Persisted(r, r1, o))))
  }

  /** How many jobs of the run park. */
  function Parks(w: World, steps: seq<Step>, jobs: seq<Mode>, r: Run): nat {
    if |jobs| == 0 then 0 else
    var (r1, o) := RunJob(w, jobs[0], steps, r);
    if Finished(o) then 0 else (if o.Parked? then 1 else 0) + Parks(w, steps, jobs[1..], Persisted(r, r1, o))
  }

  /** How many of them crash. */
  function Crashes(w: World, steps: seq<Step>, jobs: seq<Mode>, r: Run): nat {
    if |jobs| == 0 then 0 else
    var (r1, o) := RunJob(w, jobs[0], steps, r);
    if Finished(o) then 0 else (if o.Crashed? then 1 else 0) + Crashes(w, steps, jobs[1..], Persisted(r, r1, o))
  }

  /**
   * A job that answers the park of the job before it parks further on in the document, if at all; or it asks once
   * more for the approval that was refused in the job before, and leaves everything else as it was.
   */
  lemma {:induction false} ParksAdvance(w: World, hidden: set<Id>, steps: seq<Step>, m: Mode, r: Run, b: Run, m': Mode)
    requires WfSteps(steps, 0, {}) && HidesSteps(hidden, steps, 0) && SoundSteps(steps, 0, [], Top, r)
    requires m.Segment? && CrashFree(m')
    requires var (r1, o) := RunJob(w, m, steps, r);
             o.Parked? && Passable(w, hidden, o) && m'.ready(o.at) && Stands(hidden, o, r1, b)
    ensures var o := RunJob(w, m, steps, r).1;
            var (b1, o') := RunJob(w, m', steps, b);
            && In(o.at, Scope([], Top, Heads(steps, 0)))
            && (o'.Parked? ==> (RankFrom(steps, 0, [], Top, o.at) < RankFrom(steps, 0, [], Top, o'.at) && o'.at != o.at)
                               || Reasks(hidden, m', r, b, b1, o, o'))
  {
    hide Stands, Reasks, ExecSteps, WfSteps, HidesSteps, SoundSteps, Passable, RankFrom, In;
    StepsAdvance(w, m, m', hidden, steps, 0, {}, [], Top, NoLoop, r, b, NO_FLAGS, NO_FLAGS);
  }

  /** The refused approval of the job from `r` is pending again, and was asked for. */
  ghost predicate Pending(asked: set<Path>, r: Run, b: Run) {
    r.approval.Some? && b.approval == r.approval && r.approval.value in asked
  }

  /** From a parked state: each place of the document is parked at once, and at most one approval asked for in between. */
  lemma {:induction false} ParksAreBounded(w: World, hidden: set<Id>, steps: seq<Step>, m: Mode, r: Run, jobs: seq<Mode>, b: Run,
                                           asked: set<Path>, again: bool)
    requires WfSteps(steps, 0, {}) && HidesSteps(hidden, steps, 0) && SoundSteps(steps, 0, [], Top, r) && m.Segment?
    requires var (r1, o) := RunJob(w, m, steps, r);
             && o.Parked? && o.at in asked && Passable(w, hidden, o) && Stands(hidden, o, r1, b)
             && Answered(w, hidden, steps, jobs, asked, b)
    requires again ==> Pending(asked, r, b)
    ensures var o := RunJob(w, m, steps, r).1;
            2 * RankFrom(steps, 0, [], Top, o.at) + Parks(w, steps, jobs, b) + (if again then 2 else 1) <= 2 * SizeFrom(steps, 0)
    decreases |jobs|
  {
    hide Stands, Reasks, Alike, ExecSteps, WfSteps, HidesSteps, SoundSteps, Passable, RankFrom, In, RunJob, SizeFrom;
    var (r1, o) := RunJob(w, m, steps, r);
    JobParks(w, steps, m, r);
    RankInside(steps, 0, [], Top, o.at);
    if |jobs| > 0 {
      var m' := jobs[0];
      var (b1, o') := RunJob(w, m', steps, b);
      if o'.Parked? {
        ParksAdvance(w, hidden, steps, m, r, b, m');
        if Reasks(hidden, m', r, b, b1, o, o') {
          ReasksParts(hidden, m', r, r1, b, b1, o, o');
          ParksAreBounded(w, hidden, steps, m, r, jobs[1..], b1, asked + {o'.at}, true);
        } else {
          JobSound(w, hidden, steps, m, r, r1, b);
          StandsSelf(hidden, o', b1);
          ParksAreBounded(w, hidden, steps, m', b, jobs[1..], b1, asked + {o'.at}, false);
        }
      } else if o'.Crashed? {
        var b2 := Persisted(b, b1, o');
        CrashStands(hidden, o, r1, b, b1, o');
        ParksAreBounded(w, hidden, steps, m, r, jobs[1..], b2, asked, again);
      }
    }
  }

  lemma ReasksParts(hidden: set<Id>, m: Mode, r: Run, r1: Run, b: Run, y: Run, o: Outcome, o': Outcome)
    requires o.Parked? && o'.Parked? && m.Segment? && Stands(hidden, o, r1, b) && Reasks(hidden, m, r, b, y, o, o')
    ensures Stands(hidden, o, r1, y) && r.approval == Some(o'.at) && y.approval == r.approval && !Echo(m, r, b)
  {
    AlikeTrans(hidden, r1, b, y);
    hide Alike;
  }

  lemma StandsSelf(hidden: set<Id>, o: Outcome, r: Run)
    requires o.Parked?
    ensures Stands(hidden, o, r, r)
  {
    RowsUnseen(hidden, r, r);
  }

  lemma JobParks(w: World, steps: seq<Step>, m: Mode, r: Run)
    ensures var o := RunJob(w, m, steps, r).1;
            && (o.Parked? ==> In(o.at, Scope([], Top, Heads(steps, 0))))
            && (CrashFree(m) ==> !o.Crashed?)
  {
    StepsPark(w, m, steps, 0, [], Top, NoLoop, r, NO_FLAGS);
  }

  lemma JobSound(w: World, hidden: set<Id>, steps: seq<Step>, m: Mode, r: Run, r1: Run, b: Run)
    requires WfSteps(steps, 0, {}) && SoundSteps(steps, 0, [], Top, r)
    requires var (x, o) := RunJob(w, m, steps, r);
             r1 == x && o.Parked? && Stands(hidden, o, r1, b)
    ensures SoundSteps(steps, 0, [], Top, b)
  {
    hide ExecSteps, WfSteps, SoundSteps, Alike;
    StepsSound(w, m, steps, 0, {}, [], Top, NoLoop, r, NO_FLAGS);
    AlikeSound(hidden, r1, b, steps, 0, [], Top);
  }

  lemma CrashStands(hidden: set<Id>, o: Outcome, a: Run, b: Run, after: Run, crash: Outcome)
    requires o.Parked? && Stands(hidden, o, a, b) && crash.Crashed?
    ensures Stands(hidden, o, a, Persisted(b, after, crash)) && Persisted(b, after, crash).approval == b.approval
  {
    RowsUnseen(hidden, b, Persisted(b, after, crash));
    AlikeTrans(hidden, a, b, Persisted(b, after, crash));
    hide Alike;
  }

  /** Before the first park: crashed jobs leave the run where it was. */
  lemma {:induction false} AnsweredFromStart(w: World, hidden: set<Id>, steps: seq<Step>, jobs: seq<Mode>, r: Run)
    requires WfSteps(steps, 0, {}) && HidesSteps(hidden, steps, 0) && SoundSteps(steps, 0, [], Top, r)
    requires Answered(w, hidden, steps, jobs, {}, r)
    ensures Parks(w, steps, jobs, r) <= 2 * SizeFrom(steps, 0)
    decreases |jobs|
  {
    hide Stands, Alike, ExecSteps, WfSteps, HidesSteps, SoundSteps, Passable, RankFrom, In, RunJob, SizeFrom;
    if |jobs| > 0 {
      var m := jobs[0];
      var (r1, o) := RunJob(w, m, steps, r);
      if o.Parked? {
        StandsSelf(hidden, o, r1);
        ParksAreBounded(w, hidden, steps, m, r, jobs[1..], r1, {} + {o.at}, false);
      } else if o.Crashed? {
        var r2 := Persisted(r, r1, o);
        RowsUnseen(hidden, r, r2);
        AlikeSound(hidden, r, r2, steps, 0, [], Top);
        AnsweredFromStart(w, hidden, steps, jobs[1..], r2);
      }
    }
  }

  lemma {:induction false} UnfinishedParksOrCrashes(w: World, steps: seq<Step>, jobs: seq<Mode>, r: Run)
    requires RunHistory(w, steps, jobs, r).1.None?
    ensures Parks(w, steps, jobs, r) + Crashes(w, steps, jobs, r) == |jobs|
    decreases |jobs|
  {
    hide ExecSteps, RunJob;
    if |jobs| > 0 {
      var (r1, o) := RunJob(w, jobs[0], steps, r);
      UnfinishedParksOrCrashes(w, steps, jobs[1..], Persisted(r, r1, o));
    }
  }

  /**
   * A run whose parks are answered ends: however often it crashes, it parks at most twice for each step instance its
   * manifest allows, so one more job that does not crash finishes it.
   */
  lemma RunEnds(w: World, hidden: set<Id>, steps: seq<Step>, jobs: seq<Mode>)
    requires WfSteps(steps, 0, {}) && HidesSteps(hidden, steps, 0) && Answered(w, hidden, steps, jobs, {}, FRESH_RUN)
    ensures Parks(w, steps, jobs, FRESH_RUN) <= 2 * SizeFrom(steps, 0)
    ensures |jobs| - Crashes(w, steps, jobs, FRESH_RUN) > 2 * SizeFrom(steps, 0) ==> RunHistory(w, steps, jobs, FRESH_RUN).1.Some?
  {
    hide ExecSteps, WfSteps, HidesSteps, SoundSteps, Answered, RunHistory, SizeFrom, Parks, Crashes;
    FreshIsSound(steps);
    AnsweredFromStart(w, hidden, steps, jobs, FRESH_RUN);
    if RunHistory(w, steps, jobs, FRESH_RUN).1.None? {
      UnfinishedParksOrCrashes(w, steps, jobs, FRESH_RUN);
    }
  }
}
