/**
 * A run has one place for a pending approval. A refused approval under `on_error: continue` is asked for again by
 * every later job, so an approval behind it is never answered; a delay behind it is.
 */
module PendingSlot {
  import opened Prelude
  import opened Workflow
  import opened Executor
  import opened Parking
  import opened Replay
  import opened Durability
  import opened Reentry

  /** A delay, or an approval whose prompt can be shown, without a guard. */
  ghost predicate ParkStep(s: Step) {
    s.gate.None? && (s.kind == Delay(true) || (s.kind.Approval? && forall v, l :: s.kind.prompt.eval(v, l).Ok?))
  }

  ghost predicate ParkList(steps: seq<Step>) {
    && (forall i :: 0 <= i < |steps| ==> ParkStep(steps[i]))
    && (forall i, j :: 0 <= i < j < |steps| ==> steps[i].id != steps[j].id)
  }

  predicate Refused(w: World, s: Step) {
    s.kind.Approval? && Refuses(w.decision(At(s)), s.kind.abortOnTimeout)
  }

  /** The step ends the run. */
  predicate Stops(w: World, s: Step) {
    Refused(w, s) && !s.continueOnError
  }

  /** The run goes on past the refused approval `i`, and the approval `j` comes behind it. */
  predicate BlockedAt(w: World, steps: seq<Step>, i: nat, j: nat) {
    && i < j < |steps| && Refused(w, steps[i]) && steps[i].continueOnError && steps[j].kind.Approval?
    && forall k :: 0 <= k < i ==> !Stops(w, steps[k])
  }

  ghost predicate Blocked(w: World, steps: seq<Step>) {
    exists i: nat, j: nat :: BlockedAt(w, steps, i, j)
  }

  lemma AtApart(s: Step, t: Step)
    ensures At(s) == At(t) <==> s.id == t.id
  {
    assert At(s)[0] == Hop(Top, s.id) && At(t)[0] == Hop(Top, t.id);
  }

  // --- One step -----------------------------------------------------------------------------------

  /** The step's answer is there: it is pending, and the job is ready for it. */
  predicate Due(m: Mode, s: Step, r: Run)
    requires m.Segment?
  {
    (if s.kind.Approval? then r.approval else r.delay) == Some(At(s)) && m.ready(At(s))
  }

  lemma DelayRuns(w: World, m: Mode, id: Id, p: Path, r: Run)
    requires m.Segment?
    ensures var (x, o) := ExecDelay(w, m, true, id, p, r);
            && x.approval == r.approval && x.done == r.done
            && if r.delay == Some(p) && m.ready(p) then o == Completed(false, NO_FLAGS) && x.delay.None?
               else o == Parked(p, false, []) && x.delay == Some(p)
  {
  }

  lemma ApprovalRuns(w: World, m: Mode, prompt: Expr, abort: bool, id: Id, p: Path, r: Run)
    requires (forall v, l :: prompt.eval(v, l).Ok?) && m.Segment?
    ensures var (x, o) := ExecApproval(w, m, prompt, abort, id, p, NoLoop, r);
            && x.delay == r.delay && x.done == r.done
            && if r.approval == Some(p) && m.ready(p) then
                 && Passed(r, x)
                 && (w.decision(p).Rejected? ==> x.approval.None?)
                 && if Refuses(w.decision(p), abort) then o.Aborted? else o.Completed? && x.approval.None?
               else o == Parked(p, true, []) && x.approval == Some(p)
  {
    hide ViewOf;
  }

  /** The work of a park step itself. */
  lemma ParkBodyRuns(w: World, m: Mode, s: Step, r: Run)
    requires ParkStep(s) && m.Segment?
    ensures var (x, o) := ExecBody(w, m, s, At(s), NoLoop, r);
            && x.done == r.done && (s.kind.Delay? ==> x.approval == r.approval) && (s.kind.Approval? ==> x.delay == r.delay)
            && match o
               case Completed(_, _) => Due(m, s, r) && !Refused(w, s)
               case Aborted(_) =>
                 && Due(m, s, r) && Refused(w, s) && Passed(r, x) && (w.decision(At(s)).Rejected? ==> x.approval.None?)
               case Parked(_, _, _) =>
                 && o == Parked(At(s), s.kind.Approval?, []) && !Due(m, s, r)
                 && (if s.kind.Approval? then x.approval else x.delay) == Some(At(s))
               case Crashed => false
  {
    hide ViewOf, ExecDelay, ExecApproval, Decide;
    if s.kind.Delay? {
      DelayRuns(w, m, s.id, At(s), r);
    } else {
      ApprovalRuns(w, m, s.kind.prompt, s.kind.abortOnTimeout, s.id, At(s), r);
    }
  }

  /** What a job makes of one park step. */
  lemma ParkStepRuns(w: World, m: Mode, s: Step, r: Run)
    requires ParkStep(s) && m.Segment?
    ensures s.kind.Delay? || s.kind.Approval?
    ensures var (x, o) := ExecStep(w, m, s, At(s), NoLoop, r);
            && x.done == r.done && (s.kind.Delay? ==> x.approval == r.approval) && (s.kind.Approval? ==> x.delay == r.delay)
            && match o
               case Completed(_, _) => Due(m, s, r) && !Refused(w, s)
               case Aborted(_) =>
                 && Due(m, s, r) && Refused(w, s) && Passed(r, x) && (w.decision(At(s)).Rejected? ==> x.approval.None?)
               case Parked(_, _, _) =>
                 && o == Parked(At(s), s.kind.Approval?, []) && !Due(m, s, r)
                 && (if s.kind.Approval? then x.approval else x.delay) == Some(At(s))
               case Crashed => m.crash.Some?
  {
    hide ExecBody, RecordOutcome, Refused;
    var r0 := r.(rows := r.rows[At(s) := RowRunning]);
    ParkBodyRuns(w, m, s, r0);
    var (x, o) := ExecBody(w, m, s, At(s), NoLoop, r0);
    RecordKeeps(x, s.id, At(s), o);
  }

  function Walked(w: World, m: Mode, steps: seq<Step>, k: nat, r: Run, acc: Flags): (Run, Outcome)
    requires k <= |steps|
  {
    ExecSteps(w, m, steps, k, [], Top, NoLoop, r, acc)
  }

  /** One turn of the list. */
  lemma Turn(w: World, m: Mode, steps: seq<Step>, k: nat, r: Run, acc: Flags)
    requires k < |steps| && ParkStep(steps[k])
    ensures var s := steps[k];
            var (x, o) := ExecStep(w, m, s, At(s), NoLoop, r);
            if At(s) in r.done then Walked(w, m, steps, k, r, acc) == Walked(w, m, steps, k + 1, r, acc)
            else if o.Completed? then
              Walked(w, m, steps, k, r, acc) == Walked(w, m, steps, k + 1, MarkDone(x, At(s)), acc.(anySuccess := true))
            else if o.Aborted? && s.continueOnError then
              Walked(w, m, steps, k, r, acc) == Walked(w, m, steps, k + 1, Swallow(x, Top), SwallowFlags(acc, o.code, s))
            else Walked(w, m, steps, k, r, acc).0 == x && (Finished(Walked(w, m, steps, k, r, acc).1) <==> Finished(o)) &&
                 (o.Parked? ==> Walked(w, m, steps, k, r, acc).1 == Parked(o.at, o.paused, acc.again + o.again)) &&
                 (Walked(w, m, steps, k, r, acc).1.Parked? ==> o.Parked?)
  {
    hide ExecStep;
  }

  // --- Behind a refused approval no other one is answered -------------------------------------------

  ghost predicate BothOpen(steps: seq<Step>, i: nat, j: nat, r: Run)
    requires i < j < |steps|
  {
    At(steps[i]) !in r.done && At(steps[j]) !in r.done
  }

  lemma {:induction false} BehindRefusal(w: World, m: Mode, steps: seq<Step>, i: nat, j: nat, k: nat, r: Run, acc: Flags)
    requires ParkList(steps) && i < k <= j < |steps| && steps[j].kind.Approval? && m.Segment?
    requires BothOpen(steps, i, j, r) && (r.approval.None? || r.approval == Some(At(steps[i])))
    ensures var (r', o) := Walked(w, m, steps, k, r, acc);
            !Finished(o) && BothOpen(steps, i, j, r')
    decreases j - k
  {
    hide ExecSteps, ExecStep, Walked, ParkStep;
    var s := steps[k];
    Turn(w, m, steps, k, r, acc);
    AtApart(s, steps[i]);
    AtApart(s, steps[j]);
    if At(s) in r.done {
      BehindRefusal(w, m, steps, i, j, k + 1, r, acc);
    } else {
      ParkStepRuns(w, m, s, r);
      var (x, o) := ExecStep(w, m, s, At(s), NoLoop, r);
      if o.Completed? {
        BehindRefusal(w, m, steps, i, j, k + 1, MarkDone(x, At(s)), acc.(anySuccess := true));
      }
    }
  }

  lemma {:induction false} UpToRefusal(w: World, m: Mode, steps: seq<Step>, i: nat, j: nat, k: nat, r: Run, acc: Flags)
    requires ParkList(steps) && BlockedAt(w, steps, i, j) && k <= i && m.Segment? && BothOpen(steps, i, j, r)
    ensures var (r', o) := Walked(w, m, steps, k, r, acc);
            !Finished(o) && BothOpen(steps, i, j, r')
    decreases i - k
  {
    hide ExecSteps, ExecStep, Walked, ParkStep;
    var s := steps[k];
    Turn(w, m, steps, k, r, acc);
    AtApart(s, steps[i]);
    AtApart(s, steps[j]);
    if At(s) in r.done {
      UpToRefusal(w, m, steps, i, j, k + 1, r, acc);
    } else {
      ParkStepRuns(w, m, s, r);
      var (x, o) := ExecStep(w, m, s, At(s), NoLoop, r);
      if o.Completed? {
        UpToRefusal(w, m, steps, i, j, k + 1, MarkDone(x, At(s)), acc.(anySuccess := true));
      } else if o.Aborted? {
        if k < i {
          UpToRefusal(w, m, steps, i, j, k + 1, Swallow(x, Top), SwallowFlags(acc, o.code, s));
        } else {
          BehindRefusal(w, m, steps, i, j, k + 1, Swallow(x, Top), SwallowFlags(acc, o.code, s));
        }
      }
    }
  }

  /** With an approval behind a refused one no list of jobs finishes the run, whatever crashes and whatever is answered. */
  lemma {:induction false} RefusalBlocks(w: World, steps: seq<Step>, i: nat, j: nat, jobs: seq<Mode>, r: Run)
    requires ParkList(steps) && BlockedAt(w, steps, i, j) && AllSegments(jobs) && BothOpen(steps, i, j, r)
    ensures RunHistory(w, steps, jobs, r).1.None?
    decreases |jobs|
  {
    hide ExecSteps, ParkList, BlockedAt;
    if |jobs| > 0 {
      UpToRefusal(w, jobs[0], steps, i, j, 0, r, NO_FLAGS);
      var (r1, o) := RunJob(w, jobs[0], steps, r);
      RefusalBlocks(w, steps, i, j, jobs[1..], Persisted(r, r1, o));
    }
  }

  // --- Otherwise the run ends -------------------------------------------------------------------------

  function Undone(steps: seq<Step>, k: nat, done: set<Path>): nat
    requires k <= |steps|
    decreases |steps| - k
  {
    if k == |steps| then 0 else Undone(steps, k + 1, done) + if At(steps[k]) in done then 0 else 1
  }

  /** The next approval, or the next delay, that is not done. */
  function Next(steps: seq<Step>, k: nat, done: set<Path>, approval: bool): Option<Path>
    requires k <= |steps|
    decreases |steps| - k
  {
    if k == |steps| then None
    else if At(steps[k]) !in done && steps[k].kind.Approval? == approval then Some(At(steps[k]))
    else Next(steps, k + 1, done, approval)
  }

  function Gap(slot: Option<Path>, next: Option<Path>): nat {
    if next.Some? && slot == next then 0 else 1
  }

  /** Steps not done, and whether the next delay is pending. */
  function Rest(steps: seq<Step>, k: nat, r: Run): nat
    requires k <= |steps|
  {
    2 * Undone(steps, k, r.done) + Gap(r.delay, Next(steps, k, r.done, false))
  }

  function Work(steps: seq<Step>, k: nat, r: Run): nat
    requires k <= |steps|
  {
    2 * Rest(steps, k, r) + Gap(r.approval, Next(steps, k, r.done, true))
  }

  ghost predicate SameFrom(steps: seq<Step>, k: nat, a: set<Path>, b: set<Path>) {
    forall l :: k <= l < |steps| ==> (At(steps[l]) in a <==> At(steps[l]) in b)
  }

  lemma {:induction false} SameRest(steps: seq<Step>, k: nat, a: set<Path>, b: set<Path>)
    requires k <= |steps| && SameFrom(steps, k, a, b)
    ensures Undone(steps, k, a) == Undone(steps, k, b)
    ensures Next(steps, k, a, true) == Next(steps, k, b, true) && Next(steps, k, a, false) == Next(steps, k, b, false)
    decreases |steps| - k
  {
    if k < |steps| {
      SameRest(steps, k + 1, a, b);
    }
  }

  lemma MarkedRest(steps: seq<Step>, k: nat, done: set<Path>)
    requires ParkList(steps) && k < |steps|
    ensures SameFrom(steps, k + 1, done, done + {At(steps[k])})
  {
    forall l | k + 1 <= l < |steps| ensures At(steps[l]) != At(steps[k]) {
      AtApart(steps[l], steps[k]);
    }
  }

  /** Every refused approval is still open, and none before a stopping one lets an approval come behind it. */
  ghost predicate RefusedOpen(w: World, steps: seq<Step>, r: Run) {
    forall l :: 0 <= l < |steps| && Refused(w, steps[l]) ==> At(steps[l]) !in r.done
  }

  ghost predicate Unblocked(w: World, steps: seq<Step>, k: nat) {
    forall i, j {:trigger steps[i], steps[j]} ::
      (k <= i < j < |steps| && Refused(w, steps[i]) && steps[i].continueOnError && steps[j].kind.Approval?) ==>
        exists l :: k <= l < i && Stops(w, steps[l])
  }

  lemma {:induction false} NoApprovalNext(steps: seq<Step>, k: nat, done: set<Path>)
    requires k <= |steps| && forall j :: k <= j < |steps| ==> !steps[j].kind.Approval?
    ensures Next(steps, k, done, true).None?
    decreases |steps| - k
  {
    if k < |steps| {
      NoApprovalNext(steps, k + 1, done);
    }
  }

  /** A job that is ready for everything finishes the run or leaves less to do. */
  lemma {:induction false} ReadyWalk(w: World, steps: seq<Step>, k: nat, r: Run, acc: Flags)
    requires ParkList(steps) && k <= |steps| && Unblocked(w, steps, k) && RefusedOpen(w, steps, r)
    ensures var (r', o) := Walked(w, READY, steps, k, r, acc);
            && !o.Crashed? && RefusedOpen(w, steps, r')
            && (forall l :: 0 <= l < k ==> (At(steps[l]) in r'.done <==> At(steps[l]) in r.done))
            && r.done <= r'.done
            && (o.Parked? ==> Work(steps, k, r') < Work(steps, k, r))
    decreases |steps| - k
  {
    hide ExecStep, ParkStep, Refused, Gap;
    if k < |steps| {
      hide ExecSteps, Walked;
      var s := steps[k];
      Turn(w, READY, steps, k, r, acc);
      if At(s) in r.done {
        NextUnblocked(w, steps, k);
        ReadyWalk(w, steps, k + 1, r, acc);
      } else {
        ReadyStep(w, steps, k, r, acc);
      }
    }
  }

  lemma NextUnblocked(w: World, steps: seq<Step>, k: nat)
    requires k < |steps| && Unblocked(w, steps, k) && !Stops(w, steps[k])
    ensures Unblocked(w, steps, k + 1)
  {
    forall i, j | k + 1 <= i < j < |steps| && Refused(w, steps[i]) && steps[i].continueOnError && steps[j].kind.Approval?
      ensures exists l :: k + 1 <= l < i && Stops(w, steps[l])
    {
      var l :| k <= l < i && Stops(w, steps[l]);
      assert l != k;
    }
  }

  lemma {:induction false} ReadyStep(w: World, steps: seq<Step>, k: nat, r: Run, acc: Flags)
    requires ParkList(steps) && k < |steps| && Unblocked(w, steps, k) && RefusedOpen(w, steps, r) && At(steps[k]) !in r.done
    ensures var (r', o) := Walked(w, READY, steps, k, r, acc);
            && !o.Crashed? && RefusedOpen(w, steps, r')
            && (forall l :: 0 <= l < k ==> (At(steps[l]) in r'.done <==> At(steps[l]) in r.done))
            && r.done <= r'.done
            && (o.Parked? ==> Work(steps, k, r') < Work(steps, k, r))
    decreases |steps| - k, 0
  {
    hide ExecStep, ParkStep, ExecSteps, Walked, Work, Unblocked;
    var s := steps[k];
    Turn(w, READY, steps, k, r, acc);
    ParkStepRuns(w, READY, s, r);
    var (x, o) := ExecStep(w, READY, s, At(s), NoLoop, r);
    if o.Completed? {
      var r2 := MarkDone(x, At(s));
      NextUnblocked(w, steps, k);
      MarkedOpen(w, steps, k, r, r2);
      ReadyWalk(w, steps, k + 1, r2, acc.(anySuccess := true));
      var r' := Walked(w, READY, steps, k + 1, r2, acc.(anySuccess := true)).0;
      CompletedWork(steps, k, r, r2, r');
    } else if o.Parked? {
      ParkedWork(steps, k, r, x);
    } else if s.continueOnError {
      var r2 := Swallow(x, Top);
      NextUnblocked(w, steps, k);
      ReadyWalk(w, steps, k + 1, r2, SwallowFlags(acc, o.code, s));
      var r' := Walked(w, READY, steps, k + 1, r2, SwallowFlags(acc, o.code, s)).0;
      NothingBehind(w, steps, k);
      RefusedWork(steps, k, r, r2, r');
    }
  }

  lemma MarkedOpen(w: World, steps: seq<Step>, k: nat, r: Run, r2: Run)
    requires ParkList(steps) && k < |steps| && RefusedOpen(w, steps, r) && !Refused(w, steps[k]) && r2.done == r.done + {At(steps[k])}
    ensures RefusedOpen(w, steps, r2)
    ensures forall l :: 0 <= l < k ==> (At(steps[l]) in r2.done <==> At(steps[l]) in r.done)
  {
    forall l | 0 <= l < |steps| && l != k ensures At(steps[l]) != At(steps[k]) {
      AtApart(steps[l], steps[k]);
    }
  }

  lemma NothingBehind(w: World, steps: seq<Step>, k: nat)
    requires k < |steps| && Unblocked(w, steps, k) && Refused(w, steps[k]) && steps[k].continueOnError
    ensures forall j :: k < j < |steps| ==> !steps[j].kind.Approval?
  {
  }

  /** Step `k` got done: whatever the rest of the job leaves, it is less. */
  lemma CompletedWork(steps: seq<Step>, k: nat, r: Run, r2: Run, r': Run)
    requires ParkList(steps) && k < |steps| && At(steps[k]) !in r.done && r2.done == r.done + {At(steps[k])} && At(steps[k]) in r'.done
    ensures Work(steps, k + 1, r') < Work(steps, k + 1, r2) ==> Work(steps, k, r') < Work(steps, k, r)
  {
    MarkedRest(steps, k, r.done);
    SameRest(steps, k + 1, r.done, r2.done);
  }

  /** The job parked at step `k`, which was not pending before. */
  lemma ParkedWork(steps: seq<Step>, k: nat, r: Run, x: Run)
    requires k < |steps| && At(steps[k]) !in r.done && x.done == r.done && !Due(READY, steps[k], r)
    requires if steps[k].kind.Approval? then x.approval == Some(At(steps[k])) && x.delay == r.delay
             else x.delay == Some(At(steps[k])) && x.approval == r.approval
    ensures Work(steps, k, x) < Work(steps, k, r)
  {
    assert Next(steps, k, r.done, steps[k].kind.Approval?) == Some(At(steps[k]));
  }

  /** Step `k` was refused once more, and only delays are behind it. */
  lemma RefusedWork(steps: seq<Step>, k: nat, r: Run, r2: Run, r': Run)
    requires k < |steps| && At(steps[k]) !in r.done && At(steps[k]) !in r'.done && r2.done == r.done && r2.delay == r.delay
    requires steps[k].kind.Approval? && Due(READY, steps[k], r)
    requires forall j :: k < j < |steps| ==> !steps[j].kind.Approval?
    ensures Work(steps, k + 1, r') < Work(steps, k + 1, r2) ==> Work(steps, k, r') < Work(steps, k, r)
  {
    NoApprovalNext(steps, k + 1, r'.done);
    NoApprovalNext(steps, k + 1, r2.done);
    assert Rest(steps, k, r') == 2 + Rest(steps, k + 1, r') && Rest(steps, k, r) == 2 + Rest(steps, k + 1, r2);
  }

  function ReadyJobs(n: nat): seq<Mode> {
    if n == 0 then [] else [READY] + ReadyJobs(n - 1)
  }

  lemma {:induction false} ReadyJobsEnd(w: World, steps: seq<Step>, n: nat, r: Run)
    requires ParkList(steps) && Unblocked(w, steps, 0) && RefusedOpen(w, steps, r) && n > Work(steps, 0, r)
    ensures RunHistory(w, steps, ReadyJobs(n), r).1.Some?
    decreases n
  {
    hide ExecSteps, ParkList, Unblocked, RefusedOpen, Work;
    ReadyWalk(w, steps, 0, r, NO_FLAGS);
    var (r1, o) := RunJob(w, READY, steps, r);
    assert ReadyJobs(n)[0] == READY && ReadyJobs(n)[1..] == ReadyJobs(n - 1);
    if o.Parked? {
      ReadyJobsEnd(w, steps, n - 1, r1);
    }
  }

  lemma {:induction false} ReadyJobsAreSegments(n: nat)
    ensures AllSegments(ReadyJobs(n))
  {
    if n > 0 {
      ReadyJobsAreSegments(n - 1);
    }
  }

  lemma UnblockedIff(w: World, steps: seq<Step>)
    ensures Unblocked(w, steps, 0) <==> !Blocked(w, steps)
  {
    if !Blocked(w, steps) {
      forall i, j | 0 <= i < j < |steps| && Refused(w, steps[i]) && steps[i].continueOnError && steps[j].kind.Approval?
        ensures exists l :: 0 <= l < i && Stops(w, steps[l])
      {
        assert !BlockedAt(w, steps, i, j);
      }
    } else {
      var i: nat, j: nat :| BlockedAt(w, steps, i, j);
      assert steps[i].continueOnError && steps[j].kind.Approval?;
    }
  }

  /** Some list of jobs finishes the run. */
  ghost predicate CanFinish(w: World, steps: seq<Step>) {
    exists jobs: seq<Mode> :: AllSegments(jobs) && RunHistory(w, steps, jobs, FRESH_RUN).1.Some?
  }

  /**
   * A list of delays and approvals can be finished exactly when no approval is asked for behind a refused one that
   * the run goes on from.
   */
  lemma FinishesIffUnblocked(w: World, steps: seq<Step>)
    requires ParkList(steps)
    ensures CanFinish(w, steps) <==> !Blocked(w, steps)
  {
    hide RunHistory, ParkList, Work, BlockedAt;
    UnblockedIff(w, steps);
    if Blocked(w, steps) {
      var i: nat, j: nat :| BlockedAt(w, steps, i, j);
      assert i < j < |steps| by {
        BlockedPlaces(w, steps, i, j);
      }
      forall jobs: seq<Mode> | AllSegments(jobs) ensures RunHistory(w, steps, jobs, FRESH_RUN).1.None? {
        RefusalBlocks(w, steps, i, j, jobs, FRESH_RUN);
      }
    } else {
      var n := Work(steps, 0, FRESH_RUN) + 1;
      ReadyJobsEnd(w, steps, n, FRESH_RUN);
      ReadyJobsAreSegments(n);
    }
  }

  lemma BlockedPlaces(w: World, steps: seq<Step>, i: nat, j: nat)
    requires BlockedAt(w, steps, i, j)
    ensures i < j < |steps|
  {
  }

  /** Behind one refused approval under `on_error: continue` a delay can be finished, and no approval can. */
  lemma BehindRefusedOnlyDelay(w: World, a: Step, x: Step)
    requires ParkList([a, x]) && Refused(w, a) && a.continueOnError
    ensures CanFinish(w, [a, x]) <==> x.kind.Delay?
  {
    var steps := [a, x];
    FinishesIffUnblocked(w, steps);
    assert ParkStep(steps[1]);
    if x.kind.Approval? {
      assert BlockedAt(w, steps, 0, 1);
    }
    assert forall i: nat, j: nat :: BlockedAt(w, steps, i, j) ==> steps[j] == x;
  }

  /** The job that should pass a delay behind a rejected approval parks on the decided approval again. */
  lemma RejectedApprovalParksAgain(w: World, a: Step, d: Step)
    requires ParkList([a, d]) && a.kind.Approval? && w.decision(At(a)).Rejected? && a.continueOnError && d.kind.Delay?
    ensures var (r1, o1) := RunJob(w, READY, [a, d], FRESH_RUN);
            var (r2, o2) := RunJob(w, READY, [a, d], r1);
            var (r3, o3) := RunJob(w, READY, [a, d], r2);
            o1 == Parked(At(a), true, []) && o2.Parked? && o2.at == At(d) && o3 == Parked(At(a), true, [])
  {
    hide ExecStep, ExecSteps, ParkStep, Walked;
    var steps := [a, d];
    assert a.id != d.id && ParkStep(a) && ParkStep(d) by {
      assert steps[0].id != steps[1].id && ParkStep(steps[0]) && ParkStep(steps[1]);
    }
    AtApart(a, d);
    var r0, acc := FRESH_RUN, NO_FLAGS;
    Turn(w, READY, steps, 0, r0, acc);
    ParkStepRuns(w, READY, a, r0);
    var (r1, o1) := Walked(w, READY, steps, 0, r0, acc);
    Turn(w, READY, steps, 0, r1, acc);
    ParkStepRuns(w, READY, a, r1);
    var (x, failed) := ExecStep(w, READY, a, At(a), NoLoop, r1);
    Turn(w, READY, steps, 1, Swallow(x, Top), SwallowFlags(acc, failed.code, a));
    ParkStepRuns(w, READY, d, Swallow(x, Top));
    var (r2, o2) := Walked(w, READY, steps, 0, r1, acc);
    Turn(w, READY, steps, 0, r2, acc);
    ParkStepRuns(w, READY, a, r2);
    WalkedIsJob(w, steps);
  }

  lemma WalkedIsJob(w: World, steps: seq<Step>)
    ensures forall r {:trigger RunJob(w, READY, steps, r)} :: RunJob(w, READY, steps, r) == Walked(w, READY, steps, 0, r, NO_FLAGS)
  {
  }
}
