/** Manifests of which every park can be resumed unseen, whatever the jobs do. */
module Resumability {
  import opened Prelude
  import opened Values
  import opened Workflow
  import opened Executor
  import opened WellFormed
  import opened Parking
  import opened Replay
  import opened Resume
  import opened Progress

  /** The loops around the park, from hop `n` on, are hidden, and the failed steps before it can be run again. */
  ghost predicate Fits(hidden: set<Id>, n: nat, o: Outcome)
    requires o.Parked?
  {
    && (forall j {:trigger o.at[j]} :: 1 <= j && n <= j < |o.at| && o.at[j].via.Item? ==> o.at[j - 1].id in hidden)
    && (forall s :: s in o.again ==> Rerunnable(hidden, s))
  }

  ghost predicate AllRerunnable(hidden: set<Id>, again: seq<Step>) {
    forall s :: s in again ==> Rerunnable(hidden, s)
  }

  lemma FitsOuter(hidden: set<Id>, n: nat, before: seq<Step>, inner: Outcome)
    requires inner.Parked? && Fits(hidden, n, inner) && AllRerunnable(hidden, before)
    ensures Fits(hidden, n, Parked(inner.at, inner.paused, before + inner.again))
  {
  }

  lemma OneMore(hidden: set<Id>, before: seq<Step>, s: Step)
    requires AllRerunnable(hidden, before) && Rerunnable(hidden, s)
    ensures AllRerunnable(hidden, before + [s])
  {
  }

  lemma {:induction false} StepsFit(w: World, m: Mode, hidden: set<Id>, steps: seq<Step>, k: nat, parent: Path, via: Via, loop: Loop,
                                    r: Run, acc: Flags)
    requires k <= |steps| && RerunnableSteps(hidden, steps, k) && AllRerunnable(hidden, acc.again)
    ensures var o := ExecSteps(w, m, steps, k, parent, via, loop, r, acc).1; o.Parked? ==> Fits(hidden, |parent| + 1, o)
    decreases steps, 0, |steps| - k
  {
    hide ExecStep, Gate, Fits, Rerunnable, AllRerunnable;
    if k < |steps| {
      var s := steps[k];
      var p := Child(parent, via, s.id);
      var g := Gate(s, r, loop);
      if g.Ok? {
        if !g.value {
          StepsFit(w, m, hidden, steps, k + 1, parent, via, loop, SkipStep(r, s.id, p), acc);
        } else if p in r.done {
          StepsFit(w, m, hidden, steps, k + 1, parent, via, loop, r, acc);
        } else {
          var (r1, o) := ExecStep(w, m, s, p, loop, r);
          if o.Completed? {
            StepsFit(w, m, hidden, steps, k + 1, parent, via, loop, MarkDone(r1, p), acc.(anySuccess := true));
          } else if o.Aborted? && s.continueOnError {
            OneMore(hidden, acc.again, s);
            StepsFit(w, m, hidden, steps, k + 1, parent, via, loop, Swallow(r1, via), SwallowFlags(acc, o.code, s));
          } else if o.Parked? {
            StepFit(w, m, hidden, s, p, loop, r);
            FitsOuter(hidden, |p|, acc.again, o);
          }
        }
      }
    }
  }

  lemma {:induction false} StepFit(w: World, m: Mode, hidden: set<Id>, s: Step, p: Path, loop: Loop, r: Run)
    requires Rerunnable(hidden, s) && InstanceOf(p, s.id)
    ensures var o := ExecStep(w, m, s, p, loop, r).1; o.Parked? ==> Fits(hidden, |p|, o)
    decreases s, 1, 0
  {
    hide ExecCondition, ExecForEach, ViewOf, ExecLeaf, ExecEmail, ExecDelay, ExecApproval, RecordOutcome, RerunnableSteps;
    var r0 := r.(rows := r.rows[p := RowRunning]);
    if s.kind.Condition? {
      ConditionFit(w, m, hidden, s, p, loop, r0);
    } else if s.kind.ForEach? {
      ForEachFit(w, m, hidden, s, p, loop, r0);
    }
  }

  /** The hop right behind `p` does not belong to a loop, or its loop is hidden. */
  lemma FitsDown(hidden: set<Id>, p: Path, via: Via, heads: set<Id>, o: Outcome)
    requires o.Parked? && Fits(hidden, |p| + 1, o) && In(o.at, Scope(p, via, heads)) && |p| > 0
    requires via.Item? ==> p[|p| - 1].id in hidden
    ensures Fits(hidden, |p|, o)
  {
    assert o.at[|p| - 1] == p[|p| - 1];
  }

  lemma {:induction false} ConditionFit(w: World, m: Mode, hidden: set<Id>, s: Step, p: Path, loop: Loop, r: Run)
    requires s.kind.Condition? && Rerunnable(hidden, s) && |p| > 0
    ensures var o := ExecCondition(w, m, s.id, s.kind, p, loop, r).1; o.Parked? ==> Fits(hidden, |p|, o)
    decreases s.kind, 0, 0
  {
    hide ExecSteps, ViewOf, BranchOutput, Fits, RerunnableSteps, In, AllRerunnable;
    var c := s.kind;
    var e := c.when.eval(ViewOf(r, c.when.uses), loop);
    if e.Ok? {
      var t := IsTruthy(e.value);
      var branch, via := if t then c.thn else c.els, if t then Then else Else;
      NothingYet(hidden);
      StepsFit(w, m, hidden, branch, 0, p, via, loop, r, NO_FLAGS);
      StepsPark(w, m, branch, 0, p, via, loop, r, NO_FLAGS);
      var o := ExecSteps(w, m, branch, 0, p, via, loop, r, NO_FLAGS).1;
      if o.Parked? {
        FitsDown(hidden, p, via, Heads(branch, 0), o);
      }
    }
  }

  lemma NothingYet(hidden: set<Id>)
    ensures AllRerunnable(hidden, NO_FLAGS.again)
  {
  }

  lemma {:induction false} ForEachFit(w: World, m: Mode, hidden: set<Id>, s: Step, p: Path, loop: Loop, r: Run)
    requires s.kind.ForEach? && Rerunnable(hidden, s) && InstanceOf(p, s.id)
    ensures var o := ExecForEach(w, m, s.id, s.kind, p, loop, r).1; o.Parked? ==> Fits(hidden, |p|, o)
    decreases s.kind, 0, 0
  {
    hide ExecItems, ViewOf, LoopOutput, Bounded, Fits, RerunnableSteps;
    var c := s.kind;
    var e := c.over.eval(ViewOf(r, c.over.uses), loop);
    if e.Ok? && e.value.Arr? {
      var items := Bounded(e.value.items, c.limit);
      ItemsFit(w, m, hidden, c.children, items, StartIndex(r, p), s.id, |e.value.items| - |items|, p, loop, r, LOOP_START);
    }
  }

  lemma {:induction false} ItemsFit(w: World, m: Mode, hidden: set<Id>, children: seq<Step>, items: seq<Value>, i: nat, id: Id,
                                    dropped: nat, p: Path, loop: Loop, r: Run, acc: LoopAcc)
    requires RerunnableSteps(hidden, children, 0) && InstanceOf(p, id) && id in hidden
    ensures var o := ExecItems(w, m, children, items, i, id, dropped, p, loop, r, acc).2; o.Parked? ==> Fits(hidden, |p|, o)
    decreases children, 1, |items| - i
  {
    hide ExecSteps, LoopOutput, VerdictOf, LoopStep, Fits, RerunnableSteps, In, AllRerunnable;
    if i < |items| {
      var r0 := r.(iter := r.iter[p := i]);
      var inner := InLoop(items[i], i, loop);
      NothingYet(hidden);
      StepsFit(w, m, hidden, children, 0, p, Item(i), inner, r0, NO_FLAGS);
      StepsPark(w, m, children, 0, p, Item(i), inner, r0, NO_FLAGS);
      var (r1, o) := ExecSteps(w, m, children, 0, p, Item(i), inner, r0, NO_FLAGS);
      if o.Parked? {
        FitsDown(hidden, p, Item(i), Heads(children, 0), o);
      } else if o.Completed? {
        ItemsFit(w, m, hidden, children, items, i + 1, id, dropped, p, loop, r1.(iter := r1.iter - {p}),
                 LoopStep(acc, VerdictOf(children, |children|, p, i, r1), children, o.flags));
      }
    }
  }

  /** Every park of a job is resumable when all loops are hidden and no step reads a condition it lies in. */
  lemma JobResumable(w: World, m: Mode, hidden: set<Id>, steps: seq<Step>, r: Run)
    requires RerunnableSteps(hidden, steps, 0)
    ensures var o := RunJob(w, m, steps, r).1; o.Parked? ==> Resumable(hidden, o)
  {
    hide ExecSteps, RerunnableSteps;
    NothingYet(hidden);
    StepsFit(w, m, hidden, steps, 0, [], Top, NoLoop, r, NO_FLAGS);
  }
}
