/** The uninterrupted walk from a parked state ends like the uninterrupted walk from where the job began. */
module Resume {
  import opened Prelude
  import opened Values
  import opened Workflow
  import opened Executor
  import opened WellFormed
  import opened Soundness
  import opened Parking
  import opened Replay

  /**
   * What a park needs to be resumed unseen: the loops around the park point `o.at` are hidden, because their
   * `results` start afresh, and the failed steps that the next job meets before it can be run again.
   */
  ghost predicate Resumable(hidden: set<Id>, o: Outcome)
    requires o.Parked?
  {
    && (forall j {:trigger o.at[j]} :: 1 <= j < |o.at| && o.at[j].via.Item? ==> o.at[j - 1].id in hidden)
    && (forall s :: s in o.again ==> Rerunnable(hidden, s))
  }

  /** The steps that failed in a list are reported by a later park in the same list. */
  lemma {:induction false} AgainShows(w: World, m: Mode, steps: seq<Step>, k: nat, parent: Path, via: Via, loop: Loop, r: Run,
                                      acc: Flags)
    requires k <= |steps|
    ensures var (_, o) := ExecSteps(w, m, steps, k, parent, via, loop, r, acc);
            o.Parked? ==> acc.again <= o.again
    decreases |steps| - k
  {
    hide ExecStep;
    if k < |steps| {
      var s := steps[k];
      var p := Child(parent, via, s.id);
      var g := Gate(s, r, loop);
      if g.Ok? {
        if !g.value {
          AgainShows(w, m, steps, k + 1, parent, via, loop, SkipStep(r, s.id, p), acc);
        } else if p in r.done {
          AgainShows(w, m, steps, k + 1, parent, via, loop, r, acc);
        } else {
          var (r1, o) := ExecStep(w, m, s, p, loop, r);
          if o.Completed? {
            AgainShows(w, m, steps, k + 1, parent, via, loop, MarkDone(r1, p), acc.(anySuccess := true));
          } else if o.Aborted? && s.continueOnError {
            AgainShows(w, m, steps, k + 1, parent, via, loop, Swallow(r1, via), SwallowFlags(acc, o.code, s));
          }
        }
      }
    }
  }

  lemma ResumableInner(hidden: set<Id>, before: seq<Step>, inner: Outcome)
    requires inner.Parked? && Resumable(hidden, Parked(inner.at, inner.paused, before + inner.again))
    ensures Resumable(hidden, inner)
  {
    forall s | s in inner.again ensures Rerunnable(hidden, s) {
      assert s in before + inner.again;
    }
  }

  lemma SkipIsDone(r: Run, id: Id, p: Path)
    ensures p in SkipStep(r, id, p).done
  {
  }

  lemma FramedGate(s: Step, earlier: set<Id>, loop: Loop, r: Run, r': Run, ids: set<Id>, g: Region)
    requires WfStep(s, earlier) && ids !! earlier && Framed(r, r', ids, g)
    ensures Gate(s, r, loop) == Gate(s, r', loop)
  {
    if s.gate.Some? {
      FramedView(r, r', ids, g, s.gate.value.uses);
    }
  }

  lemma {:induction false} StepsResume(w: World, m: Mode, hidden: set<Id>, steps: seq<Step>, k: nat, earlier: set<Id>, parent: Path,
                                       via: Via, loop: Loop, r: Run, acc: Flags, acc': Flags)
    requires m.Segment? && k <= |steps| && WfSteps(steps, k, earlier) && HidesSteps(hidden, steps, k)
    requires SoundSteps(steps, k, parent, via, r)
    requires var o := ExecSteps(w, m, steps, k, parent, via, loop, r, acc).1;
             o.Parked? && Resumable(hidden, o)
    ensures var (r1, o) := ExecSteps(w, m, steps, k, parent, via, loop, r, acc);
            var (a, oa) := ExecSteps(w, Uninterrupted, steps, k, parent, via, loop, r, acc);
            var (b, ob) := ExecSteps(w, Uninterrupted, steps, k, parent, via, loop, r1, acc');
            Alike(hidden, a, b) && SameVerdict(oa, ob) && In(o.at, Scope(parent, via, Heads(steps, k)))
    decreases steps, 0, |steps| - k, 2
  {
    hide Alike, Framed, ExecStep, ViewOf, SoundStep, WfStep, HidesStep, Gate, Resumable, Within, Agree, StepIds;
    if k < |steps| {
      var s := steps[k];
      var p := Child(parent, via, s.id);
      var r1 := ExecSteps(w, m, steps, k, parent, via, loop, r, acc).0;
      StepsFramed(w, m, steps, k, parent, via, loop, r, acc);
      WfStepsAreNew(steps, k, earlier);
      FramedGate(s, earlier, loop, r, r1, IdsFrom(steps, k), Scope(parent, via, Heads(steps, k)));
      var g := Gate(s, r, loop);
      if !g.value {
        var r2 := SkipStep(r, s.id, p);
        SkipSound(s, earlier, p, r);
        SkipFramed(s, p, r);
        SkipIsDone(r, s.id, p);
        TailResume(w, m, hidden, steps, k, earlier, parent, via, loop, r, r2, acc, acc');
      } else if p in r.done {
        FramedDone(r, r1, IdsFrom(steps, k), Scope(parent, via, Heads(steps, k)));
        FramedSelf(r, StepIds(s), Below(p));
        TailResume(w, m, hidden, steps, k, earlier, parent, via, loop, r, r, acc, acc');
      } else {
        var (r2, o) := ExecStep(w, m, s, p, loop, r);
        StepFramed(w, m, s, p, loop, r);
        StepSound(w, m, s, earlier, p, loop, r);
        if o.Completed? {
          StepFinish(w, m, s, p, loop, r);
          LocalAfter(r, r2, MarkDone(r2, p), StepIds(s), s.id, p);
          TailResume(w, m, hidden, steps, k, earlier, parent, via, loop, r, MarkDone(r2, p), acc.(anySuccess := true), acc');
        } else if o.Aborted? {
          FailedResume(w, m, hidden, steps, k, earlier, parent, via, loop, r, acc, acc');
        } else {
          ResumableInner(hidden, acc.again, o);
          StepResume(w, m, hidden, s, earlier, p, loop, r);
          ScopeShrinks(steps, k, parent, via);
          AtHead(steps, k, parent, via, o.at);
          AfterStep(w, hidden, steps, k, earlier, parent, via, loop, r, r1, acc, acc');
        }
      }
    }
  }

  lemma AtHead(steps: seq<Step>, k: nat, parent: Path, via: Via, q: Path)
    requires k < |steps| && In(q, Below(Child(parent, via, steps[k].id)))
    ensures In(q, Scope(parent, via, Heads(steps, k)))
  {
    BelowScope(parent, via, steps[k].id, Heads(steps, k));
  }

  lemma AtTail(steps: seq<Step>, k: nat, parent: Path, via: Via, q: Path)
    requires k < |steps| && In(q, Scope(parent, via, Heads(steps, k + 1)))
    ensures In(q, Scope(parent, via, Heads(steps, k)))
  {
    ScopeShrinks(steps, k, parent, via);
  }

  /** The park is in a step after `k`, and step `k` is already marked done. */
  lemma {:induction false} TailResume(w: World, m: Mode, hidden: set<Id>, steps: seq<Step>, k: nat, earlier: set<Id>, parent: Path,
                                      via: Via, loop: Loop, r: Run, r2: Run, acc: Flags, acc': Flags)
    requires m.Segment? && k < |steps| && WfSteps(steps, k, earlier) && HidesSteps(hidden, steps, k)
    requires SoundSteps(steps, k, parent, via, r)
    requires var p := Child(parent, via, steps[k].id);
             SoundStep(steps[k], p, r2) && Framed(r, r2, StepIds(steps[k]), Below(p)) && p in r2.done
    requires var o := ExecSteps(w, m, steps, k + 1, parent, via, loop, r2, acc).1;
             o.Parked? && Resumable(hidden, o)
    ensures var (r1, o) := ExecSteps(w, m, steps, k + 1, parent, via, loop, r2, acc);
            var (a, oa) := ExecSteps(w, Uninterrupted, steps, k + 1, parent, via, loop, r2, acc);
            var (b, ob) := ExecSteps(w, Uninterrupted, steps, k + 1, parent, via, loop, r1, acc');
            && Alike(hidden, a, b) && SameVerdict(oa, ob) && In(o.at, Scope(parent, via, Heads(steps, k)))
            && Child(parent, via, steps[k].id) in r1.done
    decreases steps, 0, |steps| - k, 0
  {
    hide Alike, Framed, ExecStep, ExecSteps, SoundStep, WfStep, HidesStep, Resumable;
    SiblingsAgree(steps, k, parent, via, earlier, r, r2);
    SoundStepsAgree(steps, k + 1, parent, via, r, r2);
    StepsResume(w, m, hidden, steps, k + 1, earlier + StepIds(steps[k]), parent, via, loop, r2, acc, acc');
    var (r1, o) := ExecSteps(w, m, steps, k + 1, parent, via, loop, r2, acc);
    StepsFramed(w, m, steps, k + 1, parent, via, loop, r2, acc);
    FramedDone(r2, r1, IdsFrom(steps, k + 1), Scope(parent, via, Heads(steps, k + 1)));
    AtTail(steps, k, parent, via, o.at);
  }

  lemma SwallowFramed(r: Run, via: Via, r': Run, ids: set<Id>, g: Region)
    requires Framed(Swallow(r, via), r', ids, g)
    ensures Framed(r, r', ids, g) && (via.Top? ==> r'.runFailed)
  {
    var x := Swallow(r, via);
    assert forall id :: SameId(x, r', id) ==> SameId(r, r', id);
    assert forall q :: SameCursor(x, r', q) ==> SameCursor(r, r', q);
  }

  lemma SwallowAgain(hidden: set<Id>, r: Run, y: Run, via: Via)
    requires Alike(hidden, r, y) && (via.Top? ==> r.runFailed)
    ensures Alike(hidden, r, Swallow(y, via))
  {
  }

  /** Step `k` failed before the park: run again it changes nothing, and the rest of the list follows. */
  lemma {:induction false} FailedResume(w: World, m: Mode, hidden: set<Id>, steps: seq<Step>, k: nat, earlier: set<Id>,
                                        parent: Path, via: Via, loop: Loop, r: Run, acc: Flags, acc': Flags)
    requires m.Segment? && k < |steps| && WfSteps(steps, k, earlier) && HidesSteps(hidden, steps, k)
    requires SoundSteps(steps, k, parent, via, r)
    requires var p := Child(parent, via, steps[k].id);
             && p !in r.done && ExecStep(w, m, steps[k], p, loop, r).1.Aborted? && steps[k].continueOnError
             && var (r1, o) := ExecSteps(w, m, steps, k, parent, via, loop, r, acc);
             && o.Parked? && Resumable(hidden, o)
             && Gate(steps[k], r, loop) == Gate(steps[k], r1, loop) == Ok(true)
    ensures var (r1, o) := ExecSteps(w, m, steps, k, parent, via, loop, r, acc);
            var (a, oa) := ExecSteps(w, Uninterrupted, steps, k, parent, via, loop, r, acc);
            var (b, ob) := ExecSteps(w, Uninterrupted, steps, k, parent, via, loop, r1, acc');
            Alike(hidden, a, b) && SameVerdict(oa, ob) && In(o.at, Scope(parent, via, Heads(steps, k)))
    decreases steps, 0, |steps| - k, 1
  {
    hide Alike, Framed, ExecStep, ViewOf, SoundStep, WfStep, HidesStep, Gate, Resumable, Within, Agree, StepIds, Intact, Replayed,
         Rerunnable;
    var s := steps[k];
    var p, g := Child(parent, via, s.id), Scope(parent, via, Heads(steps, k + 1));
    var (r2, failed) := ExecStep(w, m, s, p, loop, r);
    var x, acc1 := Swallow(r2, via), SwallowFlags(acc, failed.code, s);
    var (r1, o) := ExecSteps(w, m, steps, k + 1, parent, via, loop, x, acc1);
    StepFramed(w, m, s, p, loop, r);
    StepSound(w, m, s, earlier, p, loop, r);
    StepFinish(w, m, s, p, loop, r);
    LocalAfter(r, r2, x, StepIds(s), s.id, p);
    SoundStepAgree(s, p, r2, x) by {
      AgreeSame(r2, x, StepIds(s), Below(p));
    }
    TailSound(w, m, steps, k, earlier, parent, via, loop, r, x, acc1);
    StepsSound(w, m, steps, k + 1, earlier + StepIds(s), parent, via, loop, x, acc1);
    StepsFramed(w, m, steps, k + 1, parent, via, loop, x, acc1);
    SwallowFramed(r2, via, r1, IdsFrom(steps, k + 1), g);
    IntactSelf(hidden, r1, earlier + StepIds(s), Below(p));
    HeadIntact(hidden, steps, k, earlier, parent, via, r2, r1, r1);
    MarkOf(hidden, r2, r1, earlier + StepIds(s), Below(p), p);
    assert Rerunnable(hidden, s) by {
      AgainShows(w, m, steps, k + 1, parent, via, loop, x, acc1);
      ListedIsRerunnable(hidden, o, acc.again, s);
    }
    StepReplay(w, m, Uninterrupted, hidden, s, earlier, p, loop, r, r1);
    var (x1, again) := ExecStep(w, Uninterrupted, s, p, loop, r1);
    ReplayedEnds(hidden, Uninterrupted, MayRefuse(w, s), r, r2, r1, x1, failed, again);
    var y := Swallow(x1, via);
    SwallowAgain(hidden, r1, x1, via);
    var acc2 := SwallowFlags(acc', failed.code, s);
    StepsResume(w, m, hidden, steps, k + 1, earlier + StepIds(s), parent, via, loop, x, acc1, acc2);
    StepsAlike(w, hidden, steps, k + 1, earlier + StepIds(s), parent, via, loop, r1, y, acc2, acc2);
    AlikeTrans(hidden, ExecSteps(w, Uninterrupted, steps, k + 1, parent, via, loop, x, acc1).0,
               ExecSteps(w, Uninterrupted, steps, k + 1, parent, via, loop, r1, acc2).0,
               ExecSteps(w, Uninterrupted, steps, k + 1, parent, via, loop, y, acc2).0);
    AtTail(steps, k, parent, via, o.at);
  }

  lemma IntactSelf(hidden: set<Id>, r: Run, ids: set<Id>, g: Region)
    ensures Intact(hidden, r, r, ids, g)
  {
  }

  lemma ListedIsRerunnable(hidden: set<Id>, o: Outcome, before: seq<Step>, s: Step)
    requires o.Parked? && Resumable(hidden, o) && before + [s] <= o.again
    ensures Rerunnable(hidden, s)
  {
    assert (before + [s])[|before|] == s;
    assert s in o.again;
  }

  lemma {:induction false} StepResume(w: World, m: Mode, hidden: set<Id>, s: Step, earlier: set<Id>, p: Path, loop: Loop, r: Run)
    requires m.Segment? && WfStep(s, earlier) && HidesStep(hidden, s) && SoundStep(s, p, r) && p !in r.done
    requires |p| > 0 && p[|p| - 1].id == s.id
    requires var o := ExecStep(w, m, s, p, loop, r).1;
             o.Parked? && Resumable(hidden, o)
    ensures var (r1, o) := ExecStep(w, m, s, p, loop, r);
            var (a, oa) := ExecStep(w, Uninterrupted, s, p, loop, r);
            var (b, ob) := ExecStep(w, Uninterrupted, s, p, loop, r1);
            && Alike(hidden, a, b) && SameVerdict(oa, ob) && p <= o.at
    decreases s, 1, 0, 0
  {
    hide Alike, Framed, ExecBody, SoundStep, WfStep, HidesStep, Resumable, Agree;
    var r0 := r.(rows := r.rows[p := RowRunning]);
    SoundStepAgree(s, p, r, r0) by {
      AgreeSame(r, r0, StepIds(s), Below(p));
    }
    BodyResume(w, m, hidden, s, earlier, p, loop, r0);
    BodySound(w, m, s, earlier, p, loop, r0);
    BodyFramed(w, m, s, p, loop, r0);
    var (r1, o) := ExecBody(w, m, s, p, loop, r0);
    var parked := ExecStep(w, m, s, p, loop, r).0;
    var r2 := parked.(rows := parked.rows[p := RowRunning]);
    RowsUnseen(hidden, r1, r2);
    BodyAlike(w, hidden, s, earlier, p, loop, r1, r2);
    var (a, oa) := ExecBody(w, Uninterrupted, s, p, loop, r0);
    var (b, ob) := ExecBody(w, Uninterrupted, s, p, loop, r1);
    var (c, oc) := ExecBody(w, Uninterrupted, s, p, loop, r2);
    AlikeTrans(hidden, a, b, c);
    RecordAlike(hidden, a, c, s.id, p, oa, oc);
  }

  lemma {:induction false} BodyResume(w: World, m: Mode, hidden: set<Id>, s: Step, earlier: set<Id>, p: Path, loop: Loop, r: Run)
    requires m.Segment? && WfStep(s, earlier) && HidesStep(hidden, s) && SoundStep(s, p, r) && p !in r.done
    requires |p| > 0 && p[|p| - 1].id == s.id
    requires var o := ExecBody(w, m, s, p, loop, r).1;
             o.Parked? && Resumable(hidden, o)
    ensures var (r1, o) := ExecBody(w, m, s, p, loop, r);
            var (a, oa) := ExecBody(w, Uninterrupted, s, p, loop, r);
            var (b, ob) := ExecBody(w, Uninterrupted, s, p, loop, r1);
            && Alike(hidden, a, b) && SameVerdict(oa, ob) && p <= o.at
    decreases s, 0, 0, 0
  {
    hide Alike, ExecCondition, ExecForEach, Resumable, ExecDelay, ExecApproval, WfStep, HidesStep, SoundStep;
    match s.kind
    case Condition(_, _, _) => ConditionResume(w, m, hidden, s, earlier, p, loop, r);
    case ForEach(_, _, _) => ForEachResume(w, m, hidden, s, earlier, p, loop, r);
    case Delay(valid) => DelayResume(w, m, hidden, valid, s.id, p, r);
    case Approval(prompt, abort) =>
      PromptVisible(hidden, s);
      ApprovalResume(w, m, hidden, prompt, abort, s.id, p, loop, r);
    case _ =>
  }

  lemma DelayResume(w: World, m: Mode, hidden: set<Id>, valid: bool, id: Id, p: Path, r: Run)
    requires m.Segment? && ExecDelay(w, m, valid, id, p, r).1.Parked?
    ensures var (r1, o) := ExecDelay(w, m, valid, id, p, r);
            var (a, oa) := ExecDelay(w, Uninterrupted, valid, id, p, r);
            var (b, ob) := ExecDelay(w, Uninterrupted, valid, id, p, r1);
            && Alike(hidden, a, b) && SameVerdict(oa, ob) && p <= o.at
  {
    hide Alike;
    var r1 := ExecDelay(w, m, valid, id, p, r).0;
    RowsUnseen(hidden, r, r1);
    DelayAlike(w, hidden, valid, id, p, r, r1);
  }

  lemma PromptVisible(hidden: set<Id>, s: Step)
    requires s.kind.Approval? && HidesStep(hidden, s)
    ensures s.kind.prompt.uses !! hidden
  {
  }

  lemma ApprovalResume(w: World, m: Mode, hidden: set<Id>, prompt: Expr, abort: bool, id: Id, p: Path, loop: Loop, r: Run)
    requires m.Segment? && prompt.uses !! hidden && ExecApproval(w, m, prompt, abort, id, p, loop, r).1.Parked?
    ensures var (r1, o) := ExecApproval(w, m, prompt, abort, id, p, loop, r);
            var (a, oa) := ExecApproval(w, Uninterrupted, prompt, abort, id, p, loop, r);
            var (b, ob) := ExecApproval(w, Uninterrupted, prompt, abort, id, p, loop, r1);
            && Alike(hidden, a, b) && SameVerdict(oa, ob) && p <= o.at
  {
    hide Alike;
    var r1 := ExecApproval(w, m, prompt, abort, id, p, loop, r).0;
    RowsUnseen(hidden, r, r1);
    ApprovalAlike(w, hidden, prompt, abort, id, p, loop, r, r1);
  }


  lemma {:induction false} ConditionResume(w: World, m: Mode, hidden: set<Id>, s: Step, earlier: set<Id>, p: Path, loop: Loop, r: Run)
    requires m.Segment? && s.kind.Condition? && WfStep(s, earlier) && HidesStep(hidden, s) && SoundStep(s, p, r)
    requires var o := ExecCondition(w, m, s.id, s.kind, p, loop, r).1;
             o.Parked? && Resumable(hidden, o)
    ensures var (r1, o) := ExecCondition(w, m, s.id, s.kind, p, loop, r);
            var (a, oa) := ExecCondition(w, Uninterrupted, s.id, s.kind, p, loop, r);
            var (b, ob) := ExecCondition(w, Uninterrupted, s.id, s.kind, p, loop, r1);
            && Alike(hidden, a, b) && SameVerdict(oa, ob) && p <= o.at
    decreases s.kind, 0, 0, 0
  {
    hide Alike, Framed, ViewOf, ExecSteps, SoundSteps, WfSteps, HidesSteps, BranchOutput, Resumable;
    var c := s.kind;
    var e := c.when.eval(ViewOf(r, c.when.uses), loop);
    var t := IsTruthy(e.value);
    var branch, via := if t then c.thn else c.els, if t then Then else Else;
    var earlier' := if t then earlier + {s.id} else earlier + {s.id} + IdsFrom(c.thn, 0);
    var (r1, o) := ExecSteps(w, m, branch, 0, p, via, loop, r, NO_FLAGS);
    StepsFramed(w, m, branch, 0, p, via, loop, r, NO_FLAGS);
    WfStepsAreNew(branch, 0, earlier');
    FramedView(r, r1, IdsFrom(branch, 0), Scope(p, via, Heads(branch, 0)), c.when.uses);
    StepsResume(w, m, hidden, branch, 0, earlier', p, via, loop, r, NO_FLAGS, NO_FLAGS);
    var (a, oa) := ExecSteps(w, Uninterrupted, branch, 0, p, via, loop, r, NO_FLAGS);
    var (b, ob) := ExecSteps(w, Uninterrupted, branch, 0, p, via, loop, r1, NO_FLAGS);
    var last := branch[|branch| - 1].id;
    if last !in hidden {
      OutputAlike(hidden, a, b, last);
    }
    AlikeSet(hidden, a, b, s.id, BranchOutput(t, Output(a, last)), BranchOutput(t, Output(b, last)));
  }

  lemma {:induction false} ForEachResume(w: World, m: Mode, hidden: set<Id>, s: Step, earlier: set<Id>, p: Path, loop: Loop, r: Run)
    requires m.Segment? && s.kind.ForEach? && WfStep(s, earlier) && HidesStep(hidden, s) && SoundStep(s, p, r)
    requires p !in r.done && |p| > 0 && p[|p| - 1].id == s.id
    requires var o := ExecForEach(w, m, s.id, s.kind, p, loop, r).1;
             o.Parked? && Resumable(hidden, o)
    ensures var (r1, o) := ExecForEach(w, m, s.id, s.kind, p, loop, r);
            var (a, oa) := ExecForEach(w, Uninterrupted, s.id, s.kind, p, loop, r);
            var (b, ob) := ExecForEach(w, Uninterrupted, s.id, s.kind, p, loop, r1);
            && Alike(hidden, a, b) && SameVerdict(oa, ob) && p <= o.at
    decreases s.kind, 0, 0, 0
  {
    hide Alike, Framed, ViewOf, ExecItems, SoundSteps, WfSteps, HidesSteps, LoopOutput, Bounded, Resumable;
    var c := s.kind;
    var e := c.over.eval(ViewOf(r, c.over.uses), loop);
    var items := Bounded(e.value.items, c.limit);
    var dropped := |e.value.items| - |items|;
    var i := StartIndex(r, p);
    EnterLoop(c.children, p, r);
    var (r1, acc, o) := ExecItems(w, m, c.children, items, i, s.id, dropped, p, loop, r, LOOP_START);
    ItemsFramed(w, m, c.children, items, i, s.id, dropped, p, loop, r, LOOP_START);
    WfStepsAreNew(c.children, 0, earlier + {s.id});
    FramedView(r, r1, {s.id} + IdsFrom(c.children, 0), Below(p), c.over.uses);
    ItemsResume(w, m, hidden, c.children, earlier + {s.id}, items, i, s.id, dropped, p, loop, r, LOOP_START, LOOP_START);
    var (a, accA, oa) := ExecItems(w, Uninterrupted, c.children, items, i, s.id, dropped, p, loop, r, LOOP_START);
    var (b, accB, ob) := ExecItems(w, Uninterrupted, c.children, items, StartIndex(r1, p), s.id, dropped, p, loop, r1, LOOP_START);
    if oa.Completed? {
      FinishAlike(hidden, a, b, s.id, dropped, accA, accB);
    }
  }

  /** A park inside an iteration hides the results of its loop. */
  lemma ParkedLoopHidden(hidden: set<Id>, p: Path, i: nat, heads: set<Id>, o: Outcome)
    requires |p| > 0 && o.Parked? && In(o.at, Scope(p, Item(i), heads)) && Resumable(hidden, o)
    ensures p[|p| - 1].id in hidden
  {
    assert o.at[|p|].via.Item?;
    assert o.at[|p| - 1] == p[|p| - 1];
  }

  /** The resumed loop has recorded, after `acc'`, what the whole one has from `n` entries after `acc` on. */
  ghost predicate Resumed(acc: LoopAcc, accA: LoopAcc, acc': LoopAcc, accB: LoopAcc, n: nat) {
    && |acc.entries| + n <= |accA.entries| && acc'.entries <= accB.entries
    && accB.entries[|acc'.entries|..] == accA.entries[|acc.entries| + n..]
  }

  lemma GrownResumed(acc: LoopAcc, accA: LoopAcc, acc': LoopAcc, accB: LoopAcc)
    requires Grown(acc, accA, acc', accB)
    ensures Resumed(acc, accA, acc', accB, 0)
  {
  }

  lemma LoopStepAdds(acc: LoopAcc, v: Verdict, children: seq<Step>, sub: Flags)
    ensures |LoopStep(acc, v, children, sub).entries| == |acc.entries| + 1
  {
  }

  lemma {:induction false} ItemsResume(w: World, m: Mode, hidden: set<Id>, children: seq<Step>, earlier: set<Id>, items: seq<Value>,
                                       i: nat, id: Id, dropped: nat, p: Path, loop: Loop, r: Run, acc: LoopAcc, acc': LoopAcc)
    requires m.Segment? && WfSteps(children, 0, earlier) && id in earlier && HidesSteps(hidden, children, 0)
    requires p !in r.done && |p| > 0 && p[|p| - 1].id == id && ItemReady(children, p, i, r) && AccOk(acc) && AccOk(acc')
    requires Heads(children, 0) * hidden != {} ==> id in hidden
    requires var (_, _, o) := ExecItems(w, m, children, items, i, id, dropped, p, loop, r, acc);
             o.Parked? && Resumable(hidden, o)
    ensures var (r1, _, o) := ExecItems(w, m, children, items, i, id, dropped, p, loop, r, acc);
            var (a, accA, oa) := ExecItems(w, Uninterrupted, children, items, i, id, dropped, p, loop, r, acc);
            var (b, accB, ob) := ExecItems(w, Uninterrupted, children, items, StartIndex(r1, p), id, dropped, p, loop, r1, acc');
            && Alike(hidden, a, b) && SameVerdict(oa, ob) && p <= o.at && id in hidden
            && (oa.Completed? ==> AccOk(accA) && AccOk(accB))
            && i <= StartIndex(r1, p) < |items|
            && (oa.Completed? && Heads(children, 0) * hidden == {} ==> Resumed(acc, accA, acc', accB, StartIndex(r1, p) - i))
    decreases children, 1, |items| - i, 0
  {
    hide Alike, ViewOf, ExecSteps, SoundSteps, WfSteps, HidesSteps, LoopOutput, UntouchedFrom, Framed, Resumable, LoopStep, Grown, VerdictOf,
         Agree, IdsFrom, Heads;
    var inner := InLoop(items[i], i, loop);
    var r0 := r.(iter := r.iter[p := i]);
    ScopeAgree(children, earlier, id, p, Item(i), r, r0);
    StepsFramed(w, m, children, 0, p, Item(i), inner, r0, NO_FLAGS);
    var (r1, o) := ExecSteps(w, m, children, 0, p, Item(i), inner, r0, NO_FLAGS);
    NoMarkOutside(r0, r1, IdsFrom(children, 0), p, Item(i), Heads(children, 0));
    if o.Completed? {
      StepsFinish(w, m, children, 0, p, Item(i), inner, r0, NO_FLAGS);
      StepsSound(w, m, children, 0, earlier, p, Item(i), inner, r0, NO_FLAGS);
      LaterUntouched(r, r0, r1, p, i, IdsFrom(children, 0), Heads(children, 0));
      NextReady(children, p, i, r1);
      var v := VerdictOf(children, |children|, p, i, r1);
      var acc1 := LoopStep(acc, v, children, o.flags);
      VerdictSound(children, |children|, p, i, r1);
      LoopStepOk(acc, v, children, o.flags);
      LoopStepAdds(acc, v, children, o.flags);
      ItemsResume(w, m, hidden, children, earlier, items, i + 1, id, dropped, p, loop, r1.(iter := r1.iter - {p}), acc1, acc');
    } else {
      StepsResume(w, m, hidden, children, 0, earlier, p, Item(i), inner, r0, NO_FLAGS, NO_FLAGS);
      ParkedLoopHidden(hidden, p, i, Heads(children, 0), o);
      assert r1.(iter := r1.iter[p := i]) == r1;
      AfterItem(w, hidden, children, earlier, items, i, id, dropped, p, loop, r, r1, acc, acc');
      var (_, accA, oA) := ExecItems(w, Uninterrupted, children, items, i, id, dropped, p, loop, r, acc);
      var (_, accB, _) := ExecItems(w, Uninterrupted, children, items, i, id, dropped, p, loop, r1, acc');
      if oA.Completed? && Heads(children, 0) * hidden == {} {
        GrownResumed(acc, accA, acc', accB);
      }
    }
  }

  lemma LoopStepOk(acc: LoopAcc, v: Verdict, children: seq<Step>, sub: Flags)
    requires AccOk(acc) && (v.attempted ==> v.succeeded)
    ensures AccOk(LoopStep(acc, v, children, sub))
  {
  }

  /**
   * What a parked loop forgets: run through, it has one entry for each iteration from its cursor on; resumed, it has
   * the same entries from the cursor of the park on, when no direct child has a hidden output.
   */
  lemma ResumedResults(w: World, m: Mode, hidden: set<Id>, s: Step, earlier: set<Id>, p: Path, loop: Loop, r: Run)
    returns (entries: seq<Entry>, dropped: nat)
    requires m.Segment? && s.kind.ForEach? && WfStep(s, earlier) && HidesStep(hidden, s) && SoundStep(s, p, r)
    requires p !in r.done && |p| > 0 && p[|p| - 1].id == s.id && Heads(s.kind.children, 0) !! hidden
    requires var o := ExecForEach(w, m, s.id, s.kind, p, loop, r).1;
             o.Parked? && Resumable(hidden, o)
    requires ExecForEach(w, Uninterrupted, s.id, s.kind, p, loop, r).1.Completed?
    ensures var r1 := ExecForEach(w, m, s.id, s.kind, p, loop, r).0;
            var (a, b) := (ExecForEach(w, Uninterrupted, s.id, s.kind, p, loop, r).0,
                           ExecForEach(w, Uninterrupted, s.id, s.kind, p, loop, r1).0);
            var n := StartIndex(r1, p) - StartIndex(r, p);
            && 0 <= n <= |entries| && s.id in a.outputs && s.id in b.outputs
            && a.outputs[s.id] == LoopOutput(entries, dropped) && b.outputs[s.id] == LoopOutput(entries[n..], dropped)
  {
    hide Alike, Framed, ViewOf, ExecItems, SoundSteps, WfSteps, HidesSteps, LoopOutput, Bounded, Resumable;
    var c := s.kind;
    var e := c.over.eval(ViewOf(r, c.over.uses), loop);
    var items := Bounded(e.value.items, c.limit);
    dropped := |e.value.items| - |items|;
    var i := StartIndex(r, p);
    EnterLoop(c.children, p, r);
    var r1 := ExecItems(w, m, c.children, items, i, s.id, dropped, p, loop, r, LOOP_START).0;
    ItemsFramed(w, m, c.children, items, i, s.id, dropped, p, loop, r, LOOP_START);
    WfStepsAreNew(c.children, 0, earlier + {s.id});
    FramedView(r, r1, {s.id} + IdsFrom(c.children, 0), Below(p), c.over.uses);
    ItemsResume(w, m, hidden, c.children, earlier + {s.id}, items, i, s.id, dropped, p, loop, r, LOOP_START, LOOP_START);
    var accA := ExecItems(w, Uninterrupted, c.children, items, i, s.id, dropped, p, loop, r, LOOP_START).1;
    var accB := ExecItems(w, Uninterrupted, c.children, items, StartIndex(r1, p), s.id, dropped, p, loop, r1, LOOP_START).1;
    entries := accA.entries;
    assert accB.entries[0..] == accB.entries;
  }
}
