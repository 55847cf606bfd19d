/**
 * Parking is invisible: however a run is cut into jobs that park, crash and resume, it ends where
 * the uninterrupted walk ends.
 */
module Parking {
  import opened Prelude
  import opened Values
  import opened Workflow
  import opened Executor
  import opened WellFormed
  import opened Soundness

  // --- A job that does not park is the uninterrupted walk ------------------------------------

  predicate Finished(o: Outcome) {
    o.Completed? || o.Aborted?
  }

  /** A pending approval is given up or kept; only a park puts another one in its place. */
  predicate Passed(r: Run, r': Run) {
    r'.approval.None? || r'.approval == r.approval
  }

  lemma {:induction false} StepsFinish(w: World, m: Mode, steps: seq<Step>, k: nat, parent: Path, via: Via, loop: Loop, r: Run,
                                       acc: Flags)
    requires k <= |steps| && Finished(ExecSteps(w, m, steps, k, parent, via, loop, r, acc).1)
    ensures ExecSteps(w, Uninterrupted, steps, k, parent, via, loop, r, acc) ==
            ExecSteps(w, m, steps, k, parent, via, loop, r, acc)
    ensures Passed(r, ExecSteps(w, m, steps, k, parent, via, loop, r, acc).0)
    decreases steps, 0, |steps| - k
  {
    hide ExecStep;
    if k < |steps| {
      var s := steps[k];
      var p := Child(parent, via, s.id);
      var g := Gate(s, r, loop);
      if g.Ok? {
        if !g.value {
          StepsFinish(w, m, steps, k + 1, parent, via, loop, SkipStep(r, s.id, p), acc);
        } else if p in r.done {
          StepsFinish(w, m, steps, k + 1, parent, via, loop, r, acc);
        } else {
          var (r1, o) := ExecStep(w, m, s, p, loop, r);
          StepFinish(w, m, s, p, loop, r);
          if o.Completed? {
            StepsFinish(w, m, steps, k + 1, parent, via, loop, MarkDone(r1, p), acc.(anySuccess := true));
          } else if s.continueOnError {
            StepsFinish(w, m, steps, k + 1, parent, via, loop, Swallow(r1, via), SwallowFlags(acc, o.code, s));
          }
        }
      }
    }
  }

  lemma {:induction false} StepFinish(w: World, m: Mode, s: Step, p: Path, loop: Loop, r: Run)
    requires Finished(ExecStep(w, m, s, p, loop, r).1)
    ensures ExecStep(w, Uninterrupted, s, p, loop, r) == ExecStep(w, m, s, p, loop, r)
    ensures Passed(r, ExecStep(w, m, s, p, loop, r).0)
    decreases s, 1, 0
  {
    hide ExecCondition, ExecForEach, ViewOf, ExecLeaf, ExecEmail, RecordOutcome, OutputOnly, ExecDelay, ExecApproval;
    var r0 := r.(rows := r.rows[p := RowRunning]);
    if s.kind.Condition? {
      ConditionFinish(w, m, s.id, s.kind, p, loop, r0);
    } else if s.kind.ForEach? {
      ForEachFinish(w, m, s.id, s.kind, p, loop, r0);
    } else {
      PlainFinish(w, m, s, p, loop, r0);
    }
    var (r1, o) := ExecBody(w, m, s, p, loop, r0);
    RecordPassed(r, r1, s.id, p, o);
  }

  lemma PlainFinish(w: World, m: Mode, s: Step, p: Path, loop: Loop, r: Run)
    requires !s.kind.Condition? && !s.kind.ForEach? && Finished(ExecBody(w, m, s, p, loop, r).1)
    ensures ExecBody(w, Uninterrupted, s, p, loop, r) == ExecBody(w, m, s, p, loop, r)
    ensures Passed(r, ExecBody(w, m, s, p, loop, r).0)
  {
    hide ViewOf, ExecLeaf, ExecEmail, OutputOnly, Decide;
  }

  lemma RecordPassed(r: Run, r1: Run, id: Id, p: Path, o: Outcome)
    requires Passed(r, r1)
    ensures Passed(r, RecordOutcome(r1, id, p, o))
  {
  }

  lemma {:induction false} ConditionFinish(w: World, m: Mode, id: Id, c: Kind, p: Path, loop: Loop, r: Run)
    requires c.Condition? && Finished(ExecCondition(w, m, id, c, p, loop, r).1)
    ensures ExecCondition(w, Uninterrupted, id, c, p, loop, r) == ExecCondition(w, m, id, c, p, loop, r)
    ensures Passed(r, ExecCondition(w, m, id, c, p, loop, r).0)
    decreases c, 0, 0
  {
    hide ExecSteps, ViewOf, BranchOutput;
    var e := c.when.eval(ViewOf(r, c.when.uses), loop);
    if e.Ok? {
      var t := IsTruthy(e.value);
      var branch := if t then c.thn else c.els;
      if |branch| > 0 {
        StepsFinish(w, m, branch, 0, p, if t then Then else Else, loop, r, NO_FLAGS);
      }
    }
  }

  lemma {:induction false} ForEachFinish(w: World, m: Mode, id: Id, c: Kind, p: Path, loop: Loop, r: Run)
    requires c.ForEach? && Finished(ExecForEach(w, m, id, c, p, loop, r).1)
    ensures ExecForEach(w, Uninterrupted, id, c, p, loop, r) == ExecForEach(w, m, id, c, p, loop, r)
    ensures Passed(r, ExecForEach(w, m, id, c, p, loop, r).0)
    decreases c, 0, 0
  {
    hide ExecItems, ViewOf, LoopOutput, Bounded;
    var e := c.over.eval(ViewOf(r, c.over.uses), loop);
    if e.Ok? && e.value.Arr? {
      var items := Bounded(e.value.items, c.limit);
      ItemsFinish(w, m, c.children, items, StartIndex(r, p), id, |e.value.items| - |items|, p, loop, r, LOOP_START);
    }
  }

  lemma {:induction false} ItemsFinish(w: World, m: Mode, children: seq<Step>, items: seq<Value>, i: nat, id: Id, dropped: nat,
                                       p: Path, loop: Loop, r: Run, acc: LoopAcc)
    requires Finished(ExecItems(w, m, children, items, i, id, dropped, p, loop, r, acc).2)
    ensures ExecItems(w, Uninterrupted, children, items, i, id, dropped, p, loop, r, acc) ==
            ExecItems(w, m, children, items, i, id, dropped, p, loop, r, acc)
    ensures Passed(r, ExecItems(w, m, children, items, i, id, dropped, p, loop, r, acc).0)
    decreases children, 1, |items| - i
  {
    hide ExecSteps, LoopOutput;
    if i < |items| {
      var r0 := r.(iter := r.iter[p := i]);
      StepsFinish(w, m, children, 0, p, Item(i), InLoop(items[i], i, loop), r0, NO_FLAGS);
      var (r1, o) := ExecSteps(w, m, children, 0, p, Item(i), InLoop(items[i], i, loop), r0, NO_FLAGS);
      if o.Completed? {
        ItemsFinish(w, m, children, items, i + 1, id, dropped, p, loop, r1.(iter := r1.iter - {p}),
                    LoopStep(acc, VerdictOf(children, |children|, p, i, r1), children, o.flags));
      }
    }
  }

  // --- States that agree except on the outputs of parked loops ----------------------------------

  ghost predicate SameOutput(a: Run, b: Run, id: Id) {
    (id in a.outputs <==> id in b.outputs) && (id in a.outputs ==> a.outputs[id] == b.outputs[id])
  }

  /** Everything a later job can see, the outputs of `hidden` steps aside; a pending park is not compared. */
  ghost predicate Alike(hidden: set<Id>, a: Run, b: Run) {
    && (forall id {:trigger SameOutput(a, b, id)} :: id !in hidden ==> SameOutput(a, b, id))
    && a.status == b.status && a.done == b.done && a.iter == b.iter && a.reply == b.reply && a.runFailed == b.runFailed
  }

  predicate SameVerdict(o: Outcome, o': Outcome) {
    match o
    case Completed(skipped, _) => o'.Completed? && o'.skipped == skipped
    case Aborted(code) => o'.Aborted? && o'.code == code
    case _ => false
  }

  /**
   * No expression reads a hidden output, and an output copied from a hidden one is hidden: that of a
   * condition whose branch ends in a hidden step, and the results of a loop over a hidden child.
   */
  ghost predicate HidesSteps(hidden: set<Id>, steps: seq<Step>, k: nat)
    requires k <= |steps|
    decreases steps, |steps| - k
  {
    k == |steps| || (HidesStep(hidden, steps[k]) && HidesSteps(hidden, steps, k + 1))
  }

  ghost predicate HidesStep(hidden: set<Id>, s: Step)
    decreases s, 0
  {
    && Uses(s) !! hidden
    && match s.kind
       case Reply(_) => s.id !in hidden
       case Condition(_, thn, els) =>
         && (|thn| > 0 && thn[|thn| - 1].id in hidden ==> s.id in hidden)
         && (|els| > 0 && els[|els| - 1].id in hidden ==> s.id in hidden)
         && HidesSteps(hidden, thn, 0) && HidesSteps(hidden, els, 0)
       case ForEach(_, _, children) =>
         && (Heads(children, 0) * hidden != {} ==> s.id in hidden)
         && HidesSteps(hidden, children, 0)
       case _ => true
  }

  lemma AlikeView(hidden: set<Id>, a: Run, b: Run, uses: set<Id>)
    requires Alike(hidden, a, b) && uses !! hidden
    ensures ViewOf(a, uses) == ViewOf(b, uses)
  {
    assert forall id :: id in uses ==> SameOutput(a, b, id);
  }

  lemma FramedView(r: Run, r': Run, ids: set<Id>, g: Region, uses: set<Id>)
    requires Framed(r, r', ids, g) && uses !! ids
    ensures ViewOf(r, uses) == ViewOf(r', uses)
  {
    assert forall id :: id in uses ==> SameId(r, r', id);
  }

  lemma AlikeSet(hidden: set<Id>, a: Run, b: Run, id: Id, v: Value, v': Value)
    requires Alike(hidden, a, b) && (id !in hidden ==> v == v')
    ensures Alike(hidden, SetOutput(a, id, v), SetOutput(b, id, v'))
  {
    forall x | x !in hidden ensures SameOutput(SetOutput(a, id, v), SetOutput(b, id, v'), x) {
      assert SameOutput(a, b, x);
    }
  }

  /** Changes to the parts other than outputs, made alike on both sides. */
  lemma AlikeOther(hidden: set<Id>, a: Run, b: Run, a': Run, b': Run)
    requires Alike(hidden, a, b) && a'.outputs == a.outputs && b'.outputs == b.outputs
    requires a'.status == b'.status && a'.done == b'.done && a'.iter == b'.iter && a'.reply == b'.reply
    requires a'.runFailed == b'.runFailed
    ensures Alike(hidden, a', b')
  {
    forall x | x !in hidden ensures SameOutput(a', b', x) {
      assert SameOutput(a, b, x);
    }
  }

  lemma AlikeTrans(hidden: set<Id>, a: Run, b: Run, c: Run)
    requires Alike(hidden, a, b) && Alike(hidden, b, c)
    ensures Alike(hidden, a, c)
  {
    forall x | x !in hidden ensures SameOutput(a, c, x) {
      assert SameOutput(a, b, x) && SameOutput(b, c, x);
    }
  }

  lemma AlikeSound(hidden: set<Id>, a: Run, b: Run, steps: seq<Step>, k: nat, parent: Path, via: Via)
    requires k <= |steps| && Alike(hidden, a, b) && SoundSteps(steps, k, parent, via, a)
    ensures SoundSteps(steps, k, parent, via, b)
  {
    AgreeSame(a, b, IdsFrom(steps, k), Scope(parent, via, Heads(steps, k)));
    SoundStepsAgree(steps, k, parent, via, a, b);
  }

  // --- The uninterrupted walk takes states that look alike to states that look alike ----------------

  lemma {:induction false} StepsAlike(w: World, hidden: set<Id>, steps: seq<Step>, k: nat, earlier: set<Id>, parent: Path,
                                      via: Via, loop: Loop, a: Run, b: Run, acc: Flags, acc': Flags)
    requires k <= |steps| && WfSteps(steps, k, earlier) && HidesSteps(hidden, steps, k)
    requires Alike(hidden, a, b) && SoundSteps(steps, k, parent, via, a)
    ensures var (a', o) := ExecSteps(w, Uninterrupted, steps, k, parent, via, loop, a, acc);
            var (b', o') := ExecSteps(w, Uninterrupted, steps, k, parent, via, loop, b, acc');
            Alike(hidden, a', b') && SameVerdict(o, o')
    decreases steps, 0, |steps| - k, 2
  {
    hide Alike, Framed, ExecStep, ViewOf, SoundStep, WfStep, HidesStep, Within, Gate, SkipStep, StepIds;
    if k < |steps| {
      var s := steps[k];
      var p := Child(parent, via, s.id);
      assert Gate(s, a, loop) == Gate(s, b, loop) && (p in a.done <==> p in b.done) by {
        GateAlike(hidden, s, loop, a, b);
      }
      var g := Gate(s, a, loop);
      if g.Ok? {
        if !g.value {
          var a1, b1 := SkipStep(a, s.id, p), SkipStep(b, s.id, p);
          SkipAlike(hidden, a, b, s.id, p);
          SkipSound(s, earlier, p, a);
          SkipFramed(s, p, a);
          TailAlike(w, hidden, steps, k, earlier, parent, via, loop, a, a1, b1, acc, acc');
        } else if p in a.done {
          FramedSelf(a, StepIds(s), Below(p));
          TailAlike(w, hidden, steps, k, earlier, parent, via, loop, a, a, b, acc, acc');
        } else {
          StepAlike(w, hidden, s, earlier, p, loop, a, b);
          AfterStep(w, hidden, steps, k, earlier, parent, via, loop, a, b, acc, acc');
        }
      }
    }
  }

  /** The walk from step `k` on, once step `k` itself is known to end alike. */
  lemma {:induction false} AfterStep(w: World, hidden: set<Id>, steps: seq<Step>, k: nat, earlier: set<Id>, parent: Path,
                                     via: Via, loop: Loop, a: Run, b: Run, acc: Flags, acc': Flags)
    requires k < |steps| && WfSteps(steps, k, earlier) && HidesSteps(hidden, steps, k)
    requires SoundSteps(steps, k, parent, via, a)
    requires Gate(steps[k], a, loop) == Ok(true) && Gate(steps[k], b, loop) == Ok(true)
    requires var p := Child(parent, via, steps[k].id);
             var (a1, o) := ExecStep(w, Uninterrupted, steps[k], p, loop, a);
             var (b1, o') := ExecStep(w, Uninterrupted, steps[k], p, loop, b);
             p !in a.done && p !in b.done && Alike(hidden, a1, b1) && SameVerdict(o, o')
    ensures var (a', o) := ExecSteps(w, Uninterrupted, steps, k, parent, via, loop, a, acc);
            var (b', o') := ExecSteps(w, Uninterrupted, steps, k, parent, via, loop, b, acc');
            Alike(hidden, a', b') && SameVerdict(o, o')
    decreases steps, 0, |steps| - k, 1
  {
    hide Alike, Framed, ExecStep, ViewOf, SoundStep, WfStep, HidesStep, Gate;
    var s := steps[k];
    var p := Child(parent, via, s.id);
    StepSound(w, Uninterrupted, s, earlier, p, loop, a);
    StepFramed(w, Uninterrupted, s, p, loop, a);
    var (a1, o) := ExecStep(w, Uninterrupted, s, p, loop, a);
    var (b1, o') := ExecStep(w, Uninterrupted, s, p, loop, b);
    if o.Completed? {
      var a2, b2 := MarkDone(a1, p), MarkDone(b1, p);
      LocalAfter(a, a1, a2, StepIds(s), s.id, p);
      MarkAlike(hidden, a1, b1, p, via);
      TailAlike(w, hidden, steps, k, earlier, parent, via, loop, a, a2, b2, acc.(anySuccess := true), acc'.(anySuccess := true));
    } else if s.continueOnError {
      var a2, b2 := Swallow(a1, via), Swallow(b1, via);
      LocalAfter(a, a1, a2, StepIds(s), s.id, p);
      MarkAlike(hidden, a1, b1, p, via);
      SoundStepAgree(s, p, a1, a2) by {
        AgreeSame(a1, a2, StepIds(s), Below(p));
      }
      TailAlike(w, hidden, steps, k, earlier, parent, via, loop, a, a2, b2, SwallowFlags(acc, o.code, s), SwallowFlags(acc', o.code, s));
    }
  }

  lemma GateAlike(hidden: set<Id>, s: Step, loop: Loop, a: Run, b: Run)
    requires Alike(hidden, a, b) && HidesStep(hidden, s)
    ensures Gate(s, a, loop) == Gate(s, b, loop)
    ensures a.done == b.done
  {
    if s.gate.Some? {
      AlikeView(hidden, a, b, s.gate.value.uses);
    }
  }

  lemma SkipAlike(hidden: set<Id>, a: Run, b: Run, id: Id, p: Path)
    requires Alike(hidden, a, b)
    ensures Alike(hidden, SkipStep(a, id, p), SkipStep(b, id, p))
  {
    hide Alike, SkipStep;
    AlikeParts(hidden, a, b);
    SkipParts(a, id, p);
    SkipParts(b, id, p);
    AlikeOther(hidden, a, b, SkipStep(a, id, p), SkipStep(b, id, p));
  }

  lemma AlikeParts(hidden: set<Id>, a: Run, b: Run)
    requires Alike(hidden, a, b)
    ensures a.status == b.status && a.done == b.done && a.iter == b.iter && a.reply == b.reply && a.runFailed == b.runFailed
  {
  }

  lemma SkipParts(r: Run, id: Id, p: Path)
    ensures var r' := SkipStep(r, id, p);
            && r'.outputs == r.outputs && r'.iter == r.iter && r'.reply == r.reply && r'.runFailed == r.runFailed
            && r'.done == r.done + {p} && r'.status == if p in r.done then r.status else r.status[id := Skipped]
  {
  }

  lemma MarkAlike(hidden: set<Id>, a: Run, b: Run, p: Path, via: Via)
    requires Alike(hidden, a, b)
    ensures Alike(hidden, MarkDone(a, p), MarkDone(b, p))
    ensures Alike(hidden, Swallow(a, via), Swallow(b, via))
  {
    AlikeOther(hidden, a, b, MarkDone(a, p), MarkDone(b, p));
    AlikeOther(hidden, a, b, Swallow(a, via), Swallow(b, via));
  }

  /** The steps after step `k`, from two states that look alike. */
  lemma {:induction false} TailAlike(w: World, hidden: set<Id>, steps: seq<Step>, k: nat, earlier: set<Id>, parent: Path,
                                     via: Via, loop: Loop, r: Run, a: Run, b: Run, acc: Flags, acc': Flags)
    requires k < |steps| && WfSteps(steps, k, earlier) && HidesSteps(hidden, steps, k)
    requires SoundSteps(steps, k, parent, via, r) && SoundStep(steps[k], Child(parent, via, steps[k].id), a)
    requires Framed(r, a, StepIds(steps[k]), Below(Child(parent, via, steps[k].id)))
    requires Alike(hidden, a, b)
    ensures var (a', o) := ExecSteps(w, Uninterrupted, steps, k + 1, parent, via, loop, a, acc);
            var (b', o') := ExecSteps(w, Uninterrupted, steps, k + 1, parent, via, loop, b, acc');
            Alike(hidden, a', b') && SameVerdict(o, o')
    decreases steps, 0, |steps| - k, 0
  {
    hide Alike, Framed, ExecSteps, SoundStep;
    SiblingsAgree(steps, k, parent, via, earlier, r, a);
    SoundStepsAgree(steps, k + 1, parent, via, r, a);
    StepsAlike(w, hidden, steps, k + 1, earlier + StepIds(steps[k]), parent, via, loop, a, b, acc, acc');
  }

  lemma {:induction false} StepAlike(w: World, hidden: set<Id>, s: Step, earlier: set<Id>, p: Path, loop: Loop, a: Run, b: Run)
    requires WfStep(s, earlier) && HidesStep(hidden, s) && Alike(hidden, a, b) && SoundStep(s, p, a) && p !in a.done
    ensures var (a', o) := ExecStep(w, Uninterrupted, s, p, loop, a);
            var (b', o') := ExecStep(w, Uninterrupted, s, p, loop, b);
            Alike(hidden, a', b') && SameVerdict(o, o')
    decreases s, 1, 0
  {
    hide Alike, Agree, ExecBody, ViewOf;
    var a0, b0 := a.(rows := a.rows[p := RowRunning]), b.(rows := b.rows[p := RowRunning]);
    RowAlike(hidden, a, b, a0, b0);
    SoundStepAgree(s, p, a, a0) by {
      AgreeSame(a, a0, StepIds(s), Below(p));
    }
    BodyAlike(w, hidden, s, earlier, p, loop, a0, b0);
    var (a1, o) := ExecBody(w, Uninterrupted, s, p, loop, a0);
    var (b1, o') := ExecBody(w, Uninterrupted, s, p, loop, b0);
    RecordAlike(hidden, a1, b1, s.id, p, o, o');
  }

  lemma RowAlike(hidden: set<Id>, a: Run, b: Run, a0: Run, b0: Run)
    requires Alike(hidden, a, b) && a0 == a.(rows := a0.rows) && b0 == b.(rows := b0.rows)
    ensures Alike(hidden, a0, b0)
  {
    AlikeOther(hidden, a, b, a0, b0);
  }

  lemma RecordAlike(hidden: set<Id>, a: Run, b: Run, id: Id, p: Path, o: Outcome, o': Outcome)
    requires Alike(hidden, a, b) && SameVerdict(o, o')
    ensures Alike(hidden, RecordOutcome(a, id, p, o), RecordOutcome(b, id, p, o'))
  {
    AlikeOther(hidden, a, b, RecordOutcome(a, id, p, o), RecordOutcome(b, id, p, o'));
  }

  lemma {:induction false} BodyAlike(w: World, hidden: set<Id>, s: Step, earlier: set<Id>, p: Path, loop: Loop, a: Run, b: Run)
    requires WfStep(s, earlier) && HidesStep(hidden, s) && Alike(hidden, a, b) && SoundStep(s, p, a) && p !in a.done
    ensures var (a', o) := ExecBody(w, Uninterrupted, s, p, loop, a);
            var (b', o') := ExecBody(w, Uninterrupted, s, p, loop, b);
            Alike(hidden, a', b') && SameVerdict(o, o')
    decreases s, 0, 0
  {
    hide Alike, ExecCondition, ExecForEach, ExecLeaf, ExecEmail, ExecDelay, ExecApproval;
    match s.kind
    case Condition(_, _, _) => ConditionAlike(w, hidden, s, earlier, p, loop, a, b);
    case ForEach(_, _, _) => ForEachAlike(w, hidden, s, earlier, p, loop, a, b);
    case Leaf(act) => LeafAlike(hidden, act, s.id, p, loop, a, b);
    case Reply(act) =>
      LeafAlike(hidden, act, s.id, p, loop, a, b);
      if ExecLeaf(act, s.id, p, loop, a).1.Completed? {
        ReplyAlike(hidden, act, s.id, p, loop, a, b);
      }
    case Email(message) => EmailAlike(hidden, message, s.id, p, loop, a, b);
    case Delay(valid) => DelayAlike(w, hidden, valid, s.id, p, a, b);
    case Approval(prompt, abort) => ApprovalAlike(w, hidden, prompt, abort, s.id, p, loop, a, b);
  }

  lemma LeafAlike(hidden: set<Id>, act: Action, id: Id, p: Path, loop: Loop, a: Run, b: Run)
    requires Alike(hidden, a, b) && act.uses !! hidden
    ensures var (a', o) := ExecLeaf(act, id, p, loop, a);
            var (b', o') := ExecLeaf(act, id, p, loop, b);
            Alike(hidden, a', b') && SameVerdict(o, o')
  {
    AlikeView(hidden, a, b, act.uses);
    match act.run(p, ViewOf(a, act.uses), loop)
    case LeafOk(v) => AlikeSet(hidden, a, b, id, v, v);
    case LeafErr(_, None) =>
    case LeafErr(_, Some(v)) => AlikeSet(hidden, a, b, id, v, v);
  }

  lemma ReplyAlike(hidden: set<Id>, act: Action, id: Id, p: Path, loop: Loop, a: Run, b: Run)
    requires Alike(hidden, a, b) && act.uses !! hidden && id !in hidden
    requires ExecLeaf(act, id, p, loop, a).1.Completed?
    ensures var (a', o) := ExecLeaf(act, id, p, loop, a);
            var (b', o') := ExecLeaf(act, id, p, loop, b);
            o'.Completed? && Alike(hidden, a'.(reply := Some(a'.outputs[id])), b'.(reply := Some(b'.outputs[id])))
  {
    LeafAlike(hidden, act, id, p, loop, a, b);
    var a', b' := ExecLeaf(act, id, p, loop, a).0, ExecLeaf(act, id, p, loop, b).0;
    assert SameOutput(a', b', id);
    AlikeOther(hidden, a', b', a'.(reply := Some(a'.outputs[id])), b'.(reply := Some(b'.outputs[id])));
  }

  lemma EmailAlike(hidden: set<Id>, message: Expr, id: Id, p: Path, loop: Loop, a: Run, b: Run)
    requires Alike(hidden, a, b) && message.uses !! hidden
    ensures var (a', o) := ExecEmail(message, id, p, loop, a);
            var (b', o') := ExecEmail(message, id, p, loop, b);
            Alike(hidden, a', b') && SameVerdict(o, o')
  {
    AlikeView(hidden, a, b, message.uses);
    var e := message.eval(ViewOf(a, message.uses), loop);
    if e.Ok? {
      var a1 := a.(outbox := if p in a.outbox then a.outbox else a.outbox[p := e.value]);
      var b1 := b.(outbox := if p in b.outbox then b.outbox else b.outbox[p := e.value]);
      AlikeOther(hidden, a, b, a1, b1);
      AlikeSet(hidden, a1, b1, id, EMAIL_OUTPUT, EMAIL_OUTPUT);
    }
  }

  lemma DelayAlike(w: World, hidden: set<Id>, valid: bool, id: Id, p: Path, a: Run, b: Run)
    requires Alike(hidden, a, b)
    ensures var (a', o) := ExecDelay(w, Uninterrupted, valid, id, p, a);
            var (b', o') := ExecDelay(w, Uninterrupted, valid, id, p, b);
            Alike(hidden, a', b') && SameVerdict(o, o')
  {
    AlikeOther(hidden, a, b, a.(delay := None), b.(delay := None));
    AlikeSet(hidden, a.(delay := None), b.(delay := None), id, w.delayOutput(p), w.delayOutput(p));
  }

  lemma ApprovalAlike(w: World, hidden: set<Id>, prompt: Expr, abort: bool, id: Id, p: Path, loop: Loop, a: Run, b: Run)
    requires Alike(hidden, a, b) && prompt.uses !! hidden
    ensures var (a', o) := ExecApproval(w, Uninterrupted, prompt, abort, id, p, loop, a);
            var (b', o') := ExecApproval(w, Uninterrupted, prompt, abort, id, p, loop, b);
            Alike(hidden, a', b') && SameVerdict(o, o')
  {
    AlikeView(hidden, a, b, prompt.uses);
    var out := w.decision(p).output;
    AlikeOther(hidden, a, b, a.(approval := None), b.(approval := None));
    AlikeSet(hidden, a.(approval := None), b.(approval := None), id, out, out);
    AlikeSet(hidden, a, b, id, out, out);
  }

  lemma {:induction false} ConditionAlike(w: World, hidden: set<Id>, s: Step, earlier: set<Id>, p: Path, loop: Loop, a: Run, b: Run)
    requires s.kind.Condition? && WfStep(s, earlier) && HidesStep(hidden, s) && Alike(hidden, a, b) && SoundStep(s, p, a)
    ensures var (a', o) := ExecCondition(w, Uninterrupted, s.id, s.kind, p, loop, a);
            var (b', o') := ExecCondition(w, Uninterrupted, s.id, s.kind, p, loop, b);
            Alike(hidden, a', b') && SameVerdict(o, o')
    decreases s.kind, 0, 0
  {
    hide Alike, ViewOf, ExecSteps, SoundSteps, WfSteps, HidesSteps, BranchOutput;
    var c := s.kind;
    AlikeView(hidden, a, b, c.when.uses);
    var e := c.when.eval(ViewOf(a, c.when.uses), loop);
    if e.Ok? {
      var t := IsTruthy(e.value);
      var branch, via := if t then c.thn else c.els, if t then Then else Else;
      if |branch| == 0 {
        AlikeSet(hidden, a, b, s.id, BranchOutput(t, Null), BranchOutput(t, Null));
      } else {
        var earlier' := if t then earlier + {s.id} else earlier + {s.id} + IdsFrom(c.thn, 0);
        StepsAlike(w, hidden, branch, 0, earlier', p, via, loop, a, b, NO_FLAGS, NO_FLAGS);
        var (a1, o) := ExecSteps(w, Uninterrupted, branch, 0, p, via, loop, a, NO_FLAGS);
        var (b1, o') := ExecSteps(w, Uninterrupted, branch, 0, p, via, loop, b, NO_FLAGS);
        var last := branch[|branch| - 1].id;
        if last !in hidden {
          OutputAlike(hidden, a1, b1, last);
        }
        AlikeSet(hidden, a1, b1, s.id, BranchOutput(t, Output(a1, last)), BranchOutput(t, Output(b1, last)));
      }
    }
  }

  lemma OutputAlike(hidden: set<Id>, a: Run, b: Run, id: Id)
    requires Alike(hidden, a, b) && id !in hidden
    ensures Output(a, id) == Output(b, id)
  {
    assert SameOutput(a, b, id);
  }

  lemma {:induction false} ForEachAlike(w: World, hidden: set<Id>, s: Step, earlier: set<Id>, p: Path, loop: Loop, a: Run, b: Run)
    requires s.kind.ForEach? && WfStep(s, earlier) && HidesStep(hidden, s) && Alike(hidden, a, b) && SoundStep(s, p, a)
    requires p !in a.done
    ensures var (a', o) := ExecForEach(w, Uninterrupted, s.id, s.kind, p, loop, a);
            var (b', o') := ExecForEach(w, Uninterrupted, s.id, s.kind, p, loop, b);
            Alike(hidden, a', b') && SameVerdict(o, o')
    decreases s.kind, 0, 0
  {
    hide Alike, ViewOf, ExecItems, SoundSteps, WfSteps, HidesSteps, LoopOutput, Bounded, FinishLoop;
    var c := s.kind;
    AlikeView(hidden, a, b, c.over.uses);
    var e := c.over.eval(ViewOf(a, c.over.uses), loop);
    if e.Ok? {
      if e.value.Arr? {
        var items := Bounded(e.value.items, c.limit);
        var dropped := |e.value.items| - |items|;
        EnterLoop(c.children, p, a);
        assert StartIndex(a, p) == StartIndex(b, p) by {
          SameCursors(hidden, a, b);
        }
        ItemsAlike(w, hidden, c.children, earlier + {s.id}, items, StartIndex(a, p), s.id, dropped, p, loop, a, b, LOOP_START, LOOP_START);
        var (a1, acc, o) := ExecItems(w, Uninterrupted, c.children, items, StartIndex(a, p), s.id, dropped, p, loop, a, LOOP_START);
        var (b1, acc', o') := ExecItems(w, Uninterrupted, c.children, items, StartIndex(b, p), s.id, dropped, p, loop, b, LOOP_START);
        if o.Completed? {
          FinishAlike(hidden, a1, b1, s.id, dropped, acc, acc');
        }
      } else {
        AlikeSet(hidden, a, b, s.id, LoopOutput([], 0), LoopOutput([], 0));
      }
    }
  }

  lemma SameCursors(hidden: set<Id>, a: Run, b: Run)
    requires Alike(hidden, a, b)
    ensures a.iter == b.iter && a.done == b.done
  {
  }

  lemma FinishAlike(hidden: set<Id>, a: Run, b: Run, id: Id, dropped: nat, acc: LoopAcc, acc': LoopAcc)
    requires Alike(hidden, a, b) && AccOk(acc) && AccOk(acc') && (id !in hidden ==> acc.entries == acc'.entries)
    ensures var (a', o) := FinishLoop(a, id, dropped, acc);
            var (b', o') := FinishLoop(b, id, dropped, acc');
            Alike(hidden, a', b') && SameVerdict(o, o')
  {
    AlikeSet(hidden, a, b, id, LoopOutput(acc.entries, dropped), LoopOutput(acc'.entries, dropped));
  }

  /** Both loops have recorded the same entries since `acc` and `acc'`. */
  ghost predicate Grown(acc: LoopAcc, accA: LoopAcc, acc': LoopAcc, accB: LoopAcc) {
    && acc.entries <= accA.entries && acc'.entries <= accB.entries
    && accA.entries[|acc.entries|..] == accB.entries[|acc'.entries|..]
  }

  lemma GrownSelf(acc: LoopAcc, acc': LoopAcc)
    ensures Grown(acc, acc, acc', acc')
  {
  }

  lemma GrownTrans(acc: LoopAcc, acc1: LoopAcc, accA: LoopAcc, acc': LoopAcc, acc1': LoopAcc, accB: LoopAcc)
    requires Grown(acc, acc1, acc', acc1') && Grown(acc1, accA, acc1', accB)
    ensures Grown(acc, accA, acc', accB)
  {
    assert accA.entries == acc1.entries + accA.entries[|acc1.entries|..];
    assert accB.entries == acc1'.entries + accB.entries[|acc1'.entries|..];
    assert accA.entries[|acc.entries|..] == acc1.entries[|acc.entries|..] + accA.entries[|acc1.entries|..];
    assert accB.entries[|acc'.entries|..] == acc1'.entries[|acc'.entries|..] + accB.entries[|acc1'.entries|..];
  }

  lemma {:induction false} ItemsAlike(w: World, hidden: set<Id>, children: seq<Step>, earlier: set<Id>, items: seq<Value>, i: nat,
                                      id: Id, dropped: nat, p: Path, loop: Loop, a: Run, b: Run, acc: LoopAcc, acc': LoopAcc)
    requires WfSteps(children, 0, earlier) && id in earlier && HidesSteps(hidden, children, 0)
    requires Heads(children, 0) * hidden != {} ==> id in hidden
    requires Alike(hidden, a, b) && ItemReady(children, p, i, a)
    requires AccOk(acc) && AccOk(acc') && (id !in hidden ==> acc.entries == acc'.entries)
    ensures var (a', accA, o) := ExecItems(w, Uninterrupted, children, items, i, id, dropped, p, loop, a, acc);
            var (b', accB, o') := ExecItems(w, Uninterrupted, children, items, i, id, dropped, p, loop, b, acc');
            && Alike(hidden, a', b') && SameVerdict(o, o')
            && (o.Completed? ==> AccOk(accA) && AccOk(accB) && (id !in hidden ==> accA.entries == accB.entries))
            && (o.Completed? && Heads(children, 0) * hidden == {} ==> Grown(acc, accA, acc', accB))
    decreases children, 1, |items| - i, 1
  {
    hide Alike, ViewOf, ExecSteps, SoundSteps, WfSteps, HidesSteps, LoopOutput, UntouchedFrom, Framed, LoopStep, AccOk, Grown;
    assert Grown(acc, acc, acc', acc') by {
      GrownSelf(acc, acc');
    }
    if i < |items| {
      var m := Uninterrupted;
      var inner := InLoop(items[i], i, loop);
      var a0, b0 := a.(iter := a.iter[p := i]), b.(iter := b.iter[p := i]);
      CursorAlike(hidden, a, b, p, i);
      ScopeAgree(children, earlier, id, p, Item(i), a, a0);
      StepsAlike(w, hidden, children, 0, earlier, p, Item(i), inner, a0, b0, NO_FLAGS, NO_FLAGS);
      AfterItem(w, hidden, children, earlier, items, i, id, dropped, p, loop, a, b, acc, acc');
    }
  }

  /** The iterations from `i` on, once the children of iteration `i` are known to end alike. */
  lemma {:induction false} AfterItem(w: World, hidden: set<Id>, children: seq<Step>, earlier: set<Id>, items: seq<Value>, i: nat,
                                     id: Id, dropped: nat, p: Path, loop: Loop, a: Run, b: Run, acc: LoopAcc, acc': LoopAcc)
    requires WfSteps(children, 0, earlier) && id in earlier && HidesSteps(hidden, children, 0) && i < |items|
    requires Heads(children, 0) * hidden != {} ==> id in hidden
    requires ItemReady(children, p, i, a)
    requires AccOk(acc) && AccOk(acc') && (id !in hidden ==> acc.entries == acc'.entries)
    requires var (a1, o) := ExecSteps(w, Uninterrupted, children, 0, p, Item(i), InLoop(items[i], i, loop), a.(iter := a.iter[p := i]), NO_FLAGS);
             var (b1, o') := ExecSteps(w, Uninterrupted, children, 0, p, Item(i), InLoop(items[i], i, loop), b.(iter := b.iter[p := i]), NO_FLAGS);
             Alike(hidden, a1, b1) && SameVerdict(o, o')
    ensures var (a', accA, o) := ExecItems(w, Uninterrupted, children, items, i, id, dropped, p, loop, a, acc);
            var (b', accB, o') := ExecItems(w, Uninterrupted, children, items, i, id, dropped, p, loop, b, acc');
            && Alike(hidden, a', b') && SameVerdict(o, o')
            && (o.Completed? ==> AccOk(accA) && AccOk(accB) && (id !in hidden ==> accA.entries == accB.entries))
            && (o.Completed? && Heads(children, 0) * hidden == {} ==> Grown(acc, accA, acc', accB))
    decreases children, 1, |items| - i, 0
  {
    hide Alike, ViewOf, ExecSteps, SoundSteps, WfSteps, HidesSteps, LoopOutput, UntouchedFrom, Framed, LoopStep, AccOk, Grown;
    var m := Uninterrupted;
    var inner := InLoop(items[i], i, loop);
    var a0, b0 := a.(iter := a.iter[p := i]), b.(iter := b.iter[p := i]);
    ScopeAgree(children, earlier, id, p, Item(i), a, a0);
    StepsSound(w, m, children, 0, earlier, p, Item(i), inner, a0, NO_FLAGS);
    StepsFramed(w, m, children, 0, p, Item(i), inner, a0, NO_FLAGS);
    var (a1, o) := ExecSteps(w, m, children, 0, p, Item(i), inner, a0, NO_FLAGS);
    var (b1, o') := ExecSteps(w, m, children, 0, p, Item(i), inner, b0, NO_FLAGS);
    LaterUntouched(a, a0, a1, p, i, IdsFrom(children, 0), Heads(children, 0));
    if o.Completed? {
      AlikeSound(hidden, a1, b1, children, 0, p, Item(i));
      var va, vb := VerdictOf(children, |children|, p, i, a1), VerdictOf(children, |children|, p, i, b1);
      var acc1, acc1' := LoopStep(acc, va, children, o.flags), LoopStep(acc', vb, children, o'.flags);
      LoopStepAlike(hidden, children, p, i, id, a1, b1, acc, acc', o.flags, o'.flags);
      CursorAlike(hidden, a1, b1, p, i);
      NextReady(children, p, i, a1);
      var a2, b2 := a1.(iter := a1.iter - {p}), b1.(iter := b1.iter - {p});
      ItemsAlike(w, hidden, children, earlier, items, i + 1, id, dropped, p, loop, a2, b2, acc1, acc1');
      var (_, accA, oA) := ExecItems(w, m, children, items, i + 1, id, dropped, p, loop, a2, acc1);
      var (_, accB, _) := ExecItems(w, m, children, items, i + 1, id, dropped, p, loop, b2, acc1');
      if Heads(children, 0) * hidden == {} && oA.Completed? {
        GrownTrans(acc, acc1, accA, acc', acc1', accB);
      }
    } else {
      var ea, eb := acc.entries + [EntryFailed(o.code)], acc'.entries + [EntryFailed(o.code)];
      AlikeSet(hidden, a1, b1, id, LoopOutput(ea, dropped), LoopOutput(eb, dropped));
    }
  }

  lemma CursorAlike(hidden: set<Id>, a: Run, b: Run, p: Path, i: nat)
    requires Alike(hidden, a, b)
    ensures Alike(hidden, a.(iter := a.iter[p := i]), b.(iter := b.iter[p := i]))
    ensures Alike(hidden, a.(iter := a.iter - {p}), b.(iter := b.iter - {p}))
  {
    AlikeOther(hidden, a, b, a.(iter := a.iter[p := i]), b.(iter := b.iter[p := i]));
    AlikeOther(hidden, a, b, a.(iter := a.iter - {p}), b.(iter := b.iter - {p}));
  }

  lemma {:induction false} VerdictAlike(hidden: set<Id>, children: seq<Step>, n: nat, p: Path, i: nat, a: Run, b: Run)
    requires n <= |children| && Alike(hidden, a, b)
    ensures var va, vb := VerdictOf(children, n, p, i, a), VerdictOf(children, n, p, i, b);
            && va.attempted == vb.attempted && va.succeeded == vb.succeeded
            && (Heads(children, 0) * hidden == {} ==> va == vb)
  {
    if n > 0 {
      VerdictAlike(hidden, children, n - 1, p, i, a, b);
      var id := children[n - 1].id;
      assert id in Heads(children, 0);
      if id !in hidden {
        OutputAlike(hidden, a, b, id);
      } else {
        assert id in Heads(children, 0) * hidden;
      }
    }
  }

  lemma LoopStepAlike(hidden: set<Id>, children: seq<Step>, p: Path, i: nat, id: Id, a: Run, b: Run, acc: LoopAcc, acc': LoopAcc,
                      sub: Flags, sub': Flags)
    requires Alike(hidden, a, b) && SoundSteps(children, 0, p, Item(i), a) && SoundSteps(children, 0, p, Item(i), b)
    requires AccOk(acc) && AccOk(acc') && (id !in hidden ==> acc.entries == acc'.entries)
    requires Heads(children, 0) * hidden != {} ==> id in hidden
    ensures var acc1 := LoopStep(acc, VerdictOf(children, |children|, p, i, a), children, sub);
            var acc1' := LoopStep(acc', VerdictOf(children, |children|, p, i, b), children, sub');
            && AccOk(acc1) && AccOk(acc1') && (id !in hidden ==> acc1.entries == acc1'.entries)
            && (Heads(children, 0) * hidden == {} ==> Grown(acc, acc1, acc', acc1'))
  {
    hide Alike, SoundSteps;
    VerdictSound(children, |children|, p, i, a);
    VerdictSound(children, |children|, p, i, b);
    VerdictAlike(hidden, children, |children|, p, i, a, b);
  }
}
