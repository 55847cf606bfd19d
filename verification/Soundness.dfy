/**
 * The invariant of the checkpoint: a step marked done has not failed since, a for_each cursor is the
 * first unfinished iteration, and nothing is recorded for the iterations after it.
 */
module Soundness {
  import opened Prelude
  import opened Values
  import opened Workflow
  import opened Executor
  import opened WellFormed

  ghost predicate StatusOk(r: Run, id: Id) {
    id in r.status && r.status[id] != Failed
  }

  predicate Inside(q: Path, p: Path, via: Via) {
    |q| > |p| && p <= q && q[|p|].via == via
  }

  ghost predicate Untouched(r: Run, p: Path, via: Via) {
    forall q: Path {:trigger Inside(q, p, via)} :: Inside(q, p, via) ==> q !in r.done && q !in r.iter
  }

  ghost predicate UntouchedFrom(r: Run, p: Path, n: nat) {
    forall j: nat {:trigger Item(j)} :: j >= n ==> Untouched(r, p, Item(j))
  }

  ghost predicate SoundStep(s: Step, p: Path, r: Run)
    decreases s, 0
  {
    && (p in r.done ==> StatusOk(r, s.id))
    && match s.kind
       case Condition(_, thn, els) => SoundSteps(thn, 0, p, Then, r) && SoundSteps(els, 0, p, Else, r)
       case ForEach(_, _, children) => SoundLoop(children, p, r)
       case _ => true
  }

  ghost predicate SoundLoop(children: seq<Step>, p: Path, r: Run)
    decreases children, |children| + 1
  {
    && (p in r.iter ==> SoundSteps(children, 0, p, Item(r.iter[p]), r))
    && (p !in r.done ==> UntouchedFrom(r, p, if p in r.iter then r.iter[p] + 1 else 0))
  }

  ghost predicate SoundSteps(steps: seq<Step>, k: nat, parent: Path, via: Via, r: Run)
    requires k <= |steps|
    decreases steps, |steps| - k
  {
    k == |steps| ||
    (SoundStep(steps[k], Child(parent, via, steps[k].id), r) && SoundSteps(steps, k + 1, parent, via, r))
  }

  // --- Framing the invariant ---------------------------------------------------------------

  ghost predicate SameStatus(r: Run, r': Run, id: Id) {
    (id in r.status <==> id in r'.status) && (id in r.status ==> r.status[id] == r'.status[id])
  }

  ghost predicate SameMark(r: Run, r': Run, q: Path) {
    (q in r.done <==> q in r'.done) && SameCursor(r, r', q)
  }

  /** The two states look the same to the steps with these ids in this region. */
  ghost predicate Agree(r: Run, r': Run, ids: set<Id>, g: Region) {
    && (forall id {:trigger SameStatus(r, r', id)} :: id in ids ==> SameStatus(r, r', id))
    && (forall q {:trigger SameMark(r, r', q)} :: In(q, g) ==> SameMark(r, r', q))
  }

  lemma AgreeShrink(r: Run, r': Run, ids: set<Id>, g: Region, ids1: set<Id>, g1: Region)
    requires Agree(r, r', ids, g) && ids1 <= ids && Within(g1, g)
    ensures Agree(r, r', ids1, g1)
  {
    forall q | In(q, g1) ensures SameMark(r, r', q) {
      assert In(q, g);
    }
  }

  /** A walk leaves what is apart from it alone. */
  lemma FramedAgree(r: Run, r': Run, ids: set<Id>, g: Region, ids1: set<Id>, g1: Region)
    requires Framed(r, r', ids, g) && ids !! ids1
    requires forall q: Path {:trigger In(q, g)} :: In(q, g) ==> !In(q, g1)
    ensures Agree(r, r', ids1, g1)
  {
    forall id | id in ids1 ensures SameStatus(r, r', id) {
      assert SameId(r, r', id);
    }
    forall q | In(q, g1) ensures SameMark(r, r', q) {
      assert !In(q, g);
      assert SameCursor(r, r', q);
    }
  }

  lemma AgreeUntouched(r: Run, r': Run, ids: set<Id>, g: Region, p: Path, via: Via)
    requires Agree(r, r', ids, g) && Untouched(r, p, via)
    requires forall q: Path {:trigger Inside(q, p, via)} :: Inside(q, p, via) ==> In(q, g)
    ensures Untouched(r', p, via)
  {
    forall q: Path | Inside(q, p, via) ensures q !in r'.done && q !in r'.iter {
      assert In(q, g);
      assert SameMark(r, r', q);
    }
  }

  lemma InsideBelow(p: Path, via: Via)
    ensures forall q: Path {:trigger Inside(q, p, via)} :: Inside(q, p, via) ==> In(q, Below(p))
  {
  }

  lemma {:induction false} SoundStepAgree(s: Step, p: Path, r: Run, r': Run)
    requires SoundStep(s, p, r) && Agree(r, r', StepIds(s), Below(p))
    ensures SoundStep(s, p, r')
    decreases s, 0
  {
    assert SameMark(r, r', p) && SameStatus(r, r', s.id) by {
      assert In(p, Below(p));
    }
    hide Agree;
    match s.kind
    case Condition(_, thn, els) =>
      SoundScopeAgree(thn, p, Then, r, r', StepIds(s));
      SoundScopeAgree(els, p, Else, r, r', StepIds(s));
    case ForEach(_, _, children) => SoundLoopAgree(children, p, r, r', StepIds(s));
    case _ =>
  }

  lemma {:induction false} SoundLoopAgree(children: seq<Step>, p: Path, r: Run, r': Run, ids: set<Id>)
    requires SoundLoop(children, p, r) && Agree(r, r', ids, Below(p)) && IdsFrom(children, 0) <= ids
    ensures SoundLoop(children, p, r')
    decreases children, |children| + 2
  {
    assert SameMark(r, r', p) by {
      assert In(p, Below(p));
    }
    hide Agree;
    if p in r.iter {
      SoundScopeAgree(children, p, Item(r.iter[p]), r, r', ids);
    }
    if p !in r.done {
      var n: nat := if p in r.iter then r.iter[p] + 1 else 0;
      forall j: nat | j >= n ensures Untouched(r', p, Item(j)) {
        InsideBelow(p, Item(j));
        AgreeUntouched(r, r', ids, Below(p), p, Item(j));
      }
    }
  }

  lemma {:induction false} SoundScopeAgree(steps: seq<Step>, p: Path, via: Via, r: Run, r': Run, ids: set<Id>)
    requires SoundSteps(steps, 0, p, via, r) && Agree(r, r', ids, Below(p)) && IdsFrom(steps, 0) <= ids
    ensures SoundSteps(steps, 0, p, via, r')
    decreases steps, |steps| + 1
  {
    hide Agree;
    ScopeBelow(p, via, Heads(steps, 0));
    AgreeShrink(r, r', ids, Below(p), IdsFrom(steps, 0), Scope(p, via, Heads(steps, 0)));
    SoundStepsAgree(steps, 0, p, via, r, r');
  }

  lemma {:induction false} SoundStepsAgree(steps: seq<Step>, k: nat, parent: Path, via: Via, r: Run, r': Run)
    requires k <= |steps| && SoundSteps(steps, k, parent, via, r)
    requires Agree(r, r', IdsFrom(steps, k), Scope(parent, via, Heads(steps, k)))
    ensures SoundSteps(steps, k, parent, via, r')
    decreases steps, |steps| - k
  {
    hide Agree;
    if k < |steps| {
      ScopeShrinks(steps, k, parent, via);
      var ids, g := IdsFrom(steps, k), Scope(parent, via, Heads(steps, k));
      AgreeShrink(r, r', ids, g, StepIds(steps[k]), Below(Child(parent, via, steps[k].id)));
      AgreeShrink(r, r', ids, g, IdsFrom(steps, k + 1), Scope(parent, via, Heads(steps, k + 1)));
      SoundStepAgree(steps[k], Child(parent, via, steps[k].id), r, r');
      SoundStepsAgree(steps, k + 1, parent, via, r, r');
    }
  }

  // --- Scopes nothing has run in ---------------------------------------------------------------

  lemma {:induction false} UntouchedSound(steps: seq<Step>, k: nat, parent: Path, via: Via, r: Run)
    requires k <= |steps| && Untouched(r, parent, via)
    ensures SoundSteps(steps, k, parent, via, r)
    decreases steps, |steps| - k
  {
    if k < |steps| {
      var s := steps[k];
      var p := Child(parent, via, s.id);
      assert Inside(p, parent, via);
      match s.kind {
        case Condition(_, thn, els) =>
          UntouchedDeeper(r, parent, via, p, Then);
          UntouchedDeeper(r, parent, via, p, Else);
          UntouchedSound(thn, 0, p, Then, r);
          UntouchedSound(els, 0, p, Else, r);
        case ForEach(_, _, children) =>
          forall j: nat ensures Untouched(r, p, Item(j)) {
            UntouchedDeeper(r, parent, via, p, Item(j));
          }
        case _ =>
      }
      UntouchedSound(steps, k + 1, parent, via, r);
    }
  }

  lemma UntouchedDeeper(r: Run, parent: Path, via: Via, p: Path, via': Via)
    requires Untouched(r, parent, via) && Inside(p, parent, via)
    ensures Untouched(r, p, via')
  {
    forall q: Path | Inside(q, p, via') ensures q !in r.done && q !in r.iter {
      assert q[|parent|] == p[|parent|];
      assert Inside(q, parent, via);
    }
  }

  // --- The invariant is kept by every walk that does not crash --------------------------------------

  lemma ApartSiblings(steps: seq<Step>, k: nat, parent: Path, via: Via, earlier: set<Id>)
    requires k < |steps| && WfSteps(steps, k, earlier)
    ensures forall q: Path {:trigger In(q, Below(Child(parent, via, steps[k].id)))} ::
              In(q, Below(Child(parent, via, steps[k].id))) ==> !In(q, Scope(parent, via, Heads(steps, k + 1)))
    ensures forall q: Path {:trigger In(q, Scope(parent, via, Heads(steps, k + 1)))} ::
              In(q, Scope(parent, via, Heads(steps, k + 1))) ==> !In(q, Below(Child(parent, via, steps[k].id)))
  {
    WfHeadApart(steps, k, earlier);
    var p := Child(parent, via, steps[k].id);
    forall q: Path | In(q, Below(p)) ensures !In(q, Scope(parent, via, Heads(steps, k + 1))) {
      assert q[|parent|] == p[|parent|];
    }
  }

  /** The steps after `k` do not see what the walk of step `k` does, and the other way round. */
  lemma SiblingsAgree(steps: seq<Step>, k: nat, parent: Path, via: Via, earlier: set<Id>, r: Run, r': Run)
    requires k < |steps| && WfSteps(steps, k, earlier)
    ensures Framed(r, r', StepIds(steps[k]), Below(Child(parent, via, steps[k].id))) ==>
              Agree(r, r', IdsFrom(steps, k + 1), Scope(parent, via, Heads(steps, k + 1)))
    ensures Framed(r, r', IdsFrom(steps, k + 1), Scope(parent, via, Heads(steps, k + 1))) ==>
              Agree(r, r', StepIds(steps[k]), Below(Child(parent, via, steps[k].id)))
  {
    hide Agree, Framed;
    WfHeadApart(steps, k, earlier);
    ApartSiblings(steps, k, parent, via, earlier);
    var p, g := Child(parent, via, steps[k].id), Scope(parent, via, Heads(steps, k + 1));
    if Framed(r, r', StepIds(steps[k]), Below(p)) {
      FramedAgree(r, r', StepIds(steps[k]), Below(p), IdsFrom(steps, k + 1), g);
    }
    if Framed(r, r', IdsFrom(steps, k + 1), g) {
      FramedAgree(r, r', IdsFrom(steps, k + 1), g, StepIds(steps[k]), Below(p));
    }
  }

  lemma {:induction false} StepsSound(w: World, m: Mode, steps: seq<Step>, k: nat, earlier: set<Id>, parent: Path, via: Via,
                                      loop: Loop, r: Run, acc: Flags)
    requires k <= |steps| && WfSteps(steps, k, earlier) && SoundSteps(steps, k, parent, via, r)
    ensures var (r', o) := ExecSteps(w, m, steps, k, parent, via, loop, r, acc);
            !o.Crashed? ==> SoundSteps(steps, k, parent, via, r')
    decreases steps, 0, |steps| - k
  {
    hide Agree, Framed, SoundStep, ExecStep, WfStep, Within;
    if k < |steps| {
      var s := steps[k];
      var p := Child(parent, via, s.id);
      var earlier' := earlier + StepIds(s);
      match Gate(s, r, loop)
      case Err(_) =>
      case Ok(open) =>
        if !open {
          var r1 := SkipStep(r, s.id, p);
          SkipSound(s, earlier, p, r);
          LocalFramed(r, r1, s.id, p);
          FramedWeaken(r, r1, {s.id}, Below(p), StepIds(s), Below(p));
          TailSound(w, m, steps, k, earlier, parent, via, loop, r, r1, acc);
        } else if p in r.done {
          FramedSelf(r, StepIds(s), Below(p));
          TailSound(w, m, steps, k, earlier, parent, via, loop, r, r, acc);
        } else {
          StepSound(w, m, s, earlier, p, loop, r);
          StepFramed(w, m, s, p, loop, r);
          var (r1, o) := ExecStep(w, m, s, p, loop, r);
          if o.Completed? {
            var r2 := MarkDone(r1, p);
            LocalAfter(r, r1, r2, StepIds(s), s.id, p);
            TailSound(w, m, steps, k, earlier, parent, via, loop, r, r2, acc.(anySuccess := true));
          } else if o.Aborted? && s.continueOnError {
            var r2 := Swallow(r1, via);
            LocalAfter(r, r1, r2, StepIds(s), s.id, p);
            SoundStepAgree(s, p, r1, r2) by {
              AgreeSame(r1, r2, StepIds(s), Below(p));
            }
            TailSound(w, m, steps, k, earlier, parent, via, loop, r, r2, SwallowFlags(acc, o.code, s));
          } else if !o.Crashed? {
            SiblingsAgree(steps, k, parent, via, earlier, r, r1);
            SoundStepsAgree(steps, k + 1, parent, via, r, r1);
          }
        }
    }
  }

  lemma AgreeSame(r: Run, r': Run, ids: set<Id>, g: Region)
    requires r'.status == r.status && r'.done == r.done && r'.iter == r.iter
    ensures Agree(r, r', ids, g)
  {
  }

  /** After step `k` the remaining steps keep the invariant, for themselves and for step `k`. */
  lemma {:induction false} TailSound(w: World, m: Mode, steps: seq<Step>, k: nat, earlier: set<Id>, parent: Path, via: Via,
                                     loop: Loop, r: Run, r1: Run, acc: Flags)
    requires k < |steps| && WfSteps(steps, k, earlier) && SoundSteps(steps, k, parent, via, r)
    requires SoundStep(steps[k], Child(parent, via, steps[k].id), r1)
    requires Framed(r, r1, StepIds(steps[k]), Below(Child(parent, via, steps[k].id)))
    ensures SoundSteps(steps, k + 1, parent, via, r1)
    ensures var (r', o) := ExecSteps(w, m, steps, k + 1, parent, via, loop, r1, acc);
            !o.Crashed? ==> SoundSteps(steps, k, parent, via, r')
    decreases steps, 0, |steps| - k, 0
  {
    hide Agree, Framed, SoundStep;
    var p := Child(parent, via, steps[k].id);
    SiblingsAgree(steps, k, parent, via, earlier, r, r1);
    SoundStepsAgree(steps, k + 1, parent, via, r, r1);
    StepsSound(w, m, steps, k + 1, earlier + StepIds(steps[k]), parent, via, loop, r1, acc);
    StepsFramed(w, m, steps, k + 1, parent, via, loop, r1, acc);
    var (r', o) := ExecSteps(w, m, steps, k + 1, parent, via, loop, r1, acc);
    SiblingsAgree(steps, k, parent, via, earlier, r1, r');
    SoundStepAgree(steps[k], p, r1, r');
  }

  lemma SkipSound(s: Step, earlier: set<Id>, p: Path, r: Run)
    requires WfStep(s, earlier) && SoundStep(s, p, r)
    ensures SoundStep(s, p, SkipStep(r, s.id, p))
  {
    if p !in r.done {
      MarkSound(s, earlier, p, r, SkipStep(r, s.id, p));
    }
  }

  /** Marking a step done with a good status keeps what is recorded below it. */
  lemma {:induction false} MarkSound(s: Step, earlier: set<Id>, p: Path, r: Run, r': Run)
    requires WfStep(s, earlier) && SoundInside(s, p, r)
    requires r'.done == r.done + {p} && r'.iter == r.iter
    requires s.id in r'.status && r'.status == r.status[s.id := r'.status[s.id]] && r'.status[s.id] != Failed
    ensures SoundStep(s, p, r')
  {
    assert SoundInside(s, p, r') by {
      InsideAgree(s, earlier, p, r, r');
    }
  }

  /** `SoundStep` without the clause on the step's own status, and for a loop that is about to be marked done. */
  ghost predicate SoundInside(s: Step, p: Path, r: Run) {
    match s.kind
    case Condition(_, thn, els) => SoundSteps(thn, 0, p, Then, r) && SoundSteps(els, 0, p, Else, r)
    case ForEach(_, _, children) => p in r.iter ==> SoundSteps(children, 0, p, Item(r.iter[p]), r)
    case _ => true
  }

  lemma {:induction false} InsideAgree(s: Step, earlier: set<Id>, p: Path, r: Run, r': Run)
    requires WfStep(s, earlier) && SoundInside(s, p, r)
    requires r'.done == r.done || r'.done == r.done + {p}
    requires r'.iter == r.iter
    requires r'.status == r.status || (s.id in r'.status && r'.status == r.status[s.id := r'.status[s.id]])
    ensures SoundInside(s, p, r')
  {
    match s.kind
    case Condition(_, thn, els) =>
      ScopeAgree(thn, earlier + {s.id}, s.id, p, Then, r, r');
      ScopeAgree(els, earlier + {s.id} + IdsFrom(thn, 0), s.id, p, Else, r, r');
    case ForEach(_, _, children) =>
      if p in r.iter {
        ScopeAgree(children, earlier + {s.id}, s.id, p, Item(r.iter[p]), r, r');
      }
    case _ =>
  }

  lemma {:induction false} ScopeAgree(steps: seq<Step>, earlier: set<Id>, id: Id, p: Path, via: Via, r: Run, r': Run)
    requires WfSteps(steps, 0, earlier) && id in earlier && SoundSteps(steps, 0, p, via, r)
    requires r'.done == r.done || r'.done == r.done + {p}
    requires r'.iter == r.iter || r'.iter == r.iter - {p} || (p in r'.iter && r'.iter == r.iter[p := r'.iter[p]])
    requires r'.status == r.status || (id in r'.status && r'.status == r.status[id := r'.status[id]])
    ensures SoundSteps(steps, 0, p, via, r')
  {
    WfStepsAreNew(steps, 0, earlier);
    assert Agree(r, r', IdsFrom(steps, 0), Scope(p, via, Heads(steps, 0)));
    SoundStepsAgree(steps, 0, p, via, r, r');
  }

  lemma {:induction false} StepSound(w: World, m: Mode, s: Step, earlier: set<Id>, p: Path, loop: Loop, r: Run)
    requires WfStep(s, earlier) && SoundStep(s, p, r) && p !in r.done
    ensures var (r', o) := ExecStep(w, m, s, p, loop, r);
            && (o.Completed? ==> SoundStep(s, p, MarkDone(r', p)))
            && (o.Aborted? || o.Parked? ==> SoundStep(s, p, r'))
    decreases s, 1, 0
  {
    hide ExecBody, WfStep, SoundStep, SoundInside, Framed, Agree;
    var r0 := r.(rows := r.rows[p := RowRunning]);
    SoundStepAgree(s, p, r, r0) by {
      AgreeSame(r, r0, StepIds(s), Below(p));
    }
    BodySound(w, m, s, earlier, p, loop, r0);
    BodyFramed(w, m, s, p, loop, r0);
    var (r1, o) := ExecBody(w, m, s, p, loop, r0);
    var r2 := RecordOutcome(r1, s.id, p, o);
    if o.Completed? {
      MarkSound(s, earlier, p, r1, MarkDone(r2, p));
    } else if !o.Crashed? {
      RecordSound(s, earlier, p, r1, r2);
    }
  }

  /** Recording a status for a step that is not done keeps the invariant. */
  lemma RecordSound(s: Step, earlier: set<Id>, p: Path, r: Run, r': Run)
    requires WfStep(s, earlier) && SoundStep(s, p, r) && p !in r.done && r'.done == r.done && r'.iter == r.iter
    requires r'.status == r.status || (s.id in r'.status && r'.status == r.status[s.id := r'.status[s.id]])
    ensures SoundStep(s, p, r')
  {
    hide WfStep, SoundSteps, UntouchedFrom;
    InsideAgree(s, earlier, p, r, r');
    SameUntouched(r, r', p);
  }

  lemma SameUntouched(r: Run, r': Run, p: Path)
    requires r'.done == r.done && r'.iter == r.iter
    ensures forall n: nat {:trigger UntouchedFrom(r', p, n)} :: UntouchedFrom(r, p, n) ==> UntouchedFrom(r', p, n)
  {
    forall n: nat | UntouchedFrom(r, p, n) ensures UntouchedFrom(r', p, n) {
      forall j: nat | j >= n ensures Untouched(r', p, Item(j)) {
        assert Untouched(r, p, Item(j));
      }
    }
  }

  lemma {:induction false} BodySound(w: World, m: Mode, s: Step, earlier: set<Id>, p: Path, loop: Loop, r: Run)
    requires WfStep(s, earlier) && SoundStep(s, p, r) && p !in r.done
    ensures var (r', o) := ExecBody(w, m, s, p, loop, r);
            && (!o.Crashed? ==> SoundInside(s, p, r'))
            && (o.Aborted? || o.Parked? ==> SoundStep(s, p, r'))
    decreases s, 0, 0
  {
    hide ExecCondition, ExecForEach;
    if s.kind.Condition? {
      ConditionSound(w, m, s, earlier, p, loop, r);
    } else if s.kind.ForEach? {
      ForEachSound(w, m, s, earlier, p, loop, r);
    } else {
      PlainFramed(w, m, s, p, loop, r);
    }
  }

  lemma {:induction false} ConditionSound(w: World, m: Mode, s: Step, earlier: set<Id>, p: Path, loop: Loop, r: Run)
    requires s.kind.Condition? && WfStep(s, earlier) && SoundStep(s, p, r) && p !in r.done
    ensures var (r', o) := ExecCondition(w, m, s.id, s.kind, p, loop, r);
            !o.Crashed? ==> SoundStep(s, p, r')
    decreases s.kind, 1
  {
    hide Agree, Framed, BranchOutput, Output, ViewOf, ExecSteps, SoundSteps, WfSteps, IdsFrom;
    var c := s.kind;
    var (r', o) := ExecCondition(w, m, s.id, c, p, loop, r);
    var e := c.when.eval(ViewOf(r, c.when.uses), loop);
    if e.Ok? && !o.Crashed? {
      var t := IsTruthy(e.value);
      var branch, via := if t then c.thn else c.els, if t then Then else Else;
      if |branch| == 0 {
        AgreeSame(r, r', StepIds(s), Below(p));
        SoundStepAgree(s, p, r, r');
      } else {
        var r1 := ExecSteps(w, m, branch, 0, p, via, loop, r, NO_FLAGS).0;
        BranchSound(w, m, s, earlier, p, loop, r, t);
        AgreeSame(r1, r', StepIds(s), Below(p));
        SoundStepAgree(s, p, r1, r');
      }
    }
  }

  lemma {:induction false} BranchSound(w: World, m: Mode, s: Step, earlier: set<Id>, p: Path, loop: Loop, r: Run, t: bool)
    requires s.kind.Condition? && WfStep(s, earlier) && SoundStep(s, p, r) && p !in r.done
    ensures var branch, via := if t then s.kind.thn else s.kind.els, if t then Then else Else;
            var (r1, o) := ExecSteps(w, m, branch, 0, p, via, loop, r, NO_FLAGS);
            !o.Crashed? ==> SoundStep(s, p, r1)
    decreases s.kind, 0
  {
    hide Agree, Framed, ExecSteps, SoundSteps, WfSteps, IdsFrom, Heads;
    var c := s.kind;
    var branch, via := if t then c.thn else c.els, if t then Then else Else;
    var other, via' := if t then c.els else c.thn, if t then Else else Then;
    var earlier' := if t then earlier + {s.id} else earlier + {s.id} + IdsFrom(c.thn, 0);
    var r1 := ExecSteps(w, m, branch, 0, p, via, loop, r, NO_FLAGS).0;
    StepsSound(w, m, branch, 0, earlier', p, via, loop, r, NO_FLAGS);
    StepsFramed(w, m, branch, 0, p, via, loop, r, NO_FLAGS);
    NoMarkOutside(r, r1, IdsFrom(branch, 0), p, via, Heads(branch, 0));
    WfStepsAreNew(c.els, 0, earlier + {s.id} + IdsFrom(c.thn, 0));
    OtherScope(other, p, via', r, r1, IdsFrom(branch, 0), via, Heads(branch, 0));
  }

  /** A walk in one scope under `p` leaves the invariant of another scope under `p` alone. */
  lemma OtherScope(steps: seq<Step>, p: Path, via: Via, r: Run, r': Run, ids: set<Id>, via': Via, heads: set<Id>)
    requires SoundSteps(steps, 0, p, via, r) && via != via'
    requires Framed(r, r', ids, Scope(p, via', heads)) && ids !! IdsFrom(steps, 0)
    ensures SoundSteps(steps, 0, p, via, r')
  {
    FramedAgree(r, r', ids, Scope(p, via', heads), IdsFrom(steps, 0), Scope(p, via, Heads(steps, 0)));
    hide Agree, Framed;
    SoundStepsAgree(steps, 0, p, via, r, r');
  }

  /** Before iteration `i`: what is recorded of it is sound, and nothing is recorded of later ones. */
  ghost predicate ItemReady(children: seq<Step>, p: Path, i: nat, r: Run) {
    SoundSteps(children, 0, p, Item(i), r) && UntouchedFrom(r, p, i + 1)
  }

  /** No iteration counts as executed without counting as succeeded. */
  predicate AccOk(acc: LoopAcc) {
    acc.anyExecuted ==> acc.anySucceeded
  }

  lemma EnterLoop(children: seq<Step>, p: Path, r: Run)
    requires SoundLoop(children, p, r) && p !in r.done
    ensures ItemReady(children, p, StartIndex(r, p), r)
  {
    if p !in r.iter {
      assert Untouched(r, p, Item(0));
      UntouchedSound(children, 0, p, Item(0), r);
    }
  }

  lemma {:induction false} ForEachSound(w: World, m: Mode, s: Step, earlier: set<Id>, p: Path, loop: Loop, r: Run)
    requires s.kind.ForEach? && WfStep(s, earlier) && SoundStep(s, p, r) && p !in r.done
    ensures var (r', o) := ExecForEach(w, m, s.id, s.kind, p, loop, r);
            && (!o.Crashed? ==> SoundInside(s, p, r'))
            && (o.Aborted? || o.Parked? ==> SoundStep(s, p, r'))
    decreases s.kind, 0, 0
  {
    hide Agree, Framed, UntouchedFrom, LoopOutput, Bounded, ViewOf, ExecItems, IdsFrom, WfSteps, SoundSteps, In;
    var c := s.kind;
    var (r', o) := ExecForEach(w, m, s.id, c, p, loop, r);
    var e := c.over.eval(ViewOf(r, c.over.uses), loop);
    if e.Ok? {
      if e.value.Arr? {
        var items := Bounded(e.value.items, c.limit);
        var dropped := |e.value.items| - |items|;
        EnterLoop(c.children, p, r);
        ItemsSound(w, m, c.children, earlier + {s.id}, items, StartIndex(r, p), s.id, dropped, p, loop, r, LOOP_START);
        ItemsFramed(w, m, c.children, items, StartIndex(r, p), s.id, dropped, p, loop, r, LOOP_START);
        var (r1, acc, o1) := ExecItems(w, m, c.children, items, StartIndex(r, p), s.id, dropped, p, loop, r, LOOP_START);
        if o1.Completed? {
          AgreeSame(r1, r', IdsFrom(c.children, 0), Below(p));
          if p in r1.iter {
            SoundScopeAgree(c.children, p, Item(r1.iter[p]), r1, r', IdsFrom(c.children, 0));
          }
        }
      } else {
        AgreeSame(r, r', StepIds(s), Below(p));
        SoundStepAgree(s, p, r, r');
      }
    }
  }

  lemma {:induction false} ItemsSound(w: World, m: Mode, children: seq<Step>, earlier: set<Id>, items: seq<Value>, i: nat, id: Id,
                                      dropped: nat, p: Path, loop: Loop, r: Run, acc: LoopAcc)
    requires WfSteps(children, 0, earlier) && id in earlier && p !in r.done && ItemReady(children, p, i, r) && AccOk(acc)
    requires p in r.iter ==> r.iter[p] == i
    ensures var (r', acc', o) := ExecItems(w, m, children, items, i, id, dropped, p, loop, r, acc);
            && AccOk(acc')
            && (o.Completed? && p in r'.iter ==> SoundSteps(children, 0, p, Item(r'.iter[p]), r'))
            && (o.Aborted? || o.Parked? ==> SoundLoop(children, p, r'))
    decreases children, 1, |items| - i
  {
    hide Agree, Framed, UntouchedFrom, LoopOutput, VerdictOf, ExecSteps, IdsFrom, Heads, SoundSteps, WfSteps, In;
    if i < |items| {
      var (r', acc', o') := ExecItems(w, m, children, items, i, id, dropped, p, loop, r, acc);
      var r0 := r.(iter := r.iter[p := i]);
      ScopeAgree(children, earlier, id, p, Item(i), r, r0);
      StepsSound(w, m, children, 0, earlier, p, Item(i), InLoop(items[i], i, loop), r0, NO_FLAGS);
      StepsFramed(w, m, children, 0, p, Item(i), InLoop(items[i], i, loop), r0, NO_FLAGS);
      var (r1, o) := ExecSteps(w, m, children, 0, p, Item(i), InLoop(items[i], i, loop), r0, NO_FLAGS);
      NoMarkOutside(r0, r1, IdsFrom(children, 0), p, Item(i), Heads(children, 0));
      LaterUntouched(r, r0, r1, p, i, IdsFrom(children, 0), Heads(children, 0));
      if o.Completed? {
        var r2 := r1.(iter := r1.iter - {p});
        var v := VerdictOf(children, |children|, p, i, r1);
        VerdictSound(children, |children|, p, i, r1);
        NextReady(children, p, i, r1);
        ItemsSound(w, m, children, earlier, items, i + 1, id, dropped, p, loop, r2, LoopStep(acc, v, children, o.flags));
      } else if !o.Crashed? {
        AgreeSame(r1, r', IdsFrom(children, 0), Below(p));
        assert SoundLoop(children, p, r1);
        SoundLoopAgree(children, p, r1, r', IdsFrom(children, 0));
      }
    }
  }

  lemma LaterUntouched(r: Run, r0: Run, r1: Run, p: Path, i: nat, ids: set<Id>, heads: set<Id>)
    requires UntouchedFrom(r, p, i + 1) && r0 == r.(iter := r.iter[p := i])
    requires Framed(r0, r1, ids, Scope(p, Item(i), heads))
    ensures UntouchedFrom(r1, p, i + 1)
  {
    forall j: nat | j >= i + 1 ensures Untouched(r1, p, Item(j)) {
      forall q: Path | Inside(q, p, Item(j)) ensures q !in r1.done && q !in r1.iter {
        assert Untouched(r, p, Item(j));
        assert !In(q, Scope(p, Item(i), heads));
        assert SameCursor(r0, r1, q);
      }
    }
  }

  lemma NextReady(children: seq<Step>, p: Path, i: nat, r: Run)
    requires UntouchedFrom(r, p, i + 1)
    ensures ItemReady(children, p, i + 1, r.(iter := r.iter - {p}))
  {
    var r2 := r.(iter := r.iter - {p});
    forall j: nat | j >= i + 1 ensures Untouched(r2, p, Item(j)) {
      assert Untouched(r, p, Item(j));
    }
    assert Untouched(r2, p, Item(i + 1));
    UntouchedSound(children, 0, p, Item(i + 1), r2);
  }

  lemma SoundChild(steps: seq<Step>, k: nat, j: nat, parent: Path, via: Via, r: Run)
    requires k <= j < |steps| && SoundSteps(steps, k, parent, via, r)
    ensures Child(parent, via, steps[j].id) in r.done ==> StatusOk(r, steps[j].id)
    decreases j - k
  {
    if k < j {
      SoundChild(steps, k + 1, j, parent, via, r);
    }
  }

  /** An iteration with an attempted child has a succeeded one: `failed` entries never come from a swallowed failure. */
  lemma {:induction false} VerdictSound(children: seq<Step>, n: nat, p: Path, i: nat, r: Run)
    requires n <= |children| && SoundSteps(children, 0, p, Item(i), r)
    ensures VerdictOf(children, n, p, i, r).attempted <==> VerdictOf(children, n, p, i, r).succeeded
  {
    if n > 0 {
      VerdictSound(children, n - 1, p, i, r);
      SoundChild(children, 0, n - 1, p, Item(i), r);
    }
  }
}
