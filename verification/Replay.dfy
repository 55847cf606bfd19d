/**
 * A step that failed under `on_error: continue` is not marked done, so every job that re-enters its list runs it
 * again. Run again, it fails again and changes nothing, the outputs of the loops in it aside.
 */
module Replay {
  import opened Prelude
  import opened Values
  import opened Workflow
  import opened Executor
  import opened WellFormed
  import opened Soundness
  import opened Parking

  /** All ids that the expressions of these steps and their descendants read. */
  function UsesFrom(steps: seq<Step>, k: nat): set<Id>
    requires k <= |steps|
    decreases steps, |steps| - k
  {
    if k == |steps| then {} else AllUses(steps[k]) + UsesFrom(steps, k + 1)
  }

  function AllUses(s: Step): set<Id>
    decreases s, 0
  {
    Uses(s) + match s.kind
              case Condition(_, thn, els) => UsesFrom(thn, 0) + UsesFrom(els, 0)
              case ForEach(_, _, children) => UsesFrom(children, 0)
              case _ => {}
  }

  /**
   * Running the step again is harmless: the loops in it are hidden, because a loop that is entered again starts its
   * `results` afresh, and no step reads the status of a condition it lies in, which is `failed` by then.
   */
  ghost predicate Rerunnable(hidden: set<Id>, s: Step)
    decreases s, 0
  {
    match s.kind
    case Condition(_, thn, els) =>
      && s.id !in UsesFrom(thn, 0) + UsesFrom(els, 0)
      && RerunnableSteps(hidden, thn, 0) && RerunnableSteps(hidden, els, 0)
    case ForEach(_, _, children) => s.id in hidden && RerunnableSteps(hidden, children, 0)
    case _ => true
  }

  ghost predicate RerunnableSteps(hidden: set<Id>, steps: seq<Step>, k: nat)
    requires k <= |steps|
    decreases steps, |steps| - k
  {
    k == |steps| || (Rerunnable(hidden, steps[k]) && RerunnableSteps(hidden, steps, k + 1))
  }

  /** The decision makes the approval fail. */
  predicate Refuses(d: Decision, abort: bool) {
    d.Rejected? || (d.TimedOut? && abort)
  }

  predicate InstanceOf(q: Path, id: Id) {
    |q| > 0 && q[|q| - 1].id == id
  }

  /** The step is or contains an approval that is refused in one of its instances. */
  ghost predicate MayRefuse(w: World, s: Step)
    decreases s, 0
  {
    match s.kind
    case Approval(_, abort) => exists q: Path :: InstanceOf(q, s.id) && Refuses(w.decision(q), abort)
    case Condition(_, thn, els) => MayRefuseAny(w, thn, 0) || MayRefuseAny(w, els, 0)
    case ForEach(_, _, children) => MayRefuseAny(w, children, 0)
    case _ => false
  }

  ghost predicate MayRefuseAny(w: World, steps: seq<Step>, k: nat)
    requires k <= |steps|
    decreases steps, |steps| - k
  {
    k < |steps| && (MayRefuse(w, steps[k]) || MayRefuseAny(w, steps, k + 1))
  }

  /** The walk to be repeated and the one that repeats it: uninterrupted, or a job without a crash after another job. */
  predicate Retraces(m: Mode, m': Mode) {
    m'.Uninterrupted? || (m.Segment? && m'.crash.None?)
  }

  /** `r'` still shows what `r` recorded for these steps in this region, the outputs of `hidden` steps aside. */
  ghost predicate Intact(hidden: set<Id>, r: Run, r': Run, ids: set<Id>, g: Region) {
    && Agree(r, r', ids, g)
    && (forall id {:trigger SameOutput(r, r', id)} :: id in ids && id !in hidden ==> SameOutput(r, r', id))
  }

  /** An approval that was pending and answered in `r` is so in `b`. */
  predicate Echo(m: Mode, r: Run, b: Run)
    requires m.Segment?
  {
    r.approval.Some? ==> b.approval == r.approval && m.ready(r.approval.value)
  }

  /**
   * What becomes of the pending parks when the walk from `r` to `x` is repeated from `b` to `y`: either it ends as
   * before, or the job parks on the approval that was refused the first time and is no longer pending.
   */
  predicate Slots(m: Mode, refused: bool, r: Run, x: Run, b: Run, y: Run, o': Outcome) {
    m.Segment? ==>
      && y.delay == b.delay
      && if o'.Parked? then refused && !Echo(m, r, b) && o'.paused && r.approval == Some(o'.at) && y.approval == r.approval
         else if refused && r.approval.Some? && Echo(m, r, b) then Echo(m, x, y)
         else y.approval == b.approval
  }

  /** The repeated walk fails with the same error or waits for a refused approval, and moves nothing else. */
  ghost predicate Replayed(hidden: set<Id>, m: Mode, refused: bool, r: Run, x: Run, b: Run, y: Run, o: Outcome, o': Outcome) {
    && Alike(hidden, b, y) && Slots(m, refused, r, x, b, y, o')
    && if o'.Parked? then m.Segment? else o' == o
  }

  lemma ReplayedSelf(hidden: set<Id>, m: Mode, refused: bool, r: Run, x: Run, b: Run, o: Outcome)
    requires Passed(r, x) && o.Aborted?
    ensures Replayed(hidden, m, refused, r, x, b, b, o, o)
  {
    RowsUnseen(hidden, b, b);
  }

  /** The repeated walk, seen from further back: the part before it is already done. */
  lemma ReplayedWiden(hidden: set<Id>, m: Mode, inner: bool, refused: bool, r: Run, r1: Run, x: Run, b: Run, y: Run, o: Outcome,
                      o': Outcome)
    requires Passed(r, r1) && Passed(r1, x) && (inner ==> refused) && Replayed(hidden, m, inner, r1, x, b, y, o, o')
    ensures Replayed(hidden, m, refused, r, x, b, y, o, o')
  {
    hide Alike;
  }

  /** One repeated part after another. */
  lemma ReplayedChain(hidden: set<Id>, m: Mode, first: bool, second: bool, r: Run, r1: Run, x: Run, b: Run, y1: Run, y: Run,
                      o1: Outcome, o1': Outcome, o: Outcome, o': Outcome)
    requires Passed(r, r1) && Passed(r1, x)
    requires Replayed(hidden, m, first, r, r1, b, y1, o1, o1') && !o1'.Parked?
    requires Replayed(hidden, m, second, r1, x, y1, y, o, o')
    ensures Replayed(hidden, m, first || second, r, x, b, y, o, o')
  {
    AlikeTrans(hidden, b, y1, y);
    hide Alike;
  }

  lemma IntactView(hidden: set<Id>, r: Run, r': Run, ids: set<Id>, g: Region, uses: set<Id>)
    requires Intact(hidden, r, r', ids, g) && uses <= ids && uses !! hidden
    ensures ViewOf(r, uses) == ViewOf(r', uses)
  {
    assert forall id :: id in uses ==> SameOutput(r, r', id) && SameStatus(r, r', id);
  }

  /** An expression is evaluated again in the view it was evaluated in. */
  lemma ViewAgain(hidden: set<Id>, r: Run, x: Run, b: Run, own: set<Id>, g: Region, ids: set<Id>, g': Region, uses: set<Id>)
    requires Framed(r, x, own, g) && own !! uses && Intact(hidden, x, b, ids, g') && uses <= ids && uses !! hidden
    ensures ViewOf(r, uses) == ViewOf(b, uses)
  {
    FramedView(r, x, own, g, uses);
    IntactView(hidden, x, b, ids, g', uses);
  }

  lemma FramedIntact(hidden: set<Id>, r: Run, r': Run, own: set<Id>, g: Region, ids: set<Id>, g': Region)
    requires Framed(r, r', own, g) && own !! ids
    requires forall q: Path {:trigger In(q, g)} :: In(q, g) ==> !In(q, g')
    ensures Intact(hidden, r, r', ids, g')
  {
    FramedAgree(r, r', own, g, ids, g');
    forall id | id in ids ensures SameOutput(r, r', id) {
      assert SameId(r, r', id);
    }
  }

  lemma IntactTrans(hidden: set<Id>, a: Run, b: Run, c: Run, ids: set<Id>, g: Region)
    requires Intact(hidden, a, b, ids, g) && Intact(hidden, b, c, ids, g)
    ensures Intact(hidden, a, c, ids, g)
  {
    forall id | id in ids ensures SameStatus(a, c, id) {
      assert SameStatus(a, b, id) && SameStatus(b, c, id);
    }
    forall id | id in ids && id !in hidden ensures SameOutput(a, c, id) {
      assert SameOutput(a, b, id) && SameOutput(b, c, id);
    }
    forall q | In(q, g) ensures SameMark(a, c, q) {
      assert SameMark(a, b, q) && SameMark(b, c, q);
    }
  }

  lemma IntactShrink(hidden: set<Id>, r: Run, r': Run, ids: set<Id>, g: Region, ids1: set<Id>, g1: Region)
    requires Intact(hidden, r, r', ids, g) && ids1 <= ids && Within(g1, g)
    ensures Intact(hidden, r, r', ids1, g1)
  {
    AgreeShrink(r, r', ids, g, ids1, g1);
  }

  lemma AlikeIntact(hidden: set<Id>, a: Run, b: Run, ids: set<Id>, g: Region)
    requires Alike(hidden, a, b)
    ensures Intact(hidden, a, b, ids, g)
  {
  }

  /** The step rows, the outbox and the pending park are not compared. */
  lemma RowsUnseen(hidden: set<Id>, a: Run, b: Run)
    requires b == a.(rows := b.rows, outbox := b.outbox, delay := b.delay, approval := b.approval)
    ensures Alike(hidden, a, b)
  {
  }

  /** An output written again is the one already there, or hidden. */
  lemma AlikeSetAgain(hidden: set<Id>, r: Run, y: Run, id: Id, v: Value)
    requires Alike(hidden, r, y) && (id !in hidden ==> id in r.outputs && r.outputs[id] == v)
    ensures Alike(hidden, r, SetOutput(y, id, v))
  {
    forall x | x !in hidden ensures SameOutput(r, SetOutput(y, id, v), x) {
      assert SameOutput(r, y, x);
    }
  }

  lemma FramedDone(r: Run, r': Run, ids: set<Id>, g: Region)
    requires Framed(r, r', ids, g)
    ensures r.done <= r'.done && (r.runFailed ==> r'.runFailed)
  {
  }

  lemma MarkOf(hidden: set<Id>, r: Run, r': Run, ids: set<Id>, g: Region, p: Path)
    requires Intact(hidden, r, r', ids, g) && In(p, g)
    ensures p in r.done <==> p in r'.done
    ensures SameCursor(r, r', p)
  {
    assert SameMark(r, r', p);
  }

  // --- Well-formed without the enclosing step ------------------------------------------------

  /** Steps that do not read `x` are well-formed without it. */
  lemma {:induction false} WfWithout(steps: seq<Step>, k: nat, earlier: set<Id>, x: Id)
    requires k <= |steps| && WfSteps(steps, k, earlier) && x !in UsesFrom(steps, k) && x in earlier
    ensures WfSteps(steps, k, earlier - {x})
    decreases steps, |steps| - k
  {
    if k < |steps| {
      var s := steps[k];
      WfStepIsNew(s, earlier);
      WfStepWithout(s, earlier, x);
      WfWithout(steps, k + 1, earlier + StepIds(s), x);
      assert earlier + StepIds(s) - {x} == earlier - {x} + StepIds(s);
    }
  }

  lemma {:induction false} WfStepWithout(s: Step, earlier: set<Id>, x: Id)
    requires WfStep(s, earlier) && x !in AllUses(s) && x in earlier
    ensures WfStep(s, earlier - {x})
    decreases s, 0
  {
    match s.kind
    case Condition(_, thn, els) =>
      WfStepIsNew(s, earlier);
      WfWithout(thn, 0, earlier + {s.id}, x);
      WfWithout(els, 0, earlier + {s.id} + IdsFrom(thn, 0), x);
      assert earlier + {s.id} - {x} == earlier - {x} + {s.id};
      assert earlier + {s.id} + IdsFrom(thn, 0) - {x} == earlier - {x} + {s.id} + IdsFrom(thn, 0);
    case ForEach(_, _, children) =>
      WfWithout(children, 0, earlier + {s.id}, x);
      assert earlier + {s.id} - {x} == earlier - {x} + {s.id};
    case _ =>
  }

  lemma {:induction false} HiddenUnread(hidden: set<Id>, steps: seq<Step>, k: nat)
    requires k <= |steps| && HidesSteps(hidden, steps, k)
    ensures UsesFrom(steps, k) !! hidden
    decreases steps, |steps| - k
  {
    if k < |steps| {
      match steps[k].kind {
        case Condition(_, thn, els) =>
          HiddenUnread(hidden, thn, 0);
          HiddenUnread(hidden, els, 0);
        case ForEach(_, _, children) => HiddenUnread(hidden, children, 0);
        case _ =>
      }
      HiddenUnread(hidden, steps, k + 1);
    }
  }

  // --- A failed walk is repeated -------------------------------------------------------------

  lemma GateAgain(hidden: set<Id>, s: Step, earlier: set<Id>, loop: Loop, r: Run, x: Run, b: Run, own: set<Id>, g: Region,
                  ids: set<Id>, g': Region)
    requires WfStep(s, earlier) && HidesStep(hidden, s) && Framed(r, x, own, g) && own !! earlier
    requires Intact(hidden, x, b, ids, g') && earlier <= ids
    ensures Gate(s, r, loop) == Gate(s, b, loop)
  {
    if s.gate.Some? {
      ViewAgain(hidden, r, x, b, own, g, ids, g', s.gate.value.uses);
    }
  }

  /** The steps from `k` on left their list with an error from `r`; from a state that still shows it, they do so again. */
  lemma {:induction false} StepsReplay(w: World, m: Mode, m': Mode, hidden: set<Id>, steps: seq<Step>, k: nat, earlier: set<Id>,
                                       parent: Path, via: Via, loop: Loop, r: Run, b: Run, acc: Flags, acc': Flags)
    requires k <= |steps| && WfSteps(steps, k, earlier) && HidesSteps(hidden, steps, k) && SoundSteps(steps, k, parent, via, r)
    requires RerunnableSteps(hidden, steps, k) && Retraces(m, m') && via != Top
    requires var (x, o) := ExecSteps(w, m, steps, k, parent, via, loop, r, acc);
             o.Aborted? && Intact(hidden, x, b, earlier + IdsFrom(steps, k), Scope(parent, via, Heads(steps, k)))
    ensures var (x, o) := ExecSteps(w, m, steps, k, parent, via, loop, r, acc);
            var (y, o') := ExecSteps(w, m', steps, k, parent, via, loop, b, acc');
            Replayed(hidden, m', MayRefuseAny(w, steps, k), r, x, b, y, o, o')
    decreases steps, 0, |steps| - k, 2
  {
    hide Replayed, Passed, Intact, Alike, Framed, Agree, ExecStep, ViewOf, SoundStep, WfStep, HidesStep, Rerunnable, Gate, StepIds,
         Within, MayRefuse;
    var ids, g := IdsFrom(steps, k), Scope(parent, via, Heads(steps, k));
    var (x, o0) := ExecSteps(w, m, steps, k, parent, via, loop, r, acc);
    StepsFinish(w, m, steps, k, parent, via, loop, r, acc);
    ReplayedSelf(hidden, m', MayRefuseAny(w, steps, k), r, x, b, o0);
    if k < |steps| {
      var s := steps[k];
      var p := Child(parent, via, s.id);
      StepsFramed(w, m, steps, k, parent, via, loop, r, acc);
      WfStepsAreNew(steps, k, earlier);
      GateAgain(hidden, s, earlier, loop, r, x, b, ids, g, earlier + ids, g);
      ScopeShrinks(steps, k, parent, via);
      BelowIn(p, g);
      MarkOf(hidden, x, b, earlier + ids, g, p);
      FramedDone(r, x, ids, g);
      var open := Gate(s, r, loop);
      if open.Ok? {
        if !open.value {
          var r1 := SkipStep(r, s.id, p);
          SkipSound(s, earlier, p, r);
          SkipFramed(s, p, r);
          SkipPasses(r, s.id, p);
          TailReplay(w, m, m', hidden, steps, k, earlier, parent, via, loop, r, r1, b, acc, acc');
        } else if p in r.done {
          FramedSelf(r, StepIds(s), Below(p));
          SkipPasses(r, s.id, p);
          TailReplay(w, m, m', hidden, steps, k, earlier, parent, via, loop, r, r, b, acc, acc');
        } else {
          var (r1, o) := ExecStep(w, m, s, p, loop, r);
          StepFramed(w, m, s, p, loop, r);
          StepSound(w, m, s, earlier, p, loop, r);
          if o.Completed? {
            var r2 := MarkDone(r1, p);
            LocalAfter(r, r1, r2, StepIds(s), s.id, p);
            StepFinish(w, m, s, p, loop, r);
            MarkPasses(r, r1, p);
            TailReplay(w, m, m', hidden, steps, k, earlier, parent, via, loop, r, r2, b, acc.(anySuccess := true), acc');
          } else {
            HeadReplay(w, m, m', hidden, steps, k, earlier, parent, via, loop, r, r1, b, acc, acc');
          }
        }
      }
    }
  }

  lemma SkipPasses(r: Run, id: Id, p: Path)
    ensures Passed(r, SkipStep(r, id, p)) && Passed(r, r)
  {
  }

  lemma MarkPasses(r: Run, r1: Run, p: Path)
    requires Passed(r, r1)
    ensures Passed(r, MarkDone(r1, p))
  {
  }

  lemma BelowIn(p: Path, g: Region)
    requires Within(Below(p), g)
    ensures In(p, g)
  {
    assert In(p, Below(p));
  }

  /** Step `k` is skipped or marked done in both walks. */
  lemma {:induction false} TailReplay(w: World, m: Mode, m': Mode, hidden: set<Id>, steps: seq<Step>, k: nat, earlier: set<Id>,
                                      parent: Path, via: Via, loop: Loop, r: Run, r1: Run, b: Run, acc: Flags, acc': Flags)
    requires k < |steps| && WfSteps(steps, k, earlier) && HidesSteps(hidden, steps, k) && SoundSteps(steps, k, parent, via, r)
    requires RerunnableSteps(hidden, steps, k) && Retraces(m, m') && via != Top && Passed(r, r1)
    requires var p := Child(parent, via, steps[k].id);
             p in r1.done && SoundStep(steps[k], p, r1) && Framed(r, r1, StepIds(steps[k]), Below(p))
    requires var (x, o) := ExecSteps(w, m, steps, k + 1, parent, via, loop, r1, acc);
             o.Aborted? && Intact(hidden, x, b, earlier + IdsFrom(steps, k), Scope(parent, via, Heads(steps, k)))
    ensures var (x, o) := ExecSteps(w, m, steps, k + 1, parent, via, loop, r1, acc);
            var (y, o') := ExecSteps(w, m', steps, k + 1, parent, via, loop, b, acc');
            && Replayed(hidden, m', MayRefuseAny(w, steps, k), r, x, b, y, o, o')
            && Child(parent, via, steps[k].id) in b.done
    decreases steps, 0, |steps| - k, 0
  {
    hide Replayed, Passed, Intact, Alike, Framed, Agree, ExecStep, ExecSteps, SoundStep, WfStep, HidesStep, Rerunnable, StepIds, Within,
         MayRefuse;
    var s := steps[k];
    var p, g := Child(parent, via, s.id), Scope(parent, via, Heads(steps, k));
    var (x, o) := ExecSteps(w, m, steps, k + 1, parent, via, loop, r1, acc);
    ScopeShrinks(steps, k, parent, via);
    BelowIn(p, g);
    MarkOf(hidden, x, b, earlier + IdsFrom(steps, k), g, p);
    StepsFramed(w, m, steps, k + 1, parent, via, loop, r1, acc);
    StepsFinish(w, m, steps, k + 1, parent, via, loop, r1, acc);
    FramedDone(r1, x, IdsFrom(steps, k + 1), Scope(parent, via, Heads(steps, k + 1)));
    TailSound(w, m, steps, k, earlier, parent, via, loop, r, r1, acc);
    assert earlier + StepIds(s) + IdsFrom(steps, k + 1) == earlier + IdsFrom(steps, k);
    IntactShrink(hidden, x, b, earlier + IdsFrom(steps, k), g, earlier + IdsFrom(steps, k),
                 Scope(parent, via, Heads(steps, k + 1)));
    StepsReplay(w, m, m', hidden, steps, k + 1, earlier + StepIds(s), parent, via, loop, r1, b, acc, acc');
    var (y, o') := ExecSteps(w, m', steps, k + 1, parent, via, loop, b, acc');
    ReplayedWiden(hidden, m', MayRefuseAny(w, steps, k + 1), MayRefuseAny(w, steps, k), r, r1, x, b, y, o, o');
  }

  /** What step `k` left is still there after the steps behind it. */
  lemma HeadIntact(hidden: set<Id>, steps: seq<Step>, k: nat, earlier: set<Id>, parent: Path, via: Via, r: Run, x: Run, b: Run)
    requires k < |steps| && WfSteps(steps, k, earlier)
    requires Framed(r, x, IdsFrom(steps, k + 1), Scope(parent, via, Heads(steps, k + 1)))
    requires Intact(hidden, x, b, earlier + StepIds(steps[k]), Below(Child(parent, via, steps[k].id)))
    ensures Intact(hidden, r, b, earlier + StepIds(steps[k]), Below(Child(parent, via, steps[k].id)))
  {
    hide Intact, Framed;
    var s := steps[k];
    ApartSiblings(steps, k, parent, via, earlier);
    WfStepsAreNew(steps, k + 1, earlier + StepIds(s));
    FramedIntact(hidden, r, x, IdsFrom(steps, k + 1), Scope(parent, via, Heads(steps, k + 1)), earlier + StepIds(s),
                 Below(Child(parent, via, s.id)));
    IntactTrans(hidden, r, x, b, earlier + StepIds(s), Below(Child(parent, via, s.id)));
  }

  /** Step `k` failed in the first walk, and fails again or waits. */
  lemma {:induction false} HeadReplay(w: World, m: Mode, m': Mode, hidden: set<Id>, steps: seq<Step>, k: nat, earlier: set<Id>,
                                      parent: Path, via: Via, loop: Loop, r: Run, r1: Run, b: Run, acc: Flags, acc': Flags)
    requires k < |steps| && WfSteps(steps, k, earlier) && HidesSteps(hidden, steps, k) && SoundSteps(steps, k, parent, via, r)
    requires RerunnableSteps(hidden, steps, k) && Retraces(m, m') && via != Top
    requires var p := Child(parent, via, steps[k].id);
             && p !in r.done && Gate(steps[k], r, loop) == Gate(steps[k], b, loop) == Ok(true)
             && var (x, o) := ExecStep(w, m, steps[k], p, loop, r);
             r1 == x && o.Aborted? && SoundStep(steps[k], p, r1) && Framed(r, r1, StepIds(steps[k]), Below(p))
    requires var (x, o) := ExecSteps(w, m, steps, k, parent, via, loop, r, acc);
             o.Aborted? && Intact(hidden, x, b, earlier + IdsFrom(steps, k), Scope(parent, via, Heads(steps, k)))
    ensures var (x, o) := ExecSteps(w, m, steps, k, parent, via, loop, r, acc);
            var (y, o') := ExecSteps(w, m', steps, k, parent, via, loop, b, acc');
            Replayed(hidden, m', MayRefuseAny(w, steps, k), r, x, b, y, o, o')
    decreases steps, 0, |steps| - k, 1
  {
    hide Replayed, Passed, Intact, Alike, Framed, Agree, ExecStep, ViewOf, SoundStep, WfStep, HidesStep, Rerunnable, Gate, StepIds,
         Within, MayRefuse;
    var s := steps[k];
    var p, g := Child(parent, via, s.id), Scope(parent, via, Heads(steps, k));
    var o1 := ExecStep(w, m, s, p, loop, r).1;
    var (x, o) := ExecSteps(w, m, steps, k, parent, via, loop, r, acc);
    var ids := earlier + IdsFrom(steps, k);
    ScopeShrinks(steps, k, parent, via);
    StepFramed(w, m, s, p, loop, r);
    StepFinish(w, m, s, p, loop, r);
    IntactShrink(hidden, x, b, ids, g, earlier + StepIds(s), Below(p));
    if s.continueOnError {
      StepsFramed(w, m, steps, k + 1, parent, via, loop, r1, SwallowFlags(acc, o1.code, s));
      HeadIntact(hidden, steps, k, earlier, parent, via, r1, x, b);
    }
    assert In(p, Below(p));
    MarkOf(hidden, r1, b, earlier + StepIds(s), Below(p), p);
    StepReplay(w, m, m', hidden, s, earlier, p, loop, r, b);
    var (y, o') := ExecStep(w, m', s, p, loop, b);
    ReplayedEnds(hidden, m', MayRefuse(w, s), r, r1, b, y, o1, o');
    SkipPasses(r, s.id, p);
    if o'.Parked? {
      ReplayedPark(hidden, m', MayRefuse(w, s), MayRefuseAny(w, steps, k), r, r1, x, b, y, o1, o', o, acc'.again);
    } else if s.continueOnError {
      TailSound(w, m, steps, k, earlier, parent, via, loop, r, r1, SwallowFlags(acc, o1.code, s));
      StepsFinish(w, m, steps, k + 1, parent, via, loop, r1, SwallowFlags(acc, o1.code, s));
      AlikeIntactShrink(hidden, x, b, y, ids, g, Scope(parent, via, Heads(steps, k + 1)));
      assert earlier + StepIds(s) + IdsFrom(steps, k + 1) == ids;
      StepsReplay(w, m, m', hidden, steps, k + 1, earlier + StepIds(s), parent, via, loop, r1, y, SwallowFlags(acc, o1.code, s),
                  SwallowFlags(acc', o1.code, s));
      var (z, oz) := ExecSteps(w, m', steps, k + 1, parent, via, loop, y, SwallowFlags(acc', o1.code, s));
      ReplayedChain(hidden, m', MayRefuse(w, s), MayRefuseAny(w, steps, k + 1), r, r1, x, b, y, z, o1, o', o, oz);
    } else {
      ReplayedWiden(hidden, m', MayRefuse(w, s), MayRefuseAny(w, steps, k), r, r, x, b, y, o1, o');
    }
  }

  lemma ReplayedEnds(hidden: set<Id>, m: Mode, refused: bool, r: Run, x: Run, b: Run, y: Run, o: Outcome, o': Outcome)
    requires Replayed(hidden, m, refused, r, x, b, y, o, o')
    ensures Alike(hidden, b, y) && (!o'.Parked? ==> o' == o) && (m.Uninterrupted? ==> o' == o)
  {
  }

  /** A part that waits makes the whole wait. */
  lemma ReplayedPark(hidden: set<Id>, m: Mode, inner: bool, refused: bool, r: Run, r1: Run, x: Run, b: Run, y: Run, o1: Outcome,
                     o1': Outcome, o: Outcome, before: seq<Step>)
    requires Replayed(hidden, m, inner, r, r1, b, y, o1, o1') && o1'.Parked? && (inner ==> refused)
    ensures Replayed(hidden, m, refused, r, x, b, y, o, Parked(o1'.at, o1'.paused, before + o1'.again))
  {
    hide Alike;
  }

  lemma AlikeIntactShrink(hidden: set<Id>, x: Run, b: Run, y: Run, ids: set<Id>, g: Region, g1: Region)
    requires Intact(hidden, x, b, ids, g) && Alike(hidden, b, y) && Within(g1, g)
    ensures Intact(hidden, x, y, ids, g1)
  {
    hide Intact, Alike;
    AlikeIntact(hidden, b, y, ids, g);
    IntactTrans(hidden, x, b, y, ids, g);
    IntactShrink(hidden, x, y, ids, g, ids, g1);
  }

  /**
   * A failed step, run again where its failure is still recorded, fails with the same error and moves nothing; or the
   * job waits in it for an approval that was refused.
   */
  lemma {:induction false} StepReplay(w: World, m: Mode, m': Mode, hidden: set<Id>, s: Step, earlier: set<Id>, p: Path, loop: Loop,
                                      r: Run, b: Run)
    requires WfStep(s, earlier) && HidesStep(hidden, s) && SoundStep(s, p, r) && p !in r.done
    requires Rerunnable(hidden, s) && Retraces(m, m') && InstanceOf(p, s.id)
    requires var (x, o) := ExecStep(w, m, s, p, loop, r);
             o.Aborted? && Intact(hidden, x, b, earlier + StepIds(s), Below(p))
    ensures var (x, o) := ExecStep(w, m, s, p, loop, r);
            var (y, o') := ExecStep(w, m', s, p, loop, b);
            Replayed(hidden, m', MayRefuse(w, s), r, x, b, y, o, o')
    decreases s, 1, 0, 0
  {
    hide Replayed, Intact, Alike, Framed, Agree, ExecBody, ViewOf, SoundStep, WfStep, HidesStep, Rerunnable, StepIds, MayRefuse;
    var r0, b0 := r.(rows := r.rows[p := RowRunning]), b.(rows := b.rows[p := RowRunning]);
    var (x, o) := ExecBody(w, m, s, p, loop, r0);
    var r1 := ExecStep(w, m, s, p, loop, r).0;
    SoundStepAgree(s, p, r, r0) by {
      AgreeSame(r, r0, StepIds(s), Below(p));
    }
    WfStepIsNew(s, earlier);
    OwnId(s);
    OwnFailed(hidden, x, r1, b, b0, s.id, earlier + StepIds(s), Below(p));
    BodyReplay(w, m, m', hidden, s, earlier, p, loop, r0, b0);
    var (y, o') := ExecBody(w, m', s, p, loop, b0);
    RecordReplayed(hidden, m', MayRefuse(w, s), r, r0, x, r1, b, b0, y, s.id, p, o, o');
  }

  /** Before the failure of `id` is recorded the walk differs from the later state in the status of `id` alone. */
  lemma OwnFailed(hidden: set<Id>, x: Run, r1: Run, b: Run, b0: Run, id: Id, ids: set<Id>, g: Region)
    requires r1 == MarkStatus(x.(rows := r1.rows), id, Failed) && b0 == b.(rows := b0.rows) && Intact(hidden, r1, b, ids, g)
    requires id in ids
    ensures Intact(hidden, x, b0, ids - {id}, g)
    ensures id in b.status && b.status[id] == Failed
    ensures id !in hidden ==> SameOutput(x, b0, id)
  {
    assert SameStatus(r1, b, id);
    forall i | i in ids - {id} ensures SameStatus(x, b0, i) {
      assert SameStatus(r1, b, i);
    }
    forall i | i in ids && i !in hidden ensures SameOutput(x, b0, i) {
      assert SameOutput(r1, b, i);
    }
    forall q | In(q, g) ensures SameMark(x, b0, q) {
      assert SameMark(r1, b, q);
    }
  }

  lemma RecordReplayed(hidden: set<Id>, m: Mode, refused: bool, r: Run, r0: Run, x: Run, r1: Run, b: Run, b0: Run, y: Run, id: Id,
                       p: Path, o: Outcome, o': Outcome)
    requires r0 == r.(rows := r0.rows) && b0 == b.(rows := b0.rows) && r1 == MarkStatus(x.(rows := r1.rows), id, Failed)
    requires Replayed(hidden, m, refused, r0, x, b0, y, o, o') && o.Aborted?
    requires id in b.status && b.status[id] == Failed
    ensures Replayed(hidden, m, refused, r, r1, b, RecordOutcome(y, id, p, o'), o, o')
  {
    var z := RecordOutcome(y, id, p, o');
    assert b0.status[id := Failed] == b.status;
    AlikeOther(hidden, b0, y, b, z);
    assert z.approval == y.approval && z.delay == y.delay;
    hide Alike, RecordOutcome;
  }

  lemma {:induction false} BodyReplay(w: World, m: Mode, m': Mode, hidden: set<Id>, s: Step, earlier: set<Id>, p: Path, loop: Loop,
                                      r: Run, b: Run)
    requires WfStep(s, earlier) && HidesStep(hidden, s) && SoundStep(s, p, r) && p !in r.done
    requires Rerunnable(hidden, s) && Retraces(m, m') && InstanceOf(p, s.id)
    requires var (x, o) := ExecBody(w, m, s, p, loop, r);
             && o.Aborted? && Intact(hidden, x, b, earlier + StepIds(s) - {s.id}, Below(p))
             && (s.id !in hidden ==> SameOutput(x, b, s.id))
    ensures var (x, o) := ExecBody(w, m, s, p, loop, r);
            var (y, o') := ExecBody(w, m', s, p, loop, b);
            Replayed(hidden, m', MayRefuse(w, s), r, x, b, y, o, o')
    decreases s, 0, 0, 0
  {
    hide Replayed, Intact, Alike, Framed, Agree, ExecCondition, ExecForEach, ViewOf, SoundSteps, WfSteps, HidesSteps, RerunnableSteps,
         MayRefuseAny, SoundLoop, SameOutput, ExecLeaf, ExecEmail, ExecDelay, ExecApproval;
    if s.kind.Condition? {
      ConditionReplay(w, m, m', hidden, s, earlier, p, loop, r, b);
    } else if s.kind.ForEach? {
      ForEachReplay(w, m, m', hidden, s, earlier, p, loop, r, b);
    } else {
      WfStepIsNew(s, earlier);
      PlainReplay(w, m, m', hidden, s, earlier, p, loop, r, b);
    }
  }

  lemma PlainReplay(w: World, m: Mode, m': Mode, hidden: set<Id>, s: Step, earlier: set<Id>, p: Path, loop: Loop, r: Run, b: Run)
    requires !s.kind.Condition? && !s.kind.ForEach? && Uses(s) <= earlier && Uses(s) !! hidden && StepIds(s) !! earlier
    requires Retraces(m, m') && InstanceOf(p, s.id)
    requires var (x, o) := ExecBody(w, m, s, p, loop, r);
             && o.Aborted? && Intact(hidden, x, b, earlier + StepIds(s) - {s.id}, Below(p))
             && (s.id !in hidden ==> SameOutput(x, b, s.id))
    ensures var (x, o) := ExecBody(w, m, s, p, loop, r);
            var (y, o') := ExecBody(w, m', s, p, loop, b);
            Replayed(hidden, m', MayRefuse(w, s), r, x, b, y, o, o')
  {
    hide Intact, Alike, Framed, ViewOf, Replayed, Passed, ExecLeaf, ExecEmail, ExecApproval;
    var (x, o) := ExecBody(w, m, s, p, loop, r);
    PlainFramed(w, m, s, p, loop, r);
    OwnViews(hidden, s, earlier, p, r, x, b);
    PlainFinish(w, m, s, p, loop, r);
    match s.kind
    case Leaf(act) => LeafReplay(hidden, m', MayRefuse(w, s), act, s.id, p, loop, r, b);
    case Reply(act) => LeafReplay(hidden, m', MayRefuse(w, s), act, s.id, p, loop, r, b);
    case Email(message) => EmailReplay(hidden, m', MayRefuse(w, s), message, s.id, p, loop, r, b);
    case Approval(prompt, abort) => ApprovalReplay(w, m, m', hidden, s, p, loop, r, b);
    case Delay(_) => ReplayedSelf(hidden, m', MayRefuse(w, s), r, x, b, o);
  }

  lemma OwnViews(hidden: set<Id>, s: Step, earlier: set<Id>, p: Path, r: Run, x: Run, b: Run)
    requires Framed(r, x, StepIds(s), Below(p)) && Uses(s) <= earlier && Uses(s) !! hidden && StepIds(s) !! earlier
    requires Intact(hidden, x, b, earlier + StepIds(s) - {s.id}, Below(p))
    ensures forall uses {:trigger ViewOf(r, uses)} :: uses <= Uses(s) ==> ViewOf(r, uses) == ViewOf(b, uses)
  {
    hide Framed, Intact, ViewOf;
    forall uses | uses <= Uses(s) ensures ViewOf(r, uses) == ViewOf(b, uses) {
      ViewAgain(hidden, r, x, b, StepIds(s), Below(p), earlier + StepIds(s) - {s.id}, Below(p), uses);
    }
  }

  lemma LeafReplay(hidden: set<Id>, m: Mode, refused: bool, act: Action, id: Id, p: Path, loop: Loop, r: Run, b: Run)
    requires ViewOf(r, act.uses) == ViewOf(b, act.uses)
    requires var (x, o) := ExecLeaf(act, id, p, loop, r);
             o.Aborted? && (id !in hidden ==> SameOutput(x, b, id))
    ensures var (x, o) := ExecLeaf(act, id, p, loop, r);
            var (y, o') := ExecLeaf(act, id, p, loop, b);
            o' == o && Replayed(hidden, m, refused, r, x, b, y, o, o')
  {
    hide Alike, ViewOf;
    RowsUnseen(hidden, b, b);
    match act.run(p, ViewOf(r, act.uses), loop)
    case LeafErr(_, Some(v)) => AlikeSetAgain(hidden, b, b, id, v);
    case _ =>
  }

  lemma EmailReplay(hidden: set<Id>, m: Mode, refused: bool, message: Expr, id: Id, p: Path, loop: Loop, r: Run, b: Run)
    requires ViewOf(r, message.uses) == ViewOf(b, message.uses) && ExecEmail(message, id, p, loop, r).1.Aborted?
    ensures var (x, o) := ExecEmail(message, id, p, loop, r);
            var (y, o') := ExecEmail(message, id, p, loop, b);
            Replayed(hidden, m, refused, r, x, b, y, o, o')
  {
    hide Replayed, ViewOf;
    var (x, o) := ExecEmail(message, id, p, loop, r);
    ReplayedSelf(hidden, m, refused, r, x, b, o);
  }

  lemma ApprovalReplay(w: World, m: Mode, m': Mode, hidden: set<Id>, s: Step, p: Path, loop: Loop, r: Run, b: Run)
    requires s.kind.Approval? && ViewOf(r, s.kind.prompt.uses) == ViewOf(b, s.kind.prompt.uses)
    requires Retraces(m, m') && InstanceOf(p, s.id)
    requires var (x, o) := ExecApproval(w, m, s.kind.prompt, s.kind.abortOnTimeout, s.id, p, loop, r);
             o.Aborted? && (s.id !in hidden ==> SameOutput(x, b, s.id))
    ensures var (x, o) := ExecApproval(w, m, s.kind.prompt, s.kind.abortOnTimeout, s.id, p, loop, r);
            var (y, o') := ExecApproval(w, m', s.kind.prompt, s.kind.abortOnTimeout, s.id, p, loop, b);
            Replayed(hidden, m', MayRefuse(w, s), r, x, b, y, o, o')
  {
    hide Alike, ViewOf, Passed;
    var prompt, abort := s.kind.prompt, s.kind.abortOnTimeout;
    var (x, o) := ExecApproval(w, m, prompt, abort, s.id, p, loop, r);
    RowsUnseen(hidden, b, b);
    if prompt.eval(ViewOf(r, prompt.uses), loop).Ok? {
      assert InstanceOf(p, s.id) && Refuses(w.decision(p), abort);
      assert MayRefuse(w, s);
      RowsUnseen(hidden, b, b.(approval := Some(p)));
      DecidedAgain(hidden, w.decision(p), abort, s.id, r, b);
    }
  }

  lemma DecidedAgain(hidden: set<Id>, d: Decision, abort: bool, id: Id, r: Run, b: Run)
    requires var (x, o) := Decide(d, abort, id, r);
             o.Aborted? && (id !in hidden ==> SameOutput(x, b, id))
    ensures var (x, o) := Decide(d, abort, id, r);
            var (y, o') := Decide(d, abort, id, b);
            o' == o && Alike(hidden, b, y) && y.delay == b.delay && (b.approval == r.approval ==> y.approval == x.approval)
  {
    hide Alike;
    RowsUnseen(hidden, b, b);
    RowsUnseen(hidden, b, b.(approval := None));
    AlikeSetAgain(hidden, b, b, id, d.output);
    AlikeSetAgain(hidden, b, b.(approval := None), id, d.output);
  }

  lemma {:induction false} ConditionReplay(w: World, m: Mode, m': Mode, hidden: set<Id>, s: Step, earlier: set<Id>, p: Path,
                                           loop: Loop, r: Run, b: Run)
    requires s.kind.Condition? && WfStep(s, earlier) && HidesStep(hidden, s) && SoundStep(s, p, r)
    requires Rerunnable(hidden, s) && Retraces(m, m')
    requires var (x, o) := ExecCondition(w, m, s.id, s.kind, p, loop, r);
             o.Aborted? && Intact(hidden, x, b, earlier + StepIds(s) - {s.id}, Below(p))
    ensures var (x, o) := ExecCondition(w, m, s.id, s.kind, p, loop, r);
            var (y, o') := ExecCondition(w, m', s.id, s.kind, p, loop, b);
            Replayed(hidden, m', MayRefuse(w, s), r, x, b, y, o, o')
    decreases s.kind, 0, 0, 0
  {
    hide Replayed, Passed, Intact, Alike, Framed, Agree, ViewOf, ExecSteps, SoundSteps, WfSteps, HidesSteps, RerunnableSteps,
         MayRefuseAny, BranchOutput, Within, UsesFrom;
    var c := s.kind;
    var (x, o) := ExecCondition(w, m, s.id, c, p, loop, r);
    var ids := earlier + StepIds(s) - {s.id};
    WfStepIsNew(s, earlier);
    ConditionFramed(w, m, s.id, c, p, loop, r);
    ConditionFinish(w, m, s.id, c, p, loop, r);
    assert StepIds(s) == {s.id} + IdsFrom(c.thn, 0) + IdsFrom(c.els, 0);
    ViewAgain(hidden, r, x, b, StepIds(s), Below(p), ids, Below(p), c.when.uses);
    ReplayedSelf(hidden, m', MayRefuse(w, s), r, x, b, o);
    var e := c.when.eval(ViewOf(r, c.when.uses), loop);
    if e.Ok? {
      var t := IsTruthy(e.value);
      var branch, via := if t then c.thn else c.els, if t then Then else Else;
      var before := if t then earlier else earlier + IdsFrom(c.thn, 0);
      WfWithout(branch, 0, if t then earlier + {s.id} else earlier + {s.id} + IdsFrom(c.thn, 0), s.id);
      WfStepsAreNew(c.thn, 0, earlier + {s.id});
      WfStepsAreNew(c.els, 0, earlier + {s.id} + IdsFrom(c.thn, 0));
      assert (if t then earlier + {s.id} else earlier + {s.id} + IdsFrom(c.thn, 0)) - {s.id} == before;
      ScopeBelow(p, via, Heads(branch, 0));
      IntactShrink(hidden, x, b, ids, Below(p), before + IdsFrom(branch, 0), Scope(p, via, Heads(branch, 0)));
      StepsReplay(w, m, m', hidden, branch, 0, before, p, via, loop, r, b, NO_FLAGS, NO_FLAGS);
      var (y, o') := ExecSteps(w, m', branch, 0, p, via, loop, b, NO_FLAGS);
      ReplayedEnds(hidden, m', MayRefuseAny(w, branch, 0), r, x, b, y, o, o');
      SkipPasses(r, s.id, p);
      ReplayedWiden(hidden, m', MayRefuseAny(w, branch, 0), MayRefuse(w, s), r, r, x, b, y, o, o');
    }
  }

  lemma {:induction false} ForEachReplay(w: World, m: Mode, m': Mode, hidden: set<Id>, s: Step, earlier: set<Id>, p: Path, loop: Loop,
                                         r: Run, b: Run)
    requires s.kind.ForEach? && WfStep(s, earlier) && HidesStep(hidden, s) && SoundStep(s, p, r) && p !in r.done
    requires Rerunnable(hidden, s) && Retraces(m, m')
    requires var (x, o) := ExecForEach(w, m, s.id, s.kind, p, loop, r);
             o.Aborted? && Intact(hidden, x, b, earlier + StepIds(s) - {s.id}, Below(p))
    ensures var (x, o) := ExecForEach(w, m, s.id, s.kind, p, loop, r);
            var (y, o') := ExecForEach(w, m', s.id, s.kind, p, loop, b);
            && Replayed(hidden, m', MayRefuse(w, s), r, x, b, y, o, o')
            && var e := s.kind.over.eval(ViewOf(r, s.kind.over.uses), loop);
            e.Ok? && e.value.Arr? && !o'.Parked? ==>
              && s.id in y.outputs
              && y.outputs[s.id] == LoopOutput([EntryFailed(o.code)], |e.value.items| - |Bounded(e.value.items, s.kind.limit)|)
    decreases s.kind, 0, 0, 0
  {
    hide Replayed, Passed, Intact, Alike, Framed, Agree, ViewOf, ExecItems, SoundSteps, WfSteps, HidesSteps, RerunnableSteps,
         MayRefuseAny, LoopOutput, Bounded, UntouchedFrom, Within, UsesFrom;
    var c := s.kind;
    var (x, o) := ExecForEach(w, m, s.id, c, p, loop, r);
    var ids := earlier + StepIds(s) - {s.id};
    WfStepIsNew(s, earlier);
    ForEachFramed(w, m, s.id, c, p, loop, r);
    ForEachFinish(w, m, s.id, c, p, loop, r);
    ViewAgain(hidden, r, x, b, StepIds(s), Below(p), ids, Below(p), c.over.uses);
    ReplayedSelf(hidden, m', MayRefuse(w, s), r, x, b, o);
    var e := c.over.eval(ViewOf(r, c.over.uses), loop);
    if e.Ok? && e.value.Arr? {
      var items := Bounded(e.value.items, c.limit);
      var dropped := |e.value.items| - |items|;
      EnterLoop(c.children, p, r);
      WfStepsAreNew(c.children, 0, earlier + {s.id});
      HiddenUnread(hidden, c.children, 0);
      assert earlier + {s.id} - {s.id} + IdsFrom(c.children, 0) == ids;
      ItemsSound(w, m, c.children, earlier + {s.id}, items, StartIndex(r, p), s.id, dropped, p, loop, r, LOOP_START);
      ItemsReplay(w, m, m', hidden, c.children, earlier + {s.id}, items, StartIndex(r, p), s.id, dropped, p, loop, r, b, LOOP_START);
      var (y, _, o') := ExecItems(w, m', c.children, items, StartIndex(b, p), s.id, dropped, p, loop, b, LOOP_START);
      ReplayedEnds(hidden, m', MayRefuseAny(w, c.children, 0), r, x, b, y, o, o');
    }
  }

  /**
   * The loop is entered again at the iteration that failed. Unless it waits there for a refused approval, it fails
   * there again, and its results are those of that iteration alone.
   */
  lemma {:induction false} ItemsReplay(w: World, m: Mode, m': Mode, hidden: set<Id>, children: seq<Step>, earlier: set<Id>,
                                       items: seq<Value>, i: nat, id: Id, dropped: nat, p: Path, loop: Loop, r: Run, b: Run, acc: LoopAcc)
    requires WfSteps(children, 0, earlier) && id in earlier && id in hidden && HidesSteps(hidden, children, 0)
    requires id !in UsesFrom(children, 0) && RerunnableSteps(hidden, children, 0) && Retraces(m, m')
    requires p !in r.done && ItemReady(children, p, i, r)
    requires var (x, _, o) := ExecItems(w, m, children, items, i, id, dropped, p, loop, r, acc);
             o.Aborted? && Intact(hidden, x, b, earlier - {id} + IdsFrom(children, 0), Below(p))
    ensures var (x, _, o) := ExecItems(w, m, children, items, i, id, dropped, p, loop, r, acc);
            var (y, _, o') := ExecItems(w, m', children, items, StartIndex(b, p), id, dropped, p, loop, b, LOOP_START);
            && Replayed(hidden, m', MayRefuseAny(w, children, 0), r, x, b, y, o, o')
            && (!o'.Parked? ==> id in y.outputs && y.outputs[id] == LoopOutput([EntryFailed(o.code)], dropped))
    decreases children, 1, |items| - i, 1
  {
    hide Replayed, Passed, Intact, Alike, Framed, Agree, ViewOf, ExecSteps, SoundSteps, WfSteps, HidesSteps, RerunnableSteps,
         MayRefuseAny, LoopOutput, UntouchedFrom, Within, UsesFrom, LoopStep, VerdictOf, Heads, IdsFrom;
    var inner := InLoop(items[i], i, loop);
    var r0 := r.(iter := r.iter[p := i]);
    var refused := MayRefuseAny(w, children, 0);
    var (x, _, o) := ExecItems(w, m, children, items, i, id, dropped, p, loop, r, acc);
    ScopeAgree(children, earlier, id, p, Item(i), r, r0);
    StepsFramed(w, m, children, 0, p, Item(i), inner, r0, NO_FLAGS);
    var (r1, o1) := ExecSteps(w, m, children, 0, p, Item(i), inner, r0, NO_FLAGS);
    StepsFinish(w, m, children, 0, p, Item(i), inner, r0, NO_FLAGS);
    NoMarkOutside(r0, r1, IdsFrom(children, 0), p, Item(i), Heads(children, 0));
    if o1.Completed? {
      StepsSound(w, m, children, 0, earlier, p, Item(i), inner, r0, NO_FLAGS);
      LaterUntouched(r, r0, r1, p, i, IdsFrom(children, 0), Heads(children, 0));
      NextReady(children, p, i, r1);
      var acc1 := LoopStep(acc, VerdictOf(children, |children|, p, i, r1), children, o1.flags);
      var r2 := r1.(iter := r1.iter - {p});
      ItemsReplay(w, m, m', hidden, children, earlier, items, i + 1, id, dropped, p, loop, r2, b, acc1);
      ItemsFinish(w, m, children, items, i + 1, id, dropped, p, loop, r2, acc1);
      CursorPasses(r, r0, r1, r2);
      var (y, _, o') := ExecItems(w, m', children, items, StartIndex(b, p), id, dropped, p, loop, b, LOOP_START);
      ReplayedWiden(hidden, m', refused, refused, r, r2, x, b, y, o, o');
    } else {
      FailedItemReplay(w, m, m', hidden, children, earlier, items, i, id, dropped, p, loop, r, b, acc);
    }
  }

  /** Iteration `i` is the one that failed. */
  lemma {:induction false} FailedItemReplay(w: World, m: Mode, m': Mode, hidden: set<Id>, children: seq<Step>, earlier: set<Id>,
                                            items: seq<Value>, i: nat, id: Id, dropped: nat, p: Path, loop: Loop, r: Run, b: Run,
                                            acc: LoopAcc)
    requires WfSteps(children, 0, earlier) && id in earlier && id in hidden && HidesSteps(hidden, children, 0)
    requires id !in UsesFrom(children, 0) && RerunnableSteps(hidden, children, 0) && Retraces(m, m')
    requires p !in r.done && ItemReady(children, p, i, r) && i < |items|
    requires ExecSteps(w, m, children, 0, p, Item(i), InLoop(items[i], i, loop), r.(iter := r.iter[p := i]), NO_FLAGS).1.Aborted?
    requires var x := ExecItems(w, m, children, items, i, id, dropped, p, loop, r, acc).0;
             Intact(hidden, x, b, earlier - {id} + IdsFrom(children, 0), Below(p))
    ensures var (x, _, o) := ExecItems(w, m, children, items, i, id, dropped, p, loop, r, acc);
            var (y, _, o') := ExecItems(w, m', children, items, StartIndex(b, p), id, dropped, p, loop, b, LOOP_START);
            && Replayed(hidden, m', MayRefuseAny(w, children, 0), r, x, b, y, o, o')
            && (!o'.Parked? ==> id in y.outputs && y.outputs[id] == LoopOutput([EntryFailed(o.code)], dropped))
    decreases children, 1, |items| - i, 0
  {
    hide Replayed, Passed, Intact, Alike, Framed, Agree, ViewOf, ExecSteps, SoundSteps, WfSteps, HidesSteps, RerunnableSteps,
         MayRefuseAny, LoopOutput, UntouchedFrom, Within, UsesFrom, LoopStep, VerdictOf, Heads, IdsFrom;
    var inner := InLoop(items[i], i, loop);
    var r0 := r.(iter := r.iter[p := i]);
    var refused := MayRefuseAny(w, children, 0);
    var (x, _, o) := ExecItems(w, m, children, items, i, id, dropped, p, loop, r, acc);
    ScopeAgree(children, earlier, id, p, Item(i), r, r0);
    StepsFramed(w, m, children, 0, p, Item(i), inner, r0, NO_FLAGS);
    var (r1, o1) := ExecSteps(w, m, children, 0, p, Item(i), inner, r0, NO_FLAGS);
    NoMarkOutside(r0, r1, IdsFrom(children, 0), p, Item(i), Heads(children, 0));
    var ids := earlier - {id} + IdsFrom(children, 0);
    assert In(p, Below(p));
    MarkOf(hidden, x, b, ids, Below(p), p);
    assert StartIndex(b, p) == i && b.(iter := b.iter[p := i]) == b;
    WfStepsAreNew(children, 0, earlier);
    IntactUnset(hidden, r1, id, LoopOutput(acc.entries + [EntryFailed(o.code)], dropped), b, ids, Below(p));
    WfWithout(children, 0, earlier, id);
    ScopeBelow(p, Item(i), Heads(children, 0));
    IntactShrink(hidden, r1, b, ids, Below(p), ids, Scope(p, Item(i), Heads(children, 0)));
    StepsReplay(w, m, m', hidden, children, 0, earlier - {id}, p, Item(i), inner, r0, b, NO_FLAGS, NO_FLAGS);
    var (y, o') := ExecSteps(w, m', children, 0, p, Item(i), inner, b, NO_FLAGS);
    ReplayedEnds(hidden, m', refused, r0, r1, b, y, o1, o');
    assert LOOP_START.entries + [EntryFailed(o.code)] == [EntryFailed(o.code)];
    ReplayedSet(hidden, m', refused, r, r0, r1, x, b, y, id, if o'.Parked? then None else Some(LoopOutput([EntryFailed(o.code)], dropped)), o, o');
  }

  lemma CursorPasses(r: Run, r0: Run, r1: Run, r2: Run)
    requires r0 == r.(iter := r0.iter) && r2 == r1.(iter := r2.iter) && Passed(r0, r1)
    ensures Passed(r, r2)
  {
  }

  /** The cursor before and the hidden output after do not matter. */
  lemma ReplayedSet(hidden: set<Id>, m: Mode, refused: bool, r: Run, r0: Run, r1: Run, x: Run, b: Run, y: Run, id: Id, v: Option<Value>,
                    o: Outcome, o': Outcome)
    requires Replayed(hidden, m, refused, r0, r1, b, y, o, o') && id in hidden
    requires r0 == r.(iter := r0.iter) && x == r1.(outputs := x.outputs)
    ensures Replayed(hidden, m, refused, r, x, b, if v.None? then y else SetOutput(y, id, v.value), o, o')
  {
    if v.Some? {
      AlikeSetAgain(hidden, b, y, id, v.value);
    }
    hide Alike;
  }

  lemma IntactUnset(hidden: set<Id>, r: Run, id: Id, v: Value, b: Run, ids: set<Id>, g: Region)
    requires Intact(hidden, SetOutput(r, id, v), b, ids, g) && id !in ids
    ensures Intact(hidden, r, b, ids, g)
  {
    var x := SetOutput(r, id, v);
    forall i | i in ids ensures SameStatus(r, b, i) && (i !in hidden ==> SameOutput(r, b, i)) {
      assert SameStatus(x, b, i);
      assert i !in hidden ==> SameOutput(x, b, i);
    }
    forall q | In(q, g) ensures SameMark(r, b, q) {
      assert SameMark(x, b, q);
    }
  }
}
