/** A run whose parks are answered moves forward: each job parks further on in the document, so the run ends. */
module Progress {
  import opened Prelude
  import opened Values
  import opened Workflow
  import opened Executor
  import opened WellFormed
  import opened Soundness
  import opened Parking
  import opened Replay
  import opened Resume

  // --- The place of a step instance in the document -------------------------------------------

  /** Iterations past the last one count as the last. */
  function Turn(limit: Option<int>, i: nat): nat {
    if i < ClampLimit(limit) then i else ClampLimit(limit) - 1
  }

  lemma LaterTurn(i: nat, j: nat, size: nat, n: nat, n': nat)
    requires i < j && n <= size
    ensures i * (1 + size) + n < j * (1 + size) + n'
  {
    var gap := j - i - 1;
    assert j * (1 + size) == i * (1 + size) + (1 + size) + gap * (1 + size);
  }

  /** The iterations of a loop at its full clamped length, each with `size` places and its own start. */
  function Span(limit: Option<int>, size: nat): nat {
    ClampLimit(limit) * (1 + size)
  }

  /** Place `n` of iteration `i`. */
  function Place(limit: Option<int>, i: nat, size: nat, n: nat): (place: nat)
    requires n <= size
    ensures place < Span(limit, size)
  {
    LaterTurn(Turn(limit, i), ClampLimit(limit), size, n, 0);
    Turn(limit, i) * (1 + size) + n
  }

  /** How many step instances a step can have, every loop taken at its full clamped length. */
  function Size(s: Step): nat
    decreases s, 0
  {
    1 + match s.kind
        case Condition(_, thn, els) => SizeFrom(thn, 0) + SizeFrom(els, 0)
        case ForEach(_, limit, children) => Span(limit, SizeFrom(children, 0))
        case _ => 0
  }

  function SizeFrom(steps: seq<Step>, k: nat): nat
    requires k <= |steps|
    decreases steps, |steps| - k
  {
    if k == |steps| then 0 else Size(steps[k]) + SizeFrom(steps, k + 1)
  }

  /** The place of `q`, at or below `p`, in the walk of step `s` at `p`. */
  function Rank(s: Step, p: Path, q: Path): (n: nat)
    ensures n < Size(s)
    decreases s, 0
  {
    if |q| <= |p| then 0 else
    match s.kind
    case Condition(_, thn, els) =>
      if q[|p|].via.Then? then RankFrom(thn, 0, p, Then, q) else SizeFrom(thn, 0) + RankFrom(els, 0, p, Else, q)
    case ForEach(_, limit, children) =>
      if !q[|p|].via.Item? then 0 else
      Place(limit, q[|p|].via.index, SizeFrom(children, 0), RankFrom(children, 0, p, q[|p|].via, q))
    case _ => 0
  }

  function RankFrom(steps: seq<Step>, k: nat, parent: Path, via: Via, q: Path): (n: nat)
    requires k <= |steps|
    ensures n <= SizeFrom(steps, k)
    decreases steps, |steps| - k
  {
    if k == |steps| then 0
    else if Child(parent, via, steps[k].id) <= q then Rank(steps[k], Child(parent, via, steps[k].id), q)
    else Size(steps[k]) + RankFrom(steps, k + 1, parent, via, q)
  }

  lemma RankInside(steps: seq<Step>, k: nat, parent: Path, via: Via, q: Path)
    requires k <= |steps| && In(q, Scope(parent, via, Heads(steps, k)))
    ensures RankFrom(steps, k, parent, via, q) < SizeFrom(steps, k)
    decreases |steps| - k
  {
    var p := Child(parent, via, steps[k].id);
    if !(p <= q) {
      AtOwn(parent, via, steps[k].id, q);
      RankInside(steps, k + 1, parent, via, q);
    }
  }

  lemma AtOwn(parent: Path, via: Via, id: Id, q: Path)
    requires |q| > |parent| && parent <= q && q[|parent|].via == via
    ensures Child(parent, via, id) <= q <==> q[|parent|].id == id
  {
    assert q[|parent|] == Hop(q[|parent|].via, q[|parent|].id);
    if q[|parent|].id == id {
      assert q[..|parent| + 1] == parent + [q[|parent|]];
    }
  }

  /** A place in the steps after `k` comes after every place in step `k`. */
  lemma RankTail(steps: seq<Step>, k: nat, earlier: set<Id>, parent: Path, via: Via, q: Path)
    requires k < |steps| && WfSteps(steps, k, earlier) && In(q, Scope(parent, via, Heads(steps, k + 1)))
    ensures RankFrom(steps, k, parent, via, q) == Size(steps[k]) + RankFrom(steps, k + 1, parent, via, q)
    ensures In(q, Scope(parent, via, Heads(steps, k)))
  {
    WfHeadApart(steps, k, earlier);
    AtOwn(parent, via, steps[k].id, q);
    AtTail(steps, k, parent, via, q);
  }

  // --- Where a job can park ---------------------------------------------------------------------

  predicate CrashFree(m: Mode) {
    m.Segment? && m.crash.None?
  }

  lemma {:induction false} StepsPark(w: World, m: Mode, steps: seq<Step>, k: nat, parent: Path, via: Via, loop: Loop, r: Run, acc: Flags)
    requires k <= |steps|
    ensures var o := ExecSteps(w, m, steps, k, parent, via, loop, r, acc).1;
            && (o.Parked? ==> In(o.at, Scope(parent, via, Heads(steps, k))))
            && (CrashFree(m) ==> !o.Crashed?)
    decreases steps, 0, |steps| - k
  {
    hide ExecStep, Gate, In;
    if k < |steps| {
      var s := steps[k];
      var p := Child(parent, via, s.id);
      var o := ExecSteps(w, m, steps, k, parent, via, loop, r, acc).1;
      var g := Gate(s, r, loop);
      if g.Ok? {
        if !g.value {
          StepsPark(w, m, steps, k + 1, parent, via, loop, SkipStep(r, s.id, p), acc);
        } else if p in r.done {
          StepsPark(w, m, steps, k + 1, parent, via, loop, r, acc);
        } else {
          var (r1, o1) := ExecStep(w, m, s, p, loop, r);
          StepPark(w, m, s, p, loop, r);
          if o1.Completed? {
            StepsPark(w, m, steps, k + 1, parent, via, loop, MarkDone(r1, p), acc.(anySuccess := true));
          } else if o1.Aborted? && s.continueOnError {
            StepsPark(w, m, steps, k + 1, parent, via, loop, Swallow(r1, via), SwallowFlags(acc, o1.code, s));
          } else if o1.Parked? {
            AtHead(steps, k, parent, via, o1.at);
          }
        }
        if o.Parked? && In(o.at, Scope(parent, via, Heads(steps, k + 1))) {
          AtTail(steps, k, parent, via, o.at);
        }
      }
    }
  }

  lemma {:induction false} StepPark(w: World, m: Mode, s: Step, p: Path, loop: Loop, r: Run)
    ensures var o := ExecStep(w, m, s, p, loop, r).1;
            && (o.Parked? ==> In(o.at, Below(p)))
            && (CrashFree(m) ==> !o.Crashed?)
    decreases s, 1, 0
  {
    hide ExecCondition, ExecForEach, ViewOf, ExecLeaf, ExecEmail, RecordOutcome;
    var r0 := r.(rows := r.rows[p := RowRunning]);
    if s.kind.Condition? {
      ConditionPark(w, m, s.id, s.kind, p, loop, r0);
    } else if s.kind.ForEach? {
      ForEachPark(w, m, s.id, s.kind, p, loop, r0);
    } else {
      PlainPark(w, m, s, p, loop, r0);
    }
  }

  lemma PlainPark(w: World, m: Mode, s: Step, p: Path, loop: Loop, r: Run)
    requires !s.kind.Condition? && !s.kind.ForEach?
    ensures var o := ExecBody(w, m, s, p, loop, r).1;
            !o.Crashed? && (o.Parked? ==> In(o.at, Below(p)))
  {
    hide ViewOf;
  }

  lemma {:induction false} ConditionPark(w: World, m: Mode, id: Id, c: Kind, p: Path, loop: Loop, r: Run)
    requires c.Condition?
    ensures var (r', o) := ExecCondition(w, m, id, c, p, loop, r);
            && (o.Parked? ==> In(o.at, Below(p)))
            && (CrashFree(m) ==> !o.Crashed?)
    decreases c, 0, 0
  {
    hide ExecSteps, ViewOf, BranchOutput;
    var e := c.when.eval(ViewOf(r, c.when.uses), loop);
    if e.Ok? {
      var t := IsTruthy(e.value);
      var branch := if t then c.thn else c.els;
      if |branch| > 0 {
        StepsPark(w, m, branch, 0, p, if t then Then else Else, loop, r, NO_FLAGS);
      }
    }
  }

  lemma {:induction false} ForEachPark(w: World, m: Mode, id: Id, c: Kind, p: Path, loop: Loop, r: Run)
    requires c.ForEach?
    ensures var o := ExecForEach(w, m, id, c, p, loop, r).1;
            && (o.Parked? ==> In(o.at, Below(p)))
            && (CrashFree(m) ==> !o.Crashed?)
    decreases c, 0, 0
  {
    hide ExecItems, ViewOf, LoopOutput, Bounded;
    var e := c.over.eval(ViewOf(r, c.over.uses), loop);
    if e.Ok? && e.value.Arr? {
      var items := Bounded(e.value.items, c.limit);
      ItemsPark(w, m, c.children, items, StartIndex(r, p), id, |e.value.items| - |items|, p, loop, r, LOOP_START);
    }
  }

  /** `q` is inside an iteration from `i` on. */
  predicate InTurns(q: Path, p: Path, i: nat, n: nat, heads: set<Id>) {
    |q| > |p| && q[|p|].via.Item? && i <= q[|p|].via.index < n && In(q, Scope(p, q[|p|].via, heads))
  }

  lemma {:induction false} ItemsPark(w: World, m: Mode, children: seq<Step>, items: seq<Value>, i: nat, id: Id, dropped: nat,
                                     p: Path, loop: Loop, r: Run, acc: LoopAcc)
    ensures var o := ExecItems(w, m, children, items, i, id, dropped, p, loop, r, acc).2;
            && (o.Parked? ==> InTurns(o.at, p, i, |items|, Heads(children, 0)))
            && (CrashFree(m) ==> !o.Crashed?)
    decreases children, 1, |items| - i
  {
    hide ExecSteps, LoopOutput, VerdictOf, LoopStep;
    if i < |items| {
      var r0 := r.(iter := r.iter[p := i]);
      var inner := InLoop(items[i], i, loop);
      StepsPark(w, m, children, 0, p, Item(i), inner, r0, NO_FLAGS);
      var (r1, o) := ExecSteps(w, m, children, 0, p, Item(i), inner, r0, NO_FLAGS);
      if o.Completed? {
        ItemsPark(w, m, children, items, i + 1, id, dropped, p, loop, r1.(iter := r1.iter - {p}),
                  LoopStep(acc, VerdictOf(children, |children|, p, i, r1), children, o.flags));
      }
    }
  }

  // --- An answered park is passed -------------------------------------------------------------------

  /**
   * The failed steps that the next job meets before the park can be run again, and before an approval none of them
   * holds a refused one: there is one place for a pending approval, and the refused one would take it.
   */
  ghost predicate Passable(w: World, hidden: set<Id>, o: Outcome)
    requires o.Parked?
  {
    forall s :: s in o.again ==> Rerunnable(hidden, s) && (o.paused ==> !MayRefuse(w, s))
  }

  lemma PassableInner(w: World, hidden: set<Id>, before: seq<Step>, inner: Outcome)
    requires inner.Parked? && Passable(w, hidden, Parked(inner.at, inner.paused, before + inner.again))
    ensures Passable(w, hidden, inner)
  {
    forall s | s in inner.again ensures Rerunnable(hidden, s) && (inner.paused ==> !MayRefuse(w, s)) {
      assert s in before + inner.again;
    }
  }

  lemma ListedIsPassable(w: World, hidden: set<Id>, o: Outcome, before: seq<Step>, s: Step)
    requires o.Parked? && Passable(w, hidden, o) && before + [s] <= o.again
    ensures Rerunnable(hidden, s) && (o.paused ==> !MayRefuse(w, s))
  {
    assert (before + [s])[|before|] == s;
    assert s in o.again;
  }

  /** A job that answers the park point of the job before it. */
  ghost predicate Answers(m: Mode, o: Outcome) {
    CrashFree(m) && (o.Parked? ==> m.ready(o.at))
  }

  /** `b` is the parked state `r1`, up to hidden outputs, what a crash leaves behind, and an approval pending beside a delay. */
  ghost predicate Stands(hidden: set<Id>, o: Outcome, r1: Run, b: Run)
    requires o.Parked?
  {
    Alike(hidden, r1, b) && b.delay == r1.delay && (o.paused ==> b.approval == r1.approval)
  }

  /** The job parks on the approval that was refused in the job from `r`, and leaves all else as it was. */
  ghost predicate Reasks(hidden: set<Id>, m: Mode, r: Run, b: Run, y: Run, o: Outcome, o': Outcome)
    requires o.Parked? && o'.Parked? && m.Segment?
  {
    && !o.paused && o'.paused && !Echo(m, r, b) && r.approval == Some(o'.at)
    && Alike(hidden, b, y) && y.delay == b.delay && y.approval == r.approval
  }

  lemma StandsParts(hidden: set<Id>, o: Outcome, a: Run, b: Run)
    requires o.Parked? && Stands(hidden, o, a, b)
    ensures Alike(hidden, a, b) && a.done == b.done && a.iter == b.iter && a.delay == b.delay
    ensures o.paused ==> a.approval == b.approval
  {
  }

  lemma ReasksWiden(hidden: set<Id>, m: Mode, r: Run, r1: Run, b: Run, y: Run, o: Outcome, o': Outcome)
    requires o.Parked? && o'.Parked? && m.Segment? && Passed(r, r1) && Reasks(hidden, m, r1, b, y, o, o')
    ensures Reasks(hidden, m, r, b, y, o, o')
  {
    hide Alike;
  }

  /** Only where the two jobs parked matters, not what they have still to run again, nor the rows and cursors before. */
  lemma ReasksSame(hidden: set<Id>, m: Mode, r: Run, r1: Run, b: Run, b1: Run, y: Run, y1: Run, o: Outcome, o1: Outcome, o': Outcome,
                   o1': Outcome)
    requires o.Parked? && o1.Parked? && o'.Parked? && o1'.Parked? && m.Segment? && Reasks(hidden, m, r1, b1, y1, o1, o1')
    requires o.paused == o1.paused && o'.at == o1'.at && o'.paused == o1'.paused
    requires r1.approval == r.approval && b1 == b.(rows := b1.rows) && y == y1.(rows := y.rows)
    ensures Reasks(hidden, m, r, b, y, o, o')
  {
    AlikeOther(hidden, b1, y1, b, y);
    hide Alike;
  }

  /**
   * The job before parked at `o.at`; a job that answers it either does not park in these steps or parks further
   * on. `b` is the parked state, up to hidden outputs and what a crash leaves behind.
   */
  lemma {:induction false} StepsAdvance(w: World, m: Mode, m': Mode, hidden: set<Id>, steps: seq<Step>, k: nat, earlier: set<Id>,
                                        parent: Path, via: Via, loop: Loop, r: Run, b: Run, acc: Flags, acc': Flags)
    requires m.Segment? && k <= |steps| && WfSteps(steps, k, earlier) && HidesSteps(hidden, steps, k)
    requires SoundSteps(steps, k, parent, via, r)
    requires var (r1, o) := ExecSteps(w, m, steps, k, parent, via, loop, r, acc);
             o.Parked? && Passable(w, hidden, o) && Answers(m', o) && Stands(hidden, o, r1, b)
    ensures var o := ExecSteps(w, m, steps, k, parent, via, loop, r, acc).1;
            var (y, o') := ExecSteps(w, m', steps, k, parent, via, loop, b, acc');
            && In(o.at, Scope(parent, via, Heads(steps, k)))
            && (o'.Parked? ==> RankFrom(steps, k, parent, via, o.at) < RankFrom(steps, k, parent, via, o'.at)
                               || Reasks(hidden, m', r, b, y, o, o'))
    decreases steps, 0, |steps| - k, 2
  {
    hide Alike, Framed, ExecStep, ViewOf, SoundStep, WfStep, HidesStep, Gate, Passable, Within, Agree, StepIds, Stands, Reasks, Passed, In, RankFrom, Size;
    StepsPark(w, m, steps, k, parent, via, loop, r, acc);
    if k < |steps| {
      var s := steps[k];
      var p, g := Child(parent, via, s.id), Scope(parent, via, Heads(steps, k));
      var (r1, last) := ExecSteps(w, m, steps, k, parent, via, loop, r, acc);
      StandsParts(hidden, last, r1, b);
      StepsFramed(w, m, steps, k, parent, via, loop, r, acc);
      FramedDone(r, r1, IdsFrom(steps, k), g);
      WfStepsAreNew(steps, k, earlier);
      FramedGate(s, earlier, loop, r, r1, IdsFrom(steps, k), g);
      GateAlike(hidden, s, loop, r1, b);
      var open := Gate(s, r, loop);
      if !open.value {
        var r2 := SkipStep(r, s.id, p);
        SkipSound(s, earlier, p, r);
        SkipFramed(s, p, r);
        SkipIsDone(r, s.id, p);
        SkipPasses(r, s.id, p);
        TailAdvance(w, m, m', hidden, steps, k, earlier, parent, via, loop, r, r2, b, acc, acc');
      } else if p in r.done {
        FramedSelf(r, StepIds(s), Below(p));
        SkipPasses(r, s.id, p);
        TailAdvance(w, m, m', hidden, steps, k, earlier, parent, via, loop, r, r, b, acc, acc');
      } else {
        var (r2, o) := ExecStep(w, m, s, p, loop, r);
        StepFramed(w, m, s, p, loop, r);
        StepSound(w, m, s, earlier, p, loop, r);
        if o.Completed? {
          LocalAfter(r, r2, MarkDone(r2, p), StepIds(s), s.id, p);
          StepFinish(w, m, s, p, loop, r);
          MarkPasses(r, r2, p);
          TailAdvance(w, m, m', hidden, steps, k, earlier, parent, via, loop, r, MarkDone(r2, p), b, acc.(anySuccess := true), acc');
        } else if o.Aborted? {
          FailedAdvance(w, m, m', hidden, steps, k, earlier, parent, via, loop, r, b, acc, acc');
        } else {
          HeadAdvance(w, m, m', hidden, steps, k, earlier, parent, via, loop, r, b, acc, acc');
        }
      }
    }
  }

  /** The park is in a step after `k`, and step `k` is marked done. */
  lemma {:induction false} TailAdvance(w: World, m: Mode, m': Mode, hidden: set<Id>, steps: seq<Step>, k: nat, earlier: set<Id>,
                                       parent: Path, via: Via, loop: Loop, r: Run, r2: Run, b: Run, acc: Flags, acc': Flags)
    requires m.Segment? && k < |steps| && WfSteps(steps, k, earlier) && HidesSteps(hidden, steps, k)
    requires SoundSteps(steps, k, parent, via, r)
    requires var p := Child(parent, via, steps[k].id);
             SoundStep(steps[k], p, r2) && Framed(r, r2, StepIds(steps[k]), Below(p)) && p in r2.done && Passed(r, r2)
    requires var (r1, o) := ExecSteps(w, m, steps, k + 1, parent, via, loop, r2, acc);
             o.Parked? && Passable(w, hidden, o) && Answers(m', o) && Stands(hidden, o, r1, b)
    ensures var o := ExecSteps(w, m, steps, k + 1, parent, via, loop, r2, acc).1;
            var (y, o') := ExecSteps(w, m', steps, k + 1, parent, via, loop, b, acc');
            && Child(parent, via, steps[k].id) in b.done
            && (o'.Parked? ==> RankFrom(steps, k, parent, via, o.at) < RankFrom(steps, k, parent, via, o'.at)
                               || Reasks(hidden, m', r, b, y, o, o'))
    decreases steps, 0, |steps| - k, 0
  {
    hide Alike, Framed, ExecStep, ExecSteps, SoundStep, WfStep, HidesStep, Passable, Stands, Reasks, Passed, In, RankFrom, Size, Agree;
    var (r1, o) := ExecSteps(w, m, steps, k + 1, parent, via, loop, r2, acc);
    var (y, o') := ExecSteps(w, m', steps, k + 1, parent, via, loop, b, acc');
    SiblingsAgree(steps, k, parent, via, earlier, r, r2);
    SoundStepsAgree(steps, k + 1, parent, via, r, r2);
    StepsAdvance(w, m, m', hidden, steps, k + 1, earlier + StepIds(steps[k]), parent, via, loop, r2, b, acc, acc');
    StepsFramed(w, m, steps, k + 1, parent, via, loop, r2, acc);
    FramedDone(r2, r1, IdsFrom(steps, k + 1), Scope(parent, via, Heads(steps, k + 1)));
    StandsParts(hidden, o, r1, b);
    RankTail(steps, k, earlier, parent, via, o.at);
    if o'.Parked? {
      StepsPark(w, m', steps, k + 1, parent, via, loop, b, acc');
      RankTail(steps, k, earlier, parent, via, o'.at);
      if Reasks(hidden, m', r2, b, y, o, o') {
        ReasksWiden(hidden, m', r, r2, b, y, o, o');
      }
    }
  }

  /** After a failed step that failed again: the state still stands, and a refused approval is still where it was. */
  lemma SwallowStands(w: World, hidden: set<Id>, m: Mode, s: Step, o: Outcome, r: Run, r2: Run, r1: Run, b: Run, y: Run, via: Via,
                      failed: Outcome, again: Outcome)
    requires o.Parked? && m.Segment? && Stands(hidden, o, r1, b) && (via.Top? ==> r1.runFailed) && (o.paused ==> !MayRefuse(w, s))
    requires Replayed(hidden, m, MayRefuse(w, s), r, r2, b, y, failed, again) && !again.Parked? && Passed(r, r2)
    ensures Stands(hidden, o, r1, Swallow(y, via)) && Alike(hidden, b, Swallow(y, via)) && y.delay == b.delay
    ensures Echo(m, r, b) ==> Echo(m, Swallow(r2, via), Swallow(y, via))
    ensures Passed(r, Swallow(r2, via))
  {
    AlikeTrans(hidden, r1, b, y);
    SwallowAgain(hidden, b, y, via);
    AlikeTrans(hidden, r1, b, Swallow(y, via));
    hide Alike;
  }

  lemma ReasksLater(hidden: set<Id>, m: Mode, r: Run, x: Run, b: Run, y: Run, z: Run, o: Outcome, o': Outcome)
    requires o.Parked? && o'.Parked? && m.Segment? && Reasks(hidden, m, x, y, z, o, o') && Passed(r, x)
    requires Alike(hidden, b, y) && y.delay == b.delay && (Echo(m, r, b) ==> Echo(m, x, y))
    ensures Reasks(hidden, m, r, b, z, o, o')
  {
    AlikeTrans(hidden, b, y, z);
    hide Alike;
  }

  /** The failed step waits for its refused approval. */
  lemma ReplayReasks(w: World, hidden: set<Id>, m: Mode, s: Step, o: Outcome, r: Run, r2: Run, b: Run, y: Run, failed: Outcome,
                     again: Outcome, o': Outcome)
    requires o.Parked? && m.Segment? && (o.paused ==> !MayRefuse(w, s))
    requires Replayed(hidden, m, MayRefuse(w, s), r, r2, b, y, failed, again) && again.Parked?
    requires o'.Parked? && o'.at == again.at && o'.paused == again.paused
    ensures Reasks(hidden, m, r, b, y, o, o')
  {
    hide Alike;
  }

  /** Step `k` failed before the park, and fails again without waiting for anybody. */
  lemma {:induction false} FailedAdvance(w: World, m: Mode, m': Mode, hidden: set<Id>, steps: seq<Step>, k: nat, earlier: set<Id>,
                                         parent: Path, via: Via, loop: Loop, r: Run, b: Run, acc: Flags, acc': Flags)
    requires m.Segment? && k < |steps| && WfSteps(steps, k, earlier) && HidesSteps(hidden, steps, k)
    requires SoundSteps(steps, k, parent, via, r)
    requires Gate(steps[k], r, loop) == Gate(steps[k], b, loop) == Ok(true)
    requires var p := Child(parent, via, steps[k].id);
             && p !in r.done && ExecStep(w, m, steps[k], p, loop, r).1.Aborted? && steps[k].continueOnError
             && var (r1, o) := ExecSteps(w, m, steps, k, parent, via, loop, r, acc);
             o.Parked? && Passable(w, hidden, o) && Answers(m', o) && Stands(hidden, o, r1, b)
    ensures var o := ExecSteps(w, m, steps, k, parent, via, loop, r, acc).1;
            var (y, o') := ExecSteps(w, m', steps, k, parent, via, loop, b, acc');
            o'.Parked? ==> RankFrom(steps, k, parent, via, o.at) < RankFrom(steps, k, parent, via, o'.at)
                           || Reasks(hidden, m', r, b, y, o, o')
    decreases steps, 0, |steps| - k, 1
  {
    hide Alike, Framed, ExecStep, ViewOf, SoundStep, WfStep, HidesStep, Gate, Passable, Within, Agree, StepIds, Stands, Reasks, Passed, In, RankFrom,
         Size, Intact, Rerunnable, MayRefuse;
    var s := steps[k];
    var p, g := Child(parent, via, s.id), Scope(parent, via, Heads(steps, k + 1));
    var (r2, failed) := ExecStep(w, m, s, p, loop, r);
    var x, acc1 := Swallow(r2, via), SwallowFlags(acc, failed.code, s);
    var (r1, o) := ExecSteps(w, m, steps, k + 1, parent, via, loop, x, acc1);
    StepFramed(w, m, s, p, loop, r);
    StepSound(w, m, s, earlier, p, loop, r);
    LocalAfter(r, r2, x, StepIds(s), s.id, p);
    SoundStepAgree(s, p, r2, x) by {
      AgreeSame(r2, x, StepIds(s), Below(p));
    }
    TailSound(w, m, steps, k, earlier, parent, via, loop, r, x, acc1);
    StepsFramed(w, m, steps, k + 1, parent, via, loop, x, acc1);
    SwallowFramed(r2, via, r1, IdsFrom(steps, k + 1), g);
    StandsParts(hidden, o, r1, b);
    AlikeIntact(hidden, r1, b, earlier + StepIds(s), Below(p));
    HeadIntact(hidden, steps, k, earlier, parent, via, r2, r1, b);
    assert In(p, Below(p)) by {
      BelowSelf(p);
    }
    MarkOf(hidden, r2, b, earlier + StepIds(s), Below(p), p);
    AgainShows(w, m, steps, k + 1, parent, via, loop, x, acc1);
    ListedIsPassable(w, hidden, o, acc.again, s);
    StepReplay(w, m, m', hidden, s, earlier, p, loop, r, b);
    StepFinish(w, m, s, p, loop, r);
    var (y, again) := ExecStep(w, m', s, p, loop, b);
    ReplayedEnds(hidden, m', MayRefuse(w, s), r, r2, b, y, failed, again);
    if again.Parked? {
      var (y', o') := ExecSteps(w, m', steps, k, parent, via, loop, b, acc');
      ReplayReasks(w, hidden, m', s, o, r, r2, b, y, failed, again, o');
    } else {
      SwallowStands(w, hidden, m', s, o, r, r2, r1, b, y, via, failed, again);
      RestAgain(w, m, m', hidden, steps, k, earlier, parent, via, loop, r, x, b, Swallow(y, via), acc1, SwallowFlags(acc', failed.code, s));
    }
  }

  /** The steps after a failed one. */
  lemma {:induction false} RestAgain(w: World, m: Mode, m': Mode, hidden: set<Id>, steps: seq<Step>, k: nat, earlier: set<Id>,
                                     parent: Path, via: Via, loop: Loop, r: Run, x: Run, b: Run, y: Run, acc: Flags, acc': Flags)
    requires m.Segment? && k < |steps| && WfSteps(steps, k, earlier) && HidesSteps(hidden, steps, k)
    requires SoundSteps(steps, k + 1, parent, via, x) && Passed(r, x)
    requires var (r1, o) := ExecSteps(w, m, steps, k + 1, parent, via, loop, x, acc);
             && o.Parked? && Passable(w, hidden, o) && Answers(m', o) && Stands(hidden, o, r1, y)
             && Alike(hidden, b, y) && y.delay == b.delay && (Echo(m', r, b) ==> Echo(m', x, y))
    ensures var o := ExecSteps(w, m, steps, k + 1, parent, via, loop, x, acc).1;
            var (z, o') := ExecSteps(w, m', steps, k + 1, parent, via, loop, y, acc');
            o'.Parked? ==> RankFrom(steps, k, parent, via, o.at) < RankFrom(steps, k, parent, via, o'.at)
                           || Reasks(hidden, m', r, b, z, o, o')
    decreases steps, 0, |steps| - k, 0
  {
    hide Alike, Framed, ExecSteps, SoundStep, WfStep, HidesStep, Passable, Stands, Reasks, Passed, In, RankFrom, Size, Echo;
    StepsAdvance(w, m, m', hidden, steps, k + 1, earlier + StepIds(steps[k]), parent, via, loop, x, y, acc, acc');
    var o := ExecSteps(w, m, steps, k + 1, parent, via, loop, x, acc).1;
    var (z, o') := ExecSteps(w, m', steps, k + 1, parent, via, loop, y, acc');
    RankTail(steps, k, earlier, parent, via, o.at);
    if o'.Parked? {
      StepsPark(w, m', steps, k + 1, parent, via, loop, y, acc');
      RankTail(steps, k, earlier, parent, via, o'.at);
      if Reasks(hidden, m', x, y, z, o, o') {
        ReasksLater(hidden, m', r, x, b, y, z, o, o');
      }
    }
  }

  lemma BelowSelf(p: Path)
    ensures In(p, Below(p))
  {
  }

  lemma RankHead(steps: seq<Step>, k: nat, parent: Path, via: Via, q: Path)
    requires k < |steps| && In(q, Below(Child(parent, via, steps[k].id)))
    ensures RankFrom(steps, k, parent, via, q) == Rank(steps[k], Child(parent, via, steps[k].id), q) < Size(steps[k])
  {
  }

  /** The park is in step `k`. */
  lemma {:induction false} HeadAdvance(w: World, m: Mode, m': Mode, hidden: set<Id>, steps: seq<Step>, k: nat, earlier: set<Id>,
                                       parent: Path, via: Via, loop: Loop, r: Run, b: Run, acc: Flags, acc': Flags)
    requires m.Segment? && k < |steps| && WfSteps(steps, k, earlier) && HidesSteps(hidden, steps, k)
    requires SoundSteps(steps, k, parent, via, r)
    requires Gate(steps[k], r, loop) == Gate(steps[k], b, loop) == Ok(true)
    requires var p := Child(parent, via, steps[k].id);
             && p !in r.done && ExecStep(w, m, steps[k], p, loop, r).1.Parked?
             && var (r1, o) := ExecSteps(w, m, steps, k, parent, via, loop, r, acc);
             o.Parked? && Passable(w, hidden, o) && Answers(m', o) && Stands(hidden, o, r1, b)
    ensures var o := ExecSteps(w, m, steps, k, parent, via, loop, r, acc).1;
            var (y, o') := ExecSteps(w, m', steps, k, parent, via, loop, b, acc');
            o'.Parked? ==> RankFrom(steps, k, parent, via, o.at) < RankFrom(steps, k, parent, via, o'.at)
                           || Reasks(hidden, m', r, b, y, o, o')
    decreases steps, 0, |steps| - k, 0
  {
    hide Alike, Framed, ExecStep, ViewOf, SoundStep, WfStep, HidesStep, Gate, Passable, Within, Agree, StepIds, Stands, Reasks, Passed, In, RankFrom,
         Rank, Size;
    var s := steps[k];
    var p := Child(parent, via, s.id);
    var (r1, o) := ExecStep(w, m, s, p, loop, r);
    PassableInner(w, hidden, acc.again, o);
    StandsInner(hidden, acc.again, o, r1, b);
    StepFramed(w, m, s, p, loop, r);
    StandsParts(hidden, o, r1, b);
    StepAdvance(w, m, m', hidden, s, earlier, p, loop, r, b);
    StepPark(w, m, s, p, loop, r);
    RankHead(steps, k, parent, via, o.at);
    var (y, o1) := ExecStep(w, m', s, p, loop, b);
    StepPark(w, m', s, p, loop, b);
    if o1.Parked? {
      RankHead(steps, k, parent, via, o1.at);
      if Reasks(hidden, m', r, b, y, o, o1) {
        var whole := ExecSteps(w, m, steps, k, parent, via, loop, r, acc).1;
        var whole' := ExecSteps(w, m', steps, k, parent, via, loop, b, acc').1;
        ReasksSame(hidden, m', r, r, b, b, y, y, whole, o, whole', o1);
      }
    } else if o1.Completed? {
      RestAdvance(w, m', steps, k, earlier, parent, via, loop, MarkDone(y, p), acc'.(anySuccess := true));
    } else if s.continueOnError {
      RestAdvance(w, m', steps, k, earlier, parent, via, loop, Swallow(y, via), SwallowFlags(acc', o1.code, s));
    }
  }

  /** A park in the rest of the list is beyond step `k`. */
  lemma RestAdvance(w: World, m: Mode, steps: seq<Step>, k: nat, earlier: set<Id>, parent: Path, via: Via, loop: Loop, r: Run, acc: Flags)
    requires k < |steps| && WfSteps(steps, k, earlier)
    ensures var o := ExecSteps(w, m, steps, k + 1, parent, via, loop, r, acc).1;
            o.Parked? ==> Size(steps[k]) <= RankFrom(steps, k, parent, via, o.at)
  {
    hide ExecSteps, In, RankFrom, Size;
    StepsPark(w, m, steps, k + 1, parent, via, loop, r, acc);
    var o := ExecSteps(w, m, steps, k + 1, parent, via, loop, r, acc).1;
    if o.Parked? {
      RankTail(steps, k, earlier, parent, via, o.at);
    }
  }

  lemma {:induction false} StepAdvance(w: World, m: Mode, m': Mode, hidden: set<Id>, s: Step, earlier: set<Id>, p: Path, loop: Loop,
                                       r: Run, b: Run)
    requires m.Segment? && WfStep(s, earlier) && HidesStep(hidden, s) && SoundStep(s, p, r) && p !in r.done
    requires var (r1, o) := ExecStep(w, m, s, p, loop, r);
             o.Parked? && Passable(w, hidden, o) && Answers(m', o) && Stands(hidden, o, r1, b)
    ensures var o := ExecStep(w, m, s, p, loop, r).1;
            var (y, o') := ExecStep(w, m', s, p, loop, b);
            o'.Parked? ==> Rank(s, p, o.at) < Rank(s, p, o'.at) || Reasks(hidden, m', r, b, y, o, o')
    decreases s, 1, 0, 0
  {
    hide Alike, ExecBody, SoundStep, WfStep, HidesStep, Agree, Passable, Stands, Reasks, Passed, Rank, StepIds;
    var r0, b0 := r.(rows := r.rows[p := RowRunning]), b.(rows := b.rows[p := RowRunning]);
    SoundStepAgree(s, p, r, r0) by {
      AgreeSame(r, r0, StepIds(s), Below(p));
    }
    var r1 := ExecStep(w, m, s, p, loop, r).0;
    var x := ExecBody(w, m, s, p, loop, r0).0;
    var o := ExecBody(w, m, s, p, loop, r0).1;
    RowsStand(hidden, o, x, r1, b, b0);
    BodyAdvance(w, m, m', hidden, s, earlier, p, loop, r0, b0);
    var (y0, o') := ExecBody(w, m', s, p, loop, b0);
    if o'.Parked? && Reasks(hidden, m', r0, b0, y0, o, o') {
      ReasksSame(hidden, m', r, r0, b, b0, RecordOutcome(y0, s.id, p, o'), y0, o, o, o', o');
    }
  }

  lemma RowsStand(hidden: set<Id>, o: Outcome, x: Run, r1: Run, b: Run, b0: Run)
    requires o.Parked? && Stands(hidden, o, r1, b) && r1 == x.(rows := r1.rows) && b0 == b.(rows := b0.rows)
    ensures Stands(hidden, o, x, b0)
  {
    RowsUnseen(hidden, x, r1);
    RowsUnseen(hidden, b, b0);
    AlikeTrans(hidden, x, r1, b);
    AlikeTrans(hidden, x, b, b0);
    hide Alike;
  }

  lemma StandsInner(hidden: set<Id>, before: seq<Step>, inner: Outcome, r1: Run, b: Run)
    requires inner.Parked? && Stands(hidden, Parked(inner.at, inner.paused, before + inner.again), r1, b)
    ensures Stands(hidden, inner, r1, b)
  {
  }

  lemma {:induction false} BodyAdvance(w: World, m: Mode, m': Mode, hidden: set<Id>, s: Step, earlier: set<Id>, p: Path, loop: Loop,
                                       r: Run, b: Run)
    requires m.Segment? && WfStep(s, earlier) && HidesStep(hidden, s) && SoundStep(s, p, r) && p !in r.done
    requires var (r1, o) := ExecBody(w, m, s, p, loop, r);
             o.Parked? && Passable(w, hidden, o) && Answers(m', o) && Stands(hidden, o, r1, b)
    ensures var o := ExecBody(w, m, s, p, loop, r).1;
            var (y, o') := ExecBody(w, m', s, p, loop, b);
            o'.Parked? ==> Rank(s, p, o.at) < Rank(s, p, o'.at) || Reasks(hidden, m', r, b, y, o, o')
    decreases s, 0, 0, 0
  {
    hide Alike, ExecCondition, ExecForEach, ExecDelay, ExecApproval, ExecLeaf, ExecEmail, OutputOnly, WfStep, HidesStep, SoundStep,
         Passable, Stands, Reasks, Passed, Rank, ViewOf;
    var (r1, o) := ExecBody(w, m, s, p, loop, r);
    StandsParts(hidden, o, r1, b);
    match s.kind
    case Condition(_, _, _) => ConditionAdvance(w, m, m', hidden, s, earlier, p, loop, r, b);
    case ForEach(_, _, _) => ForEachAdvance(w, m, m', hidden, s, earlier, p, loop, r, b);
    case Approval(prompt, abort) =>
      PromptVisible(hidden, s);
      ApprovalPasses(w, m, m', hidden, prompt, abort, s.id, p, loop, r, b);
    case Delay(valid) => DelayAnswered(w, m, m', valid, s.id, p, r, b);
    case _ =>
  }

  lemma DelayAnswered(w: World, m: Mode, m': Mode, valid: bool, id: Id, p: Path, r: Run, b: Run)
    requires var (r1, o) := ExecDelay(w, m, valid, id, p, r);
             o.Parked? && Answers(m', o) && b.delay == r1.delay
    ensures !ExecDelay(w, m', valid, id, p, b).1.Parked?
  {
  }

  lemma ApprovalPasses(w: World, m: Mode, m': Mode, hidden: set<Id>, prompt: Expr, abort: bool, id: Id, p: Path, loop: Loop, r: Run,
                       b: Run)
    requires prompt.uses !! hidden
    requires var (r1, o) := ExecApproval(w, m, prompt, abort, id, p, loop, r);
             o.Parked? && Answers(m', o) && Alike(hidden, r1, b) && b.approval == r1.approval
    ensures !ExecApproval(w, m', prompt, abort, id, p, loop, b).1.Parked?
  {
    hide Alike, ViewOf, Decide;
    var r1 := ExecApproval(w, m, prompt, abort, id, p, loop, r).0;
    SlotView(r, r1, prompt.uses);
    AlikeView(hidden, r1, b, prompt.uses);
  }

  lemma SlotView(r: Run, r1: Run, uses: set<Id>)
    requires r1.outputs == r.outputs && r1.status == r.status
    ensures ViewOf(r, uses) == ViewOf(r1, uses)
  {
  }

  lemma {:induction false} ConditionAdvance(w: World, m: Mode, m': Mode, hidden: set<Id>, s: Step, earlier: set<Id>, p: Path, loop: Loop,
                                            r: Run, b: Run)
    requires m.Segment? && s.kind.Condition? && WfStep(s, earlier) && HidesStep(hidden, s) && SoundStep(s, p, r)
    requires var (r1, o) := ExecCondition(w, m, s.id, s.kind, p, loop, r);
             o.Parked? && Passable(w, hidden, o) && Answers(m', o) && Stands(hidden, o, r1, b)
    ensures var o := ExecCondition(w, m, s.id, s.kind, p, loop, r).1;
            var (y, o') := ExecCondition(w, m', s.id, s.kind, p, loop, b);
            o'.Parked? ==> Rank(s, p, o.at) < Rank(s, p, o'.at) || Reasks(hidden, m', r, b, y, o, o')
    decreases s.kind, 0, 0, 0
  {
    hide Alike, Framed, ViewOf, ExecSteps, SoundSteps, WfSteps, HidesSteps, BranchOutput, Passable, Stands, Reasks, Passed, RankFrom, SizeFrom, StepIds;
    var c := s.kind;
    var e := c.when.eval(ViewOf(r, c.when.uses), loop);
    var t := IsTruthy(e.value);
    var branch, via := if t then c.thn else c.els, if t then Then else Else;
    var earlier' := if t then earlier + {s.id} else earlier + {s.id} + IdsFrom(c.thn, 0);
    var (r1, o) := ExecSteps(w, m, branch, 0, p, via, loop, r, NO_FLAGS);
    StepsFramed(w, m, branch, 0, p, via, loop, r, NO_FLAGS);
    WfStepsAreNew(branch, 0, earlier');
    FramedView(r, r1, IdsFrom(branch, 0), Scope(p, via, Heads(branch, 0)), c.when.uses);
    StandsParts(hidden, o, r1, b);
    AlikeView(hidden, r1, b, c.when.uses);
    StepsAdvance(w, m, m', hidden, branch, 0, earlier', p, via, loop, r, b, NO_FLAGS, NO_FLAGS);
    StepsPark(w, m', branch, 0, p, via, loop, b, NO_FLAGS);
  }

  lemma {:induction false} ForEachAdvance(w: World, m: Mode, m': Mode, hidden: set<Id>, s: Step, earlier: set<Id>, p: Path, loop: Loop,
                                          r: Run, b: Run)
    requires m.Segment? && s.kind.ForEach? && WfStep(s, earlier) && HidesStep(hidden, s) && SoundStep(s, p, r) && p !in r.done
    requires var (r1, o) := ExecForEach(w, m, s.id, s.kind, p, loop, r);
             o.Parked? && Passable(w, hidden, o) && Answers(m', o) && Stands(hidden, o, r1, b)
    ensures var o := ExecForEach(w, m, s.id, s.kind, p, loop, r).1;
            var (y, o') := ExecForEach(w, m', s.id, s.kind, p, loop, b);
            o'.Parked? ==> Rank(s, p, o.at) < Rank(s, p, o'.at) || Reasks(hidden, m', r, b, y, o, o')
    decreases s.kind, 0, 0, 0
  {
    hide Alike, Framed, ViewOf, ExecItems, SoundSteps, WfSteps, HidesSteps, LoopOutput, Bounded, Passable, Stands, Reasks, Passed,
         RankFrom, SizeFrom, UntouchedFrom, StepIds, In, Rank, Turns;
    var c := s.kind;
    var e := c.over.eval(ViewOf(r, c.over.uses), loop);
    var items := Bounded(e.value.items, c.limit);
    var dropped := |e.value.items| - |items|;
    EnterLoop(c.children, p, r);
    var (r1, _, o) := ExecItems(w, m, c.children, items, StartIndex(r, p), s.id, dropped, p, loop, r, LOOP_START);
    ItemsFramed(w, m, c.children, items, StartIndex(r, p), s.id, dropped, p, loop, r, LOOP_START);
    WfStepsAreNew(c.children, 0, earlier + {s.id});
    FramedView(r, r1, {s.id} + IdsFrom(c.children, 0), Below(p), c.over.uses);
    StandsParts(hidden, o, r1, b);
    AlikeView(hidden, r1, b, c.over.uses);
    ItemsAdvance(w, m, m', hidden, c.children, earlier + {s.id}, items, StartIndex(r, p), s.id, dropped, p, loop, r, b, LOOP_START);
    var o' := ExecItems(w, m', c.children, items, StartIndex(b, p), s.id, dropped, p, loop, b, LOOP_START).2;
    if o'.Parked? && Turns(c.children, p, o.at, o'.at, |items|) {
      BoundedFits(e.value.items, c.limit);
      TurnsRank(s, p, o.at, o'.at, |items|);
    }
  }

  lemma BoundedFits(v: seq<Value>, limit: Option<int>)
    ensures |Bounded(v, limit)| <= ClampLimit(limit)
  {
  }

  /** `q'` is in a later iteration than `q`, or further on in the same one. */
  ghost predicate Turns(children: seq<Step>, p: Path, q: Path, q': Path, n: nat) {
    && InTurns(q, p, 0, n, Heads(children, 0)) && InTurns(q', p, 0, n, Heads(children, 0))
    && var i, j := q[|p|].via.index, q'[|p|].via.index;
       i < j || (i == j && RankFrom(children, 0, p, Item(i), q) < RankFrom(children, 0, p, Item(i), q'))
  }

  lemma TurnsRank(s: Step, p: Path, q: Path, q': Path, n: nat)
    requires s.kind.ForEach? && n <= ClampLimit(s.kind.limit) && Turns(s.kind.children, p, q, q', n)
    ensures Rank(s, p, q) < Rank(s, p, q')
  {
    hide RankFrom, SizeFrom, In;
    var i, j := q[|p|].via.index, q'[|p|].via.index;
    var size := SizeFrom(s.kind.children, 0);
    var a, b := RankFrom(s.kind.children, 0, p, Item(i), q), RankFrom(s.kind.children, 0, p, Item(j), q');
    if i < j {
      LaterTurn(i, j, size, a, b);
    }
  }

  lemma {:induction false} ItemsAdvance(w: World, m: Mode, m': Mode, hidden: set<Id>, children: seq<Step>, earlier: set<Id>,
                                        items: seq<Value>, i: nat, id: Id, dropped: nat, p: Path, loop: Loop, r: Run, b: Run, acc: LoopAcc)
    requires m.Segment? && WfSteps(children, 0, earlier) && id in earlier && HidesSteps(hidden, children, 0)
    requires p !in r.done && ItemReady(children, p, i, r)
    requires var (r1, _, o) := ExecItems(w, m, children, items, i, id, dropped, p, loop, r, acc);
             o.Parked? && Passable(w, hidden, o) && Answers(m', o) && Stands(hidden, o, r1, b)
    ensures var o := ExecItems(w, m, children, items, i, id, dropped, p, loop, r, acc).2;
            var (y, _, o') := ExecItems(w, m', children, items, StartIndex(b, p), id, dropped, p, loop, b, LOOP_START);
            o'.Parked? ==> Turns(children, p, o.at, o'.at, |items|) || Reasks(hidden, m', r, b, y, o, o')
    decreases children, 1, |items| - i, 0
  {
    hide Alike, ViewOf, ExecSteps, SoundSteps, WfSteps, HidesSteps, LoopOutput, UntouchedFrom, Framed, LoopStep, Passable, Stands, Reasks,
         Passed, RankFrom, VerdictOf, In;
    var inner := InLoop(items[i], i, loop);
    var r0 := r.(iter := r.iter[p := i]);
    ScopeAgree(children, earlier, id, p, Item(i), r, r0);
    StepsFramed(w, m, children, 0, p, Item(i), inner, r0, NO_FLAGS);
    var (r1, o) := ExecSteps(w, m, children, 0, p, Item(i), inner, r0, NO_FLAGS);
    NoMarkOutside(r0, r1, IdsFrom(children, 0), p, Item(i), Heads(children, 0));
    if o.Completed? {
      StepsSound(w, m, children, 0, earlier, p, Item(i), inner, r0, NO_FLAGS);
      LaterUntouched(r, r0, r1, p, i, IdsFrom(children, 0), Heads(children, 0));
      NextReady(children, p, i, r1);
      var acc1 := LoopStep(acc, VerdictOf(children, |children|, p, i, r1), children, o.flags);
      var r2 := r1.(iter := r1.iter - {p});
      StepsFinish(w, m, children, 0, p, Item(i), inner, r0, NO_FLAGS);
      CursorPasses(r, r0, r1, r2);
      ItemsAdvance(w, m, m', hidden, children, earlier, items, i + 1, id, dropped, p, loop, r2, b, acc1);
      var last := ExecItems(w, m, children, items, i, id, dropped, p, loop, r, acc).2;
      var (y, _, o') := ExecItems(w, m', children, items, StartIndex(b, p), id, dropped, p, loop, b, LOOP_START);
      if o'.Parked? && Reasks(hidden, m', r2, b, y, last, o') {
        ReasksWiden(hidden, m', r, r2, b, y, last, o');
      }
    } else {
      StandsParts(hidden, o, r1, b);
      assert StartIndex(b, p) == i && b.(iter := b.iter[p := i]) == b;
      StepsAdvance(w, m, m', hidden, children, 0, earlier, p, Item(i), inner, r0, b, NO_FLAGS, NO_FLAGS);
      var (y, o1) := ExecSteps(w, m', children, 0, p, Item(i), inner, b, NO_FLAGS);
      StepsPark(w, m', children, 0, p, Item(i), inner, b, NO_FLAGS);
      InTurn(o.at, p, i, |items|, Heads(children, 0));
      if o1.Parked? {
        InTurn(o1.at, p, i, |items|, Heads(children, 0));
        if Reasks(hidden, m', r0, b, y, o, o1) {
          ReasksSame(hidden, m', r, r0, b, b, y, y, o, o, o1, o1);
        }
      } else if o1.Completed? {
        var acc1 := LoopStep(LOOP_START, VerdictOf(children, |children|, p, i, y), children, o1.flags);
        ItemsPark(w, m', children, items, i + 1, id, dropped, p, loop, y.(iter := y.iter - {p}), acc1);
      }
    }
  }

  lemma InTurn(q: Path, p: Path, i: nat, n: nat, heads: set<Id>)
    requires i < n && In(q, Scope(p, Item(i), heads))
    ensures |q| > |p| && q[|p|].via == Item(i) && InTurns(q, p, 0, n, heads)
  {
  }
}
