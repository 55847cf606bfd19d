/** What a workflow means: a plain walk of its steps with no checkpoint, no cursor and no park. */
module Reference {
  import opened Prelude
  import opened Values
  import opened Workflow
  import opened Executor
  import opened WellFormed
  import opened Soundness

  datatype Plain = Plain(outputs: map<Id, Value>, status: map<Id, StepStatus>, done: set<Path>, reply: Option<Value>,
                         runFailed: bool)

  /** `Ends` says whether some step of the list succeeded, and the output of the last one that did. */
  datatype PlainEnd = Ends(succeeded: bool, last: Value) | Stops(code: string)

  datatype StepEnd = Did(skipped: bool) | Failing(code: string)

  function PlainView(g: Plain, uses: set<Id>): View {
    map id | id in uses && id in g.outputs ::
      StepView(g.outputs[id], if id in g.status then g.status[id] else Succeeded)
  }

  function Known(g: Plain, id: Id): Value {
    if id in g.outputs then OrNull(g.outputs[id]) else Null
  }

  function Record(g: Plain, id: Id, v: Value): Plain {
    g.(outputs := g.outputs[id := v])
  }

  function Mark(g: Plain, id: Id, st: StepStatus): Plain {
    g.(status := g.status[id := st])
  }

  function Tick(g: Plain, p: Path): Plain {
    g.(done := g.done + {p})
  }

  function PlainGate(s: Step, g: Plain, loop: Loop): Result<bool> {
    if s.gate.None? then Ok(true) else
    match s.gate.value.eval(PlainView(g, s.gate.value.uses), loop)
    case Ok(v) => Ok(IsTruthy(v))
    case Err(code) => Err(code)
  }

  function WalkSteps(w: World, steps: seq<Step>, k: nat, parent: Path, via: Via, loop: Loop, g: Plain, succeeded: bool,
                     last: Value): (Plain, PlainEnd)
    requires k <= |steps|
    decreases steps, 0, |steps| - k
  {
    if k == |steps| then (g, Ends(succeeded, last)) else
    var s := steps[k];
    var p := Child(parent, via, s.id);
    match PlainGate(s, g, loop)
    case Err(code) => (g, Stops(code))
    case Ok(open) =>
      if !open then
        WalkSteps(w, steps, k + 1, parent, via, loop, Tick(Mark(g, s.id, Skipped), p), succeeded, last)
      else
        var (g1, e) := WalkStep(w, s, p, loop, g);
        match e
        case Did(true) => WalkSteps(w, steps, k + 1, parent, via, loop, Tick(Mark(g1, s.id, Skipped), p), succeeded, last)
        case Did(false) =>
          WalkSteps(w, steps, k + 1, parent, via, loop, Tick(Mark(g1, s.id, Succeeded), p), true, Known(g1, s.id))
        case Failing(code) =>
          var g2 := Mark(g1, s.id, Failed);
          if !s.continueOnError then (g2, Stops(code))
          else WalkSteps(w, steps, k + 1, parent, via, loop, if via.Top? then g2.(runFailed := true) else g2, succeeded, last)
  }

  function WalkStep(w: World, s: Step, p: Path, loop: Loop, g: Plain): (Plain, StepEnd)
    decreases s, 0, 0
  {
    match s.kind
    case Leaf(act) => WalkLeaf(act, s.id, p, loop, g)
    case Reply(act) =>
      var (g1, e) := WalkLeaf(act, s.id, p, loop, g);
      (if e.Did? then g1.(reply := Some(g1.outputs[s.id])) else g1, e)
    case Email(message) => WalkEmail(message, s.id, loop, g)
    case Delay(valid) => if valid then (Record(g, s.id, w.delayOutput(p)), Did(false)) else (g, Failing("type_mismatch"))
    case Approval(prompt, abort) => WalkApproval(w, prompt, abort, s.id, p, loop, g)
    case Condition(_, _, _) => WalkCondition(w, s.id, s.kind, p, loop, g)
    case ForEach(_, _, _) => WalkForEach(w, s.id, s.kind, p, loop, g)
  }

  function WalkEmail(message: Expr, id: Id, loop: Loop, g: Plain): (Plain, StepEnd) {
    match message.eval(PlainView(g, message.uses), loop)
    case Err(code) => (g, Failing(code))
    case Ok(_) => (Record(g, id, EMAIL_OUTPUT), Did(false))
  }

  function WalkApproval(w: World, prompt: Expr, abort: bool, id: Id, p: Path, loop: Loop, g: Plain): (Plain, StepEnd) {
    match prompt.eval(PlainView(g, prompt.uses), loop)
    case Err(code) => (g, Failing(code))
    case Ok(_) => (Record(g, id, w.decision(p).output), DecisionEnd(w.decision(p), abort))
  }

  function WalkCondition(w: World, id: Id, c: Kind, p: Path, loop: Loop, g: Plain): (Plain, StepEnd)
    requires c.Condition?
    decreases c, 0, 0
  {
    match c.when.eval(PlainView(g, c.when.uses), loop)
    case Err(code) => (g, Failing(code))
    case Ok(v) =>
      var taken := IsTruthy(v);
      var branch := if taken then c.thn else c.els;
      var (g1, e) := WalkSteps(w, branch, 0, p, if taken then Then else Else, loop, g, false, Null);
      match e
      case Stops(code) => (g1, Failing(code))
      case Ends(_, _) =>
        (Record(g1, id, BranchOutput(taken, if |branch| == 0 then Null else Known(g1, branch[|branch| - 1].id))), Did(false))
  }

  function WalkForEach(w: World, id: Id, c: Kind, p: Path, loop: Loop, g: Plain): (Plain, StepEnd)
    requires c.ForEach?
    decreases c, 0, 0
  {
    match c.over.eval(PlainView(g, c.over.uses), loop)
    case Err(code) => (g, Failing(code))
    case Ok(v) =>
      if v.Null? || v.Undefined? then (Record(g, id, LoopOutput([], 0)), Did(false))
      else if !v.Arr? then (g, Failing("type_mismatch"))
      else
        var items := Bounded(v.items, c.limit);
        var (g1, entries, e) := WalkItems(w, c.children, items, 0, p, loop, g, []);
        (Record(g1, id, LoopOutput(entries, |v.items| - |items|)), e)
  }

  function WalkLeaf(act: Action, id: Id, p: Path, loop: Loop, g: Plain): (res: (Plain, StepEnd))
    ensures res.1.Did? ==> id in res.0.outputs
  {
    match act.run(p, PlainView(g, act.uses), loop)
    case LeafOk(v) => (Record(g, id, v), Did(false))
    case LeafErr(code, None) => (g, Failing(code))
    case LeafErr(code, Some(v)) => (Record(g, id, v), Failing(code))
  }

  function DecisionEnd(d: Decision, abort: bool): StepEnd {
    match d
    case Approved(_) => Did(false)
    case Rejected(_) => Failing("approval_rejected")
    case TimedOut(_) => if abort then Failing("approval_timeout") else Did(true)
  }

  /** One entry per iteration: succeeded when one of its own steps succeeded, skipped otherwise; an abort ends the list. */
  function WalkItems(w: World, children: seq<Step>, items: seq<Value>, i: nat, p: Path, loop: Loop, g: Plain,
                     entries: seq<Entry>): (res: (Plain, seq<Entry>, StepEnd))
    requires i <= |items|
    ensures res.2 == Did(false) || res.2.Failing?
    ensures entries <= res.1
    ensures res.2.Did? ==> |res.1| == |entries| + |items| - i
    ensures res.2.Did? ==> forall j :: |entries| <= j < |res.1| ==> res.1[j].EntrySucceeded? || res.1[j].EntrySkipped?
    ensures res.2.Failing? ==> |entries| < |res.1| <= |entries| + |items| - i && res.1[|res.1| - 1] == EntryFailed(res.2.code)
    ensures res.2.Failing? ==> forall j :: |entries| <= j < |res.1| - 1 ==> res.1[j].EntrySucceeded? || res.1[j].EntrySkipped?
    decreases children, 1, |items| - i
  {
    if i == |items| then (g, entries, Did(false)) else
    var (g1, e) := WalkSteps(w, children, 0, p, Item(i), InLoop(items[i], i, loop), g, false, Null);
    match e
    case Stops(code) => (g1, entries + [EntryFailed(code)], Failing(code))
    case Ends(succeeded, last) =>
      WalkItems(w, children, items, i + 1, p, loop, g1, entries + [PlainEntry(children, succeeded, last)])
  }

  function PlainEntry(children: seq<Step>, succeeded: bool, last: Value): Entry {
    if succeeded then EntrySucceeded(if |children| == 0 then None else Some(children[|children| - 1].id), last) else EntrySkipped
  }

  const PLAIN_START := Plain(map[], map[], {}, None, false)

  function Walk(w: World, steps: seq<Step>): (Plain, PlainEnd) {
    WalkSteps(w, steps, 0, [], Top, NoLoop, PLAIN_START, false, Null)
  }

  // --- The uninterrupted walk of a scope nothing has run in is the plain walk --------------------

  function Forget(r: Run): Plain {
    Plain(r.outputs, r.status, r.done, r.reply, r.runFailed)
  }

  predicate SameEnd(o: Outcome, e: StepEnd) {
    match e
    case Did(skipped) => o.Completed? && o.skipped == skipped
    case Failing(code) => o == Aborted(code)
  }

  predicate SameStepsEnd(o: Outcome, e: PlainEnd) {
    match e
    case Ends(_, _) => o.Completed? && !o.skipped
    case Stops(code) => o == Aborted(code)
  }

  ghost predicate Clean(r: Run, g: Region) {
    forall q: Path {:trigger In(q, g)} :: In(q, g) ==> q !in r.done && q !in r.iter
  }

  lemma CleanWithin(r: Run, g: Region, h: Region)
    requires Clean(r, g) && Within(h, g)
    ensures Clean(r, h)
  {
    forall q | In(q, h) ensures q !in r.done && q !in r.iter {
      assert In(q, g);
    }
  }

  lemma CleanAgree(r: Run, r': Run, ids: set<Id>, g: Region)
    requires Clean(r, g) && Agree(r, r', ids, g)
    ensures Clean(r', g)
  {
    forall q | In(q, g) ensures q !in r'.done && q !in r'.iter {
      assert SameMark(r, r', q);
    }
  }

  lemma SameViews(r: Run, uses: set<Id>)
    ensures ViewOf(r, uses) == PlainView(Forget(r), uses)
  {
  }

  /** In a loop, the verdict read from the state is what the walk has seen so far. */
  ghost predicate Tally(steps: seq<Step>, k: nat, parent: Path, via: Via, r: Run, succeeded: bool, last: Value)
    requires k <= |steps|
  {
    via.Item? ==> VerdictOf(steps, k, parent, via.index, r) == Verdict(succeeded, succeeded, if succeeded then last else Null)
  }

  lemma {:induction false} VerdictFramed(steps: seq<Step>, n: nat, p: Path, i: nat, r: Run, r': Run, ids: set<Id>, g: Region)
    requires n <= |steps| && Framed(r, r', ids, g)
    requires forall j :: 0 <= j < n ==> steps[j].id !in ids
    requires forall j :: 0 <= j < n ==> !In(Child(p, Item(i), steps[j].id), g)
    ensures VerdictOf(steps, n, p, i, r) == VerdictOf(steps, n, p, i, r')
  {
    if n > 0 {
      VerdictFramed(steps, n - 1, p, i, r, r', ids, g);
      assert SameId(r, r', steps[n - 1].id);
    }
  }

  lemma TallyStep(steps: seq<Step>, k: nat, earlier: set<Id>, parent: Path, via: Via, r: Run, r2: Run, succeeded: bool, last: Value)
    requires k < |steps| && WfSteps(steps, k, earlier) && (forall j :: 0 <= j < k ==> steps[j].id in earlier)
    requires Tally(steps, k, parent, via, r, succeeded, last)
    requires Framed(r, r2, StepIds(steps[k]), Below(Child(parent, via, steps[k].id)))
    ensures var id := steps[k].id;
            var marked := Child(parent, via, id) in r2.done && id in r2.status;
            && (Child(parent, via, id) !in r2.done || (id in r2.status && r2.status[id] == Skipped) ==>
                  Tally(steps, k + 1, parent, via, r2, succeeded, last))
            && (marked && r2.status[id] == Succeeded ==> Tally(steps, k + 1, parent, via, r2, true, Output(r2, id)))
  {
    if via.Item? {
      WfStepIsNew(steps[k], earlier);
      var g := Below(Child(parent, via, steps[k].id));
      forall j | 0 <= j < k ensures !In(Child(parent, via, steps[j].id), g) {
        assert Child(parent, via, steps[j].id)[|parent|].id != Child(parent, via, steps[k].id)[|parent|].id;
      }
      VerdictFramed(steps, k, parent, via.index, r, r2, StepIds(steps[k]), g);
    }
  }

  lemma {:induction false} StepsPlain(w: World, steps: seq<Step>, k: nat, earlier: set<Id>, parent: Path, via: Via, loop: Loop,
                                      r: Run, acc: Flags, succeeded: bool, last: Value)
    requires k <= |steps| && WfSteps(steps, k, earlier) && (forall j :: 0 <= j < k ==> steps[j].id in earlier)
    requires Clean(r, Scope(parent, via, Heads(steps, k)))
    requires Tally(steps, k, parent, via, r, succeeded, last)
    ensures var (r', o) := ExecSteps(w, Uninterrupted, steps, k, parent, via, loop, r, acc);
            var (g', e) := WalkSteps(w, steps, k, parent, via, loop, Forget(r), succeeded, last);
            && Forget(r') == g' && SameStepsEnd(o, e)
            && (e.Ends? ==> Tally(steps, |steps|, parent, via, r', e.succeeded, e.last))
    decreases steps, 0, |steps| - k, 2
  {
    hide Clean, Framed, Agree, ExecStep, WalkStep, WfStep, ViewOf, PlainView, Tally, Within, Gate, PlainGate;
    if k < |steps| {
      var s := steps[k];
      var p := Child(parent, via, s.id);
      SameGate(s, r, loop);
      var g := Gate(s, r, loop);
      if g.Ok? {
        HeadClean(steps, k, parent, via, r);
        if !g.value {
          var r1 := SkipStep(r, s.id, p);
          LocalFramed(r, r1, s.id, p);
          BelowSelf(p);
          FramedWeaken(r, r1, {s.id}, Below(p), StepIds(s), Below(p));
          TallyStep(steps, k, earlier, parent, via, r, r1, succeeded, last);
          TailPlain(w, steps, k, earlier, parent, via, loop, r, r1, acc, succeeded, last);
        } else {
          RanPlain(w, steps, k, earlier, parent, via, loop, r, acc, succeeded, last);
        }
      }
    }
  }

  lemma SameGate(s: Step, r: Run, loop: Loop)
    ensures Gate(s, r, loop) == PlainGate(s, Forget(r), loop)
  {
    if s.gate.Some? {
      SameViews(r, s.gate.value.uses);
    }
  }

  lemma ExecTurn(w: World, steps: seq<Step>, k: nat, parent: Path, via: Via, loop: Loop, r: Run, acc: Flags)
    requires k < |steps| && Gate(steps[k], r, loop) == Ok(true)
    ensures var p := Child(parent, via, steps[k].id);
            var (r1, o) := ExecStep(w, Uninterrupted, steps[k], p, loop, r);
            var whole := ExecSteps(w, Uninterrupted, steps, k, parent, via, loop, r, acc);
            p !in r.done ==>
              && (o.Completed? ==>
                    whole == ExecSteps(w, Uninterrupted, steps, k + 1, parent, via, loop, MarkDone(r1, p), acc.(anySuccess := true)))
              && (o.Aborted? && !steps[k].continueOnError ==> whole == (r1, o))
              && (o.Aborted? && steps[k].continueOnError ==>
                    whole == ExecSteps(w, Uninterrupted, steps, k + 1, parent, via, loop, Swallow(r1, via),
                                       SwallowFlags(acc, o.code, steps[k])))
  {
    hide ExecStep, Gate;
  }

  lemma WalkTurn(w: World, steps: seq<Step>, k: nat, parent: Path, via: Via, loop: Loop, g: Plain, succeeded: bool, last: Value)
    requires k < |steps| && PlainGate(steps[k], g, loop) == Ok(true)
    ensures var s := steps[k];
            var p := Child(parent, via, s.id);
            var (g1, e) := WalkStep(w, s, p, loop, g);
            WalkSteps(w, steps, k, parent, via, loop, g, succeeded, last) ==
            match e
            case Did(true) => WalkSteps(w, steps, k + 1, parent, via, loop, Tick(Mark(g1, s.id, Skipped), p), succeeded, last)
            case Did(false) =>
              WalkSteps(w, steps, k + 1, parent, via, loop, Tick(Mark(g1, s.id, Succeeded), p), true, Known(g1, s.id))
            case Failing(code) =>
              var g2 := Mark(g1, s.id, Failed);
              if !s.continueOnError then (g2, Stops(code))
              else WalkSteps(w, steps, k + 1, parent, via, loop, if via.Top? then g2.(runFailed := true) else g2, succeeded, last)
  {
    hide WalkStep, PlainGate;
  }

  /** Step `k` itself is run. */
  lemma {:induction false} RanPlain(w: World, steps: seq<Step>, k: nat, earlier: set<Id>, parent: Path, via: Via, loop: Loop,
                                    r: Run, acc: Flags, succeeded: bool, last: Value)
    requires k < |steps| && WfSteps(steps, k, earlier) && (forall j :: 0 <= j < k ==> steps[j].id in earlier)
    requires Clean(r, Scope(parent, via, Heads(steps, k)))
    requires Tally(steps, k, parent, via, r, succeeded, last)
    requires Gate(steps[k], r, loop) == PlainGate(steps[k], Forget(r), loop) == Ok(true)
    ensures var (r', o) := ExecSteps(w, Uninterrupted, steps, k, parent, via, loop, r, acc);
            var (g', e) := WalkSteps(w, steps, k, parent, via, loop, Forget(r), succeeded, last);
            && Forget(r') == g' && SameStepsEnd(o, e)
            && (e.Ends? ==> Tally(steps, |steps|, parent, via, r', e.succeeded, e.last))
    decreases steps, 0, |steps| - k, 1
  {
    hide Clean, Framed, Agree, ExecStep, ExecSteps, WalkStep, WalkSteps, WfStep, Tally, Within, Gate, PlainGate, StepIds, Forget, Mark,
         Tick, Known, Output, MarkDone, Swallow, SwallowFlags;
    var s := steps[k];
    var p := Child(parent, via, s.id);
    ExecTurn(w, steps, k, parent, via, loop, r, acc);
    WalkTurn(w, steps, k, parent, via, loop, Forget(r), succeeded, last);
    HeadClean(steps, k, parent, via, r);
    StepEnds(w, s, earlier, p, via, loop, r);
    var (r1, o) := ExecStep(w, Uninterrupted, s, p, loop, r);
    if o.Completed? || s.continueOnError {
      var r2 := if o.Completed? then MarkDone(r1, p) else Swallow(r1, via);
      TallyStep(steps, k, earlier, parent, via, r, r2, succeeded, last);
      var acc2 := if o.Completed? then acc.(anySuccess := true) else SwallowFlags(acc, o.code, s);
      if o.Completed? && !o.skipped {
        TailPlain(w, steps, k, earlier, parent, via, loop, r, r2, acc2, true, Output(r2, s.id));
      } else {
        TailPlain(w, steps, k, earlier, parent, via, loop, r, r2, acc2, succeeded, last);
      }
    }
  }

  /** What a step leaves in the two walks once its list has recorded how it ended. */
  lemma {:induction false} StepEnds(w: World, s: Step, earlier: set<Id>, p: Path, via: Via, loop: Loop, r: Run)
    requires WfStep(s, earlier) && Clean(r, Below(p)) && p !in r.done
    ensures var (r1, o) := ExecStep(w, Uninterrupted, s, p, loop, r);
            var (g1, e) := WalkStep(w, s, p, loop, Forget(r));
            var r2 := if o.Completed? then MarkDone(r1, p) else Swallow(r1, via);
            && SameEnd(o, e) && Framed(r, r2, StepIds(s), Below(p)) && (p in r2.done <==> o.Completed?)
            && s.id in r2.status && (o.Completed? ==> r2.status[s.id] == if o.skipped then Skipped else Succeeded)
            && match e
               case Did(skipped) =>
                 && Forget(r2) == Tick(Mark(g1, s.id, if skipped then Skipped else Succeeded), p)
                 && Output(r2, s.id) == Known(g1, s.id)
               case Failing(_) =>
                 var g2 := Mark(g1, s.id, Failed);
                 Forget(r1) == g2 && Forget(r2) == if via.Top? then g2.(runFailed := true) else g2
    decreases s, 1, 0, 1
  {
    hide Clean, Framed, ExecStep, WalkStep, WfStep, StepIds;
    StepPlain(w, s, earlier, p, loop, r);
    StepFramed(w, Uninterrupted, s, p, loop, r);
    OwnId(s);
    var (r1, o) := ExecStep(w, Uninterrupted, s, p, loop, r);
    var r2 := if o.Completed? then MarkDone(r1, p) else Swallow(r1, via);
    LocalAfter(r, r1, r2, StepIds(s), s.id, p);
  }

  lemma BelowSelf(p: Path)
    ensures Within(Below(p), Below(p))
  {
  }

  lemma HeadClean(steps: seq<Step>, k: nat, parent: Path, via: Via, r: Run)
    requires k < |steps| && Clean(r, Scope(parent, via, Heads(steps, k)))
    ensures Clean(r, Below(Child(parent, via, steps[k].id)))
    ensures Clean(r, Scope(parent, via, Heads(steps, k + 1)))
    ensures Child(parent, via, steps[k].id) !in r.done
  {
    ScopeShrinks(steps, k, parent, via);
    CleanWithin(r, Scope(parent, via, Heads(steps, k)), Below(Child(parent, via, steps[k].id)));
    CleanWithin(r, Scope(parent, via, Heads(steps, k)), Scope(parent, via, Heads(steps, k + 1)));
    assert In(Child(parent, via, steps[k].id), Below(Child(parent, via, steps[k].id)));
  }

  lemma {:induction false} TailPlain(w: World, steps: seq<Step>, k: nat, earlier: set<Id>, parent: Path, via: Via, loop: Loop,
                                     r: Run, r2: Run, acc: Flags, succeeded: bool, last: Value)
    requires k < |steps| && WfSteps(steps, k, earlier) && (forall j :: 0 <= j < k ==> steps[j].id in earlier)
    requires Clean(r, Scope(parent, via, Heads(steps, k + 1)))
    requires Framed(r, r2, StepIds(steps[k]), Below(Child(parent, via, steps[k].id)))
    requires Tally(steps, k + 1, parent, via, r2, succeeded, last)
    ensures var (r', o) := ExecSteps(w, Uninterrupted, steps, k + 1, parent, via, loop, r2, acc);
            var (g', e) := WalkSteps(w, steps, k + 1, parent, via, loop, Forget(r2), succeeded, last);
            && Forget(r') == g' && SameStepsEnd(o, e)
            && (e.Ends? ==> Tally(steps, |steps|, parent, via, r', e.succeeded, e.last))
    decreases steps, 0, |steps| - k, 0
  {
    hide Clean, Framed, Agree, ExecSteps, WalkSteps, Tally, WfStep;
    SiblingsAgree(steps, k, parent, via, earlier, r, r2);
    CleanAgree(r, r2, IdsFrom(steps, k + 1), Scope(parent, via, Heads(steps, k + 1)));
    StepsPlain(w, steps, k + 1, earlier + StepIds(steps[k]), parent, via, loop, r2, acc, succeeded, last);
  }

  lemma {:induction false} StepPlain(w: World, s: Step, earlier: set<Id>, p: Path, loop: Loop, r: Run)
    requires WfStep(s, earlier) && Clean(r, Below(p))
    ensures var (r', o) := ExecStep(w, Uninterrupted, s, p, loop, r);
            var (g', e) := WalkStep(w, s, p, loop, Forget(r));
            && SameEnd(o, e)
            && Forget(r') == Mark(g', s.id, if o.Aborted? then Failed else if o.skipped then Skipped else Succeeded)
    decreases s, 1, 0, 0
  {
    hide Clean, ExecBody, WalkStep, WfStep;
    var r0 := r.(rows := r.rows[p := RowRunning]);
    RowsClean(r, r0, Below(p));
    BodyPlain(w, s, earlier, p, loop, r0);
  }

  lemma RowsClean(r: Run, r': Run, g: Region)
    requires Clean(r, g) && r'.done == r.done && r'.iter == r.iter
    ensures Clean(r', g)
  {
  }

  lemma {:induction false} BodyPlain(w: World, s: Step, earlier: set<Id>, p: Path, loop: Loop, r: Run)
    requires WfStep(s, earlier) && Clean(r, Below(p))
    ensures var (r', o) := ExecBody(w, Uninterrupted, s, p, loop, r);
            var (g', e) := WalkStep(w, s, p, loop, Forget(r));
            Forget(r') == g' && SameEnd(o, e)
    decreases s, 0, 0, 0
  {
    hide Clean, ExecCondition, ExecForEach, WalkCondition, WalkForEach, WalkLeaf, ExecLeaf, WalkEmail, ExecEmail, WalkApproval,
      ExecApproval, ViewOf, PlainView;
    match s.kind
    case Condition(_, _, _) => ConditionPlain(w, s, earlier, p, loop, r);
    case ForEach(_, _, _) => ForEachPlain(w, s, earlier, p, loop, r);
    case Leaf(act) => LeafPlain(act, s.id, p, loop, r);
    case Reply(act) => LeafPlain(act, s.id, p, loop, r);
    case Email(message) => EmailPlain(message, s.id, p, loop, r);
    case Delay(_) =>
    case Approval(prompt, abort) => ApprovalPlain(w, prompt, abort, s.id, p, loop, r);
  }

  lemma LeafPlain(act: Action, id: Id, p: Path, loop: Loop, r: Run)
    ensures var (r', o) := ExecLeaf(act, id, p, loop, r);
            var (g', e) := WalkLeaf(act, id, p, loop, Forget(r));
            Forget(r') == g' && SameEnd(o, e)
  {
    SameViews(r, act.uses);
  }

  lemma EmailPlain(message: Expr, id: Id, p: Path, loop: Loop, r: Run)
    ensures var (r', o) := ExecEmail(message, id, p, loop, r);
            var (g', e) := WalkEmail(message, id, loop, Forget(r));
            Forget(r') == g' && SameEnd(o, e)
  {
    SameViews(r, message.uses);
  }

  lemma ApprovalPlain(w: World, prompt: Expr, abort: bool, id: Id, p: Path, loop: Loop, r: Run)
    ensures var (r', o) := ExecApproval(w, Uninterrupted, prompt, abort, id, p, loop, r);
            var (g', e) := WalkApproval(w, prompt, abort, id, p, loop, Forget(r));
            Forget(r') == g' && SameEnd(o, e)
  {
    hide ViewOf, PlainView, OutputOnly, SetOutput, Record;
    SameViews(r, prompt.uses);
    ForgetSet(r, r.(approval := None), id, w.decision(p).output);
    ForgetSet(r, r, id, w.decision(p).output);
  }

  lemma ForgetSet(r: Run, r': Run, id: Id, v: Value)
    requires Forget(r) == Forget(r')
    ensures Forget(SetOutput(r', id, v)) == Record(Forget(r), id, v)
  {
  }

  lemma EmptyWalk(w: World, steps: seq<Step>, parent: Path, via: Via, loop: Loop, g: Plain)
    requires |steps| == 0
    ensures WalkSteps(w, steps, 0, parent, via, loop, g, false, Null) == (g, Ends(false, Null))
  {
  }

  lemma {:induction false} ConditionPlain(w: World, s: Step, earlier: set<Id>, p: Path, loop: Loop, r: Run)
    requires s.kind.Condition? && WfStep(s, earlier) && Clean(r, Below(p))
    ensures var (r', o) := ExecCondition(w, Uninterrupted, s.id, s.kind, p, loop, r);
            var (g', e) := WalkCondition(w, s.id, s.kind, p, loop, Forget(r));
            Forget(r') == g' && SameEnd(o, e)
    decreases s.kind, 0, 0, 0
  {
    hide Clean, ViewOf, PlainView, WfSteps, BranchOutput, ExecSteps, WalkSteps;
    var c := s.kind;
    SameViews(r, c.when.uses);
    var e := c.when.eval(ViewOf(r, c.when.uses), loop);
    if e.Ok? {
      var t := IsTruthy(e.value);
      var branch, via := if t then c.thn else c.els, if t then Then else Else;
      if |branch| > 0 {
        ScopeBelow(p, via, Heads(branch, 0));
        CleanWithin(r, Below(p), Scope(p, via, Heads(branch, 0)));
        var earlier' := if t then earlier + {s.id} else earlier + {s.id} + IdsFrom(c.thn, 0);
        StepsPlain(w, branch, 0, earlier', p, via, loop, r, NO_FLAGS, false, Null) by {
          assert Tally(branch, 0, p, via, r, false, Null);
        }
      } else {
        EmptyWalk(w, branch, p, via, loop, Forget(r));
      }
    }
  }

  lemma {:induction false} ForEachPlain(w: World, s: Step, earlier: set<Id>, p: Path, loop: Loop, r: Run)
    requires s.kind.ForEach? && WfStep(s, earlier) && Clean(r, Below(p))
    ensures var (r', o) := ExecForEach(w, Uninterrupted, s.id, s.kind, p, loop, r);
            var (g', e) := WalkForEach(w, s.id, s.kind, p, loop, Forget(r));
            Forget(r') == g' && SameEnd(o, e)
    decreases s.kind, 0, 0, 0
  {
    hide Clean, ViewOf, PlainView, WfSteps, LoopOutput, ExecItems, WalkItems, Bounded;
    var c := s.kind;
    SameViews(r, c.over.uses);
    var e := c.over.eval(ViewOf(r, c.over.uses), loop);
    if e.Ok? {
      if e.value.Arr? {
        var items := Bounded(e.value.items, c.limit);
        NoCursor(r, p);
        ItemsPlain(w, c.children, earlier + {s.id}, items, 0, s.id, |e.value.items| - |items|, p, loop, r, LOOP_START);
      }
    }
  }

  lemma NoCursor(r: Run, p: Path)
    requires Clean(r, Below(p))
    ensures StartIndex(r, p) == 0 && UntouchedFrom(r, p, 0)
  {
    assert In(p, Below(p));
    forall j: nat ensures Untouched(r, p, Item(j)) {
      InsideBelow(p, Item(j));
    }
  }

  lemma {:induction false} ItemsPlain(w: World, children: seq<Step>, earlier: set<Id>, items: seq<Value>, i: nat, id: Id, dropped: nat,
                                      p: Path, loop: Loop, r: Run, acc: LoopAcc)
    requires i <= |items| && WfSteps(children, 0, earlier) && UntouchedFrom(r, p, i) && AccOk(acc)
    ensures var (r', acc', o) := ExecItems(w, Uninterrupted, children, items, i, id, dropped, p, loop, r, acc);
            var (g', entries, e) := WalkItems(w, children, items, i, p, loop, Forget(r), acc.entries);
            && SameEnd(o, e) && acc'.entries == entries
            && (e.Did? ==> Forget(r') == g' && AccOk(acc'))
            && (e.Failing? ==> Forget(r') == Record(g', id, LoopOutput(entries, dropped)))
    decreases children, 1, |items| - i, 0
  {
    hide UntouchedFrom, ExecSteps, WalkSteps, LoopOutput, WfSteps, Framed;
    if i < |items| {
      var r0 := r.(iter := r.iter[p := i]);
      var inner := InLoop(items[i], i, loop);
      ItemClean(r, r0, p, i, Heads(children, 0));
      StepsPlain(w, children, 0, earlier, p, Item(i), inner, r0, NO_FLAGS, false, Null);
      StepsFramed(w, Uninterrupted, children, 0, p, Item(i), inner, r0, NO_FLAGS);
      var (r1, o) := ExecSteps(w, Uninterrupted, children, 0, p, Item(i), inner, r0, NO_FLAGS);
      if o.Completed? {
        var r2 := r1.(iter := r1.iter - {p});
        StillUntouched(r, r0, r1, r2, p, i, IdsFrom(children, 0), Heads(children, 0));
        var v := VerdictOf(children, |children|, p, i, r1);
        ItemsPlain(w, children, earlier, items, i + 1, id, dropped, p, loop, r2, LoopStep(acc, v, children, o.flags));
      }
    }
  }

  lemma ItemClean(r: Run, r0: Run, p: Path, i: nat, heads: set<Id>)
    requires UntouchedFrom(r, p, i) && r0 == r.(iter := r.iter[p := i])
    ensures Clean(r0, Scope(p, Item(i), heads))
  {
    assert Untouched(r, p, Item(i));
    forall q: Path | In(q, Scope(p, Item(i), heads)) ensures q !in r0.done && q !in r0.iter {
      assert Inside(q, p, Item(i));
    }
  }

  lemma StillUntouched(r: Run, r0: Run, r1: Run, r2: Run, p: Path, i: nat, ids: set<Id>, heads: set<Id>)
    requires UntouchedFrom(r, p, i) && r0 == r.(iter := r.iter[p := i]) && r2 == r1.(iter := r1.iter - {p})
    requires Framed(r0, r1, ids, Scope(p, Item(i), heads))
    ensures UntouchedFrom(r2, p, i + 1)
  {
    LaterUntouched(r, r0, r1, p, i, ids, heads);
    forall j: nat | j >= i + 1 ensures Untouched(r2, p, Item(j)) {
      assert Untouched(r1, p, Item(j));
    }
  }
}
