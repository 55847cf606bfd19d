/** When a run fails: exactly when a step of its top list has failed, or has an `if` that does not evaluate. */
module RunVerdict {
  import opened Prelude
  import opened Values
  import opened Workflow
  import opened Executor
  import opened WellFormed
  import opened Parking
  import opened Reference
  import opened Durability

  // --- What a plain walk leaves alone ----------------------------------------------------------------

  ghost predicate SameRecord(g: Plain, g': Plain, id: Id) {
    && (id in g.outputs <==> id in g'.outputs) && (id in g.outputs ==> g.outputs[id] == g'.outputs[id])
    && (id in g.status <==> id in g'.status) && (id in g.status ==> g.status[id] == g'.status[id])
  }

  /** Only records of `ids` change, and inside a container the failure mark of the run does not. */
  ghost predicate Keeps(g: Plain, g': Plain, ids: set<Id>, inner: bool) {
    && (forall id {:trigger SameRecord(g, g', id)} :: id !in ids ==> SameRecord(g, g', id))
    && (inner ==> g'.runFailed == g.runFailed)
  }

  lemma KeepsTrans(g: Plain, g1: Plain, g2: Plain, ids1: set<Id>, ids2: set<Id>, ids: set<Id>, inner: bool)
    requires Keeps(g, g1, ids1, inner) && Keeps(g1, g2, ids2, inner) && ids1 <= ids && ids2 <= ids
    ensures Keeps(g, g2, ids, inner)
  {
    forall id | id !in ids ensures SameRecord(g, g2, id) {
      assert SameRecord(g, g1, id) && SameRecord(g1, g2, id);
    }
  }

  /** A change to the record of one step. */
  lemma OwnRecord(g: Plain, g': Plain, ids: set<Id>, id: Id, inner: bool)
    requires id in ids && OnlyAt(g.outputs, g'.outputs, id) && OnlyAt(g.status, g'.status, id)
    requires inner ==> g'.runFailed == g.runFailed
    ensures Keeps(g, g', ids, inner)
  {
  }

  lemma {:induction false} StepsKeep(w: World, steps: seq<Step>, k: nat, parent: Path, via: Via, loop: Loop, g: Plain, succeeded: bool,
                                     last: Value)
    requires k <= |steps|
    ensures Keeps(g, WalkSteps(w, steps, k, parent, via, loop, g, succeeded, last).0, IdsFrom(steps, k), via != Top)
    decreases steps, 0, |steps| - k, 1
  {
    hide Keeps, WalkStep, WalkSteps, PlainGate, StepIds, IdsFrom;
    var ids, inner := IdsFrom(steps, k), via != Top;
    OwnRecords(g, ids, inner);
    WalkEnds(w, steps, k, parent, via, loop, g, succeeded, last);
    if k < |steps| {
      var s := steps[k];
      IdsParts(steps, k);
      match PlainGate(s, g, loop)
      case Err(_) =>
      case Ok(open) =>
        if !open {
          var g2 := Tick(Mark(g, s.id, Skipped), Child(parent, via, s.id));
          OwnId(s);
          OwnRecord(g, g2, StepIds(s), s.id, inner);
          StepsKeep(w, steps, k + 1, parent, via, loop, g2, succeeded, last);
          KeepsTrans(g, g2, WalkSteps(w, steps, k + 1, parent, via, loop, g2, succeeded, last).0, StepIds(s), IdsFrom(steps, k + 1),
                     ids, inner);
        } else {
          RanKeeps(w, steps, k, parent, via, loop, g, succeeded, last);
        }
    }
  }

  lemma IdsParts(steps: seq<Step>, k: nat)
    requires k < |steps|
    ensures StepIds(steps[k]) <= IdsFrom(steps, k) && IdsFrom(steps, k + 1) <= IdsFrom(steps, k)
  {
    hide StepIds;
  }

  /** Where the walk of a list ends at once, or passes over its next step. */
  lemma WalkEnds(w: World, steps: seq<Step>, k: nat, parent: Path, via: Via, loop: Loop, g: Plain, succeeded: bool, last: Value)
    requires k <= |steps|
    ensures var whole := WalkSteps(w, steps, k, parent, via, loop, g, succeeded, last);
            if k == |steps| then whole.0 == g else
            var gate := PlainGate(steps[k], g, loop);
            && (gate.Err? ==> whole.0 == g)
            && (gate == Ok(false) ==>
                  var g2 := Tick(Mark(g, steps[k].id, Skipped), Child(parent, via, steps[k].id));
                  whole == WalkSteps(w, steps, k + 1, parent, via, loop, g2, succeeded, last))
  {
    hide WalkStep, PlainGate;
  }

  /** Step `k` is run. */
  lemma {:induction false} RanKeeps(w: World, steps: seq<Step>, k: nat, parent: Path, via: Via, loop: Loop, g: Plain, succeeded: bool,
                                    last: Value)
    requires k < |steps| && PlainGate(steps[k], g, loop) == Ok(true)
    ensures Keeps(g, WalkSteps(w, steps, k, parent, via, loop, g, succeeded, last).0, IdsFrom(steps, k), via != Top)
    decreases steps, 0, |steps| - k, 0
  {
    hide Keeps, WalkStep, WalkSteps, PlainGate, StepIds, IdsFrom;
    var ids, inner, s := IdsFrom(steps, k), via != Top, steps[k];
    IdsParts(steps, k);
    var p := Child(parent, via, s.id);
    OwnId(s);
    StepKeeps(w, s, p, loop, g, inner);
    var (g1, e) := WalkStep(w, s, p, loop, g);
    WalkTurn(w, steps, k, parent, via, loop, g, succeeded, last);
    var failed := Mark(g1, s.id, StepStatus.Failed);
    var g2 := match e
      case Did(skipped) => Tick(Mark(g1, s.id, if skipped then Skipped else Succeeded), p)
      case Failing(_) => if s.continueOnError && via.Top? then failed.(runFailed := true) else failed;
    OwnRecord(g1, g2, StepIds(s), s.id, inner);
    KeepsTrans(g, g1, g2, StepIds(s), StepIds(s), ids, inner);
    if e.Did? || s.continueOnError {
      var (succeeded', last') := if e == Did(false) then (true, Known(g1, s.id)) else (succeeded, last);
      StepsKeep(w, steps, k + 1, parent, via, loop, g2, succeeded', last');
      KeepsTrans(g, g2, WalkSteps(w, steps, k + 1, parent, via, loop, g2, succeeded', last').0, ids, IdsFrom(steps, k + 1), ids, inner);
    }
  }

  lemma OwnRecords(g: Plain, ids: set<Id>, inner: bool)
    ensures Keeps(g, g, ids, inner)
  {
  }

  lemma {:induction false} StepKeeps(w: World, s: Step, p: Path, loop: Loop, g: Plain, inner: bool)
    ensures Keeps(g, WalkStep(w, s, p, loop, g).0, StepIds(s), inner)
    decreases s, 0, 0
  {
    hide Keeps, WalkCondition, WalkForEach, PlainView, StepIds;
    OwnId(s);
    match s.kind
    case Condition(_, _, _) => ConditionKeeps(w, s, p, loop, g, inner);
    case ForEach(_, _, _) => ForEachKeeps(w, s, p, loop, g, inner);
    case _ => LeafKeeps(w, s, p, loop, g, inner);
  }

  /** A step without steps inside changes its own output, and perhaps the reply. */
  ghost predicate OwnOutput(g: Plain, g1: Plain, id: Id) {
    g1.status == g.status && g1.runFailed == g.runFailed && OnlyAt(g.outputs, g1.outputs, id)
  }

  lemma LeafKeeps(w: World, s: Step, p: Path, loop: Loop, g: Plain, inner: bool)
    requires !s.kind.Condition? && !s.kind.ForEach?
    ensures Keeps(g, WalkStep(w, s, p, loop, g).0, StepIds(s), inner)
  {
    hide Keeps, WalkCondition, WalkForEach, WalkLeaf, WalkEmail, WalkApproval, StepIds;
    OwnId(s);
    match s.kind {
      case Leaf(act) => LeafOutput(act, s.id, p, loop, g);
      case Reply(act) => LeafOutput(act, s.id, p, loop, g);
      case Email(message) => EmailOutput(message, s.id, loop, g);
      case Approval(prompt, abort) => ApprovalOutput(w, prompt, abort, s.id, p, loop, g);
      case Delay(_) =>
    }
    OwnRecord(g, WalkStep(w, s, p, loop, g).0, StepIds(s), s.id, inner);
  }

  lemma LeafOutput(act: Action, id: Id, p: Path, loop: Loop, g: Plain)
    ensures OwnOutput(g, WalkLeaf(act, id, p, loop, g).0, id)
  {
    hide PlainView;
  }

  lemma EmailOutput(message: Expr, id: Id, loop: Loop, g: Plain)
    ensures OwnOutput(g, WalkEmail(message, id, loop, g).0, id)
  {
    hide PlainView;
  }

  lemma ApprovalOutput(w: World, prompt: Expr, abort: bool, id: Id, p: Path, loop: Loop, g: Plain)
    ensures OwnOutput(g, WalkApproval(w, prompt, abort, id, p, loop, g).0, id)
  {
    hide PlainView;
  }

  lemma {:induction false} ConditionKeeps(w: World, s: Step, p: Path, loop: Loop, g: Plain, inner: bool)
    requires s.kind.Condition?
    ensures Keeps(g, WalkCondition(w, s.id, s.kind, p, loop, g).0, StepIds(s), inner)
    decreases s.kind, 1, 0
  {
    hide Keeps, WalkSteps, PlainView, IdsFrom;
    var c := s.kind;
    OwnRecords(g, StepIds(s), inner);
    match c.when.eval(PlainView(g, c.when.uses), loop)
    case Err(_) =>
    case Ok(v) =>
      var taken := IsTruthy(v);
      var branch := if taken then c.thn else c.els;
      StepsKeep(w, branch, 0, p, if taken then Then else Else, loop, g, false, Null);
      var g1 := WalkSteps(w, branch, 0, p, if taken then Then else Else, loop, g, false, Null).0;
      var g' := WalkCondition(w, s.id, c, p, loop, g).0;
      OwnRecord(g1, g', {s.id}, s.id, true);
      KeepsTrans(g, g1, g', IdsFrom(branch, 0), {s.id}, StepIds(s), true);
      KeepsWeaker(g, g', StepIds(s), inner);
  }

  lemma KeepsWeaker(g: Plain, g': Plain, ids: set<Id>, inner: bool)
    requires Keeps(g, g', ids, true)
    ensures Keeps(g, g', ids, inner)
  {
  }

  lemma {:induction false} ForEachKeeps(w: World, s: Step, p: Path, loop: Loop, g: Plain, inner: bool)
    requires s.kind.ForEach?
    ensures Keeps(g, WalkForEach(w, s.id, s.kind, p, loop, g).0, StepIds(s), inner)
    decreases s.kind, 1, 0
  {
    hide Keeps, WalkItems, PlainView, IdsFrom, LoopOutput, Bounded;
    var c := s.kind;
    var g' := WalkForEach(w, s.id, c, p, loop, g).0;
    OwnRecords(g, StepIds(s), inner);
    match c.over.eval(PlainView(g, c.over.uses), loop)
    case Err(_) =>
    case Ok(v) =>
      if v.Null? || v.Undefined? {
        OwnRecord(g, g', StepIds(s), s.id, inner);
      } else if v.Arr? {
        var items := Bounded(v.items, c.limit);
        ItemsKeep(w, c.children, items, 0, p, loop, g, []);
        var g1 := WalkItems(w, c.children, items, 0, p, loop, g, []).0;
        OwnRecord(g1, g', {s.id}, s.id, true);
        KeepsTrans(g, g1, g', IdsFrom(c.children, 0), {s.id}, StepIds(s), true);
        KeepsWeaker(g, g', StepIds(s), inner);
      }
  }

  lemma {:induction false} ItemsKeep(w: World, children: seq<Step>, items: seq<Value>, i: nat, p: Path, loop: Loop, g: Plain,
                                     entries: seq<Entry>)
    requires i <= |items|
    ensures Keeps(g, WalkItems(w, children, items, i, p, loop, g, entries).0, IdsFrom(children, 0), true)
    decreases children, 1, |items| - i
  {
    hide Keeps, WalkSteps, IdsFrom;
    var ids := IdsFrom(children, 0);
    OwnRecords(g, ids, true);
    if i < |items| {
      var inside := InLoop(items[i], i, loop);
      StepsKeep(w, children, 0, p, Item(i), inside, g, false, Null);
      var (g1, e) := WalkSteps(w, children, 0, p, Item(i), inside, g, false, Null);
      if e.Ends? {
        var entries' := entries + [PlainEntry(children, e.succeeded, e.last)];
        ItemsKeep(w, children, items, i + 1, p, loop, g1, entries');
        KeepsTrans(g, g1, WalkItems(w, children, items, i + 1, p, loop, g1, entries').0, ids, ids, ids, true);
      }
    }
  }

  // --- The verdict ----------------------------------------------------------------------------------------

  predicate HasFailed(s: Step, g: Plain) {
    s.id in g.status && g.status[s.id] == StepStatus.Failed
  }

  predicate GateBroken(s: Step, g: Plain) {
    s.gate.Some? && s.gate.value.eval(PlainView(g, s.gate.value.uses), NoLoop).Err?
  }

  /** Among the first `n` steps one has failed. */
  ghost predicate SomeFailed(steps: seq<Step>, n: nat, g: Plain)
    requires n <= |steps|
  {
    exists j :: 0 <= j < n && HasFailed(steps[j], g)
  }

  /** The first `n` steps are behind the walk, and their gates evaluate. */
  ghost predicate Passed(steps: seq<Step>, n: nat, earlier: set<Id>, g: Plain)
    requires n <= |steps|
  {
    forall j :: 0 <= j < n ==> steps[j].id in earlier && Uses(steps[j]) <= earlier && !GateBroken(steps[j], g)
  }

  /**
   * How a walk of the top list ended: at its end, with the failure mark exactly if a step has failed, or at a step that
   * failed without `on_error: continue` or has an `if` that does not evaluate.
   */
  ghost predicate Judged(steps: seq<Step>, g: Plain, e: PlainEnd) {
    match e
    case Ends(_, _) =>
      (g.runFailed <==> SomeFailed(steps, |steps|, g)) && forall j :: 0 <= j < |steps| ==> !GateBroken(steps[j], g)
    case Stops(_) =>
      exists j :: 0 <= j < |steps| && ((HasFailed(steps[j], g) && !steps[j].continueOnError) || GateBroken(steps[j], g))
  }

  lemma SameJudgement(s: Step, earlier: set<Id>, g: Plain, g': Plain, ids: set<Id>, inner: bool)
    requires Keeps(g, g', ids, inner) && s.id in earlier && Uses(s) <= earlier && ids !! earlier
    ensures HasFailed(s, g) <==> HasFailed(s, g')
    ensures GateBroken(s, g) <==> GateBroken(s, g')
  {
    assert SameRecord(g, g', s.id);
    if s.gate.Some? {
      var uses := s.gate.value.uses;
      forall id | id in uses ensures SameRecord(g, g', id) {
        assert id in earlier;
      }
      assert PlainView(g, uses) == PlainView(g', uses);
    }
  }

  /** Step `k` is passed too: `g2` differs from `g` in its records only. */
  lemma PassedStep(steps: seq<Step>, k: nat, earlier: set<Id>, g: Plain, g2: Plain)
    requires k < |steps| && WfSteps(steps, k, earlier) && Passed(steps, k, earlier, g) && !GateBroken(steps[k], g)
    requires Keeps(g, g2, StepIds(steps[k]), false)
    ensures Passed(steps, k + 1, earlier + StepIds(steps[k]), g2)
    ensures SomeFailed(steps, k, g2) <==> SomeFailed(steps, k, g)
  {
    hide Keeps, PlainView, HasFailed, GateBroken, StepIds;
    WfStepIsNew(steps[k], earlier);
    OwnId(steps[k]);
    forall j | 0 <= j < k ensures (HasFailed(steps[j], g2) <==> HasFailed(steps[j], g)) && !GateBroken(steps[j], g2) {
      SameJudgement(steps[j], earlier, g, g2, StepIds(steps[k]), false);
    }
    OwnGate(steps[k], g, g2);
  }

  /** A step's own expressions do not read it. */
  lemma OwnGate(s: Step, g: Plain, g2: Plain)
    requires Keeps(g, g2, StepIds(s), false) && Uses(s) !! StepIds(s)
    ensures GateBroken(s, g) <==> GateBroken(s, g2)
  {
    if s.gate.Some? {
      var uses := s.gate.value.uses;
      forall id | id in uses ensures SameRecord(g, g2, id) {
        assert id in Uses(s);
      }
      assert PlainView(g, uses) == PlainView(g2, uses);
    }
  }

  lemma {:induction false} TopVerdict(w: World, steps: seq<Step>, k: nat, earlier: set<Id>, g: Plain, succeeded: bool, last: Value)
    requires k <= |steps| && WfSteps(steps, k, earlier) && Passed(steps, k, earlier, g)
    requires g.runFailed <==> SomeFailed(steps, k, g)
    ensures var (g', e) := WalkSteps(w, steps, k, [], Top, NoLoop, g, succeeded, last);
            Judged(steps, g', e)
    decreases |steps| - k
  {
    hide Keeps, WalkStep, PlainView, StepIds, WfStep, Uses, GateBroken;
    if k < |steps| {
      var s := steps[k];
      var p := Child([], Top, s.id);
      var (g', e') := WalkSteps(w, steps, k, [], Top, NoLoop, g, succeeded, last);
      GateValue(s, g);
      if GateBroken(s, g) {
        assert (g', e').1.Stops? && g' == g;
      } else if !PlainGate(s, g, NoLoop).value {
        var g2 := Tick(Mark(g, s.id, Skipped), p);
        OwnId(s);
        OwnRecord(g, g2, StepIds(s), s.id, false);
        NextVerdict(w, steps, k, earlier, g, g2, succeeded, last);
      } else {
        RanVerdict(w, steps, k, earlier, g, succeeded, last);
      }
    }
  }

  lemma GateValue(s: Step, g: Plain)
    ensures GateBroken(s, g) <==> PlainGate(s, g, NoLoop).Err?
  {
  }

  /** Step `k` is run. */
  lemma {:induction false} RanVerdict(w: World, steps: seq<Step>, k: nat, earlier: set<Id>, g: Plain, succeeded: bool, last: Value)
    requires k < |steps| && WfSteps(steps, k, earlier) && Passed(steps, k, earlier, g)
    requires g.runFailed <==> SomeFailed(steps, k, g)
    requires PlainGate(steps[k], g, NoLoop) == Ok(true)
    ensures var (g', e) := WalkSteps(w, steps, k, [], Top, NoLoop, g, succeeded, last);
            Judged(steps, g', e)
    decreases |steps| - k, 1
  {
    hide Keeps, WalkSteps, WalkStep, PlainView, StepIds, WfStep, Uses, GateBroken, SomeFailed, Passed, WfSteps;
    var s := steps[k];
    var p := Child([], Top, s.id);
    GateValue(s, g);
    StepKeeps(w, s, p, NoLoop, g, true);
    var (g1, e) := WalkStep(w, s, p, NoLoop, g);
    WalkTurn(w, steps, k, [], Top, NoLoop, g, succeeded, last);
    OwnId(s);
    var failed := Mark(g1, s.id, StepStatus.Failed);
    var g2 := match e
      case Did(skipped) => Tick(Mark(g1, s.id, if skipped then Skipped else Succeeded), p)
      case Failing(_) => if s.continueOnError then failed.(runFailed := true) else failed;
    OwnRecord(g1, g2, StepIds(s), s.id, false);
    SameFailure(g, g1, StepIds(s));
    KeepsTrans(g, g1, g2, StepIds(s), StepIds(s), StepIds(s), false);
    if e.Failing? && !s.continueOnError {
      assert HasFailed(steps[k], g2);
    } else {
      var (succeeded', last') := if e == Did(false) then (true, Known(g1, s.id)) else (succeeded, last);
      NextVerdict(w, steps, k, earlier, g, g2, succeeded', last');
    }
  }

  lemma SameFailure(g: Plain, g1: Plain, ids: set<Id>)
    requires Keeps(g, g1, ids, true)
    ensures g1.runFailed == g.runFailed && Keeps(g, g1, ids, false)
  {
  }

  /** The walk goes on behind step `k`, which has failed exactly if the failure mark was set for it. */
  lemma {:induction false} NextVerdict(w: World, steps: seq<Step>, k: nat, earlier: set<Id>, g: Plain, g2: Plain, succeeded: bool,
                                       last: Value)
    requires k < |steps| && WfSteps(steps, k, earlier) && Passed(steps, k, earlier, g) && !GateBroken(steps[k], g)
    requires g.runFailed <==> SomeFailed(steps, k, g)
    requires Keeps(g, g2, StepIds(steps[k]), false) && (g2.runFailed <==> g.runFailed || HasFailed(steps[k], g2))
    ensures var (g', e) := WalkSteps(w, steps, k + 1, [], Top, NoLoop, g2, succeeded, last);
            Judged(steps, g', e)
    decreases |steps| - k, 0
  {
    hide Keeps, WalkSteps, StepIds, WfStep, Uses, GateBroken, Passed;
    PassedStep(steps, k, earlier, g, g2);
    assert SomeFailed(steps, k + 1, g2) <==> SomeFailed(steps, k, g2) || HasFailed(steps[k], g2);
    TopVerdict(w, steps, k + 1, earlier + StepIds(steps[k]), g2, succeeded, last);
  }

  /**
   * A finished run, cut into any jobs, has failed exactly when some step of its top list ended as failed or some `if` of
   * that list does not evaluate on what the plain walk left.
   */
  lemma FailsIffTopStepFailed(w: World, hidden: set<Id>, steps: seq<Step>, jobs: seq<Mode>)
    requires WfSteps(steps, 0, {}) && HidesSteps(hidden, steps, 0) && CleanHistory(w, hidden, steps, jobs, FRESH_RUN)
    ensures var (r, o) := RunHistory(w, steps, jobs, FRESH_RUN);
            o.Some? ==>
              (RunFails(r, o.value) <==>
               exists j :: 0 <= j < |steps| && ((steps[j].id in r.status && r.status[steps[j].id] == StepStatus.Failed)
                                                || GateBroken(steps[j], Walk(w, steps).0)))
  {
    hide ExecSteps, WalkSteps, WfSteps, HidesSteps, CleanHistory, RunHistory, GateBroken;
    ParkingIsInvisible(w, hidden, steps, jobs);
    TopVerdict(w, steps, 0, {}, PLAIN_START, false, Null);
    var (g, e) := Walk(w, steps);
    assert forall s, r: Run :: r.status == g.status ==> (HasFailed(s, g) <==> s.id in r.status && r.status[s.id] == StepStatus.Failed);
  }
}
