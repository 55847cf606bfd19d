/**
 * The rules of a walk in terms of the values and records themselves: which gate opens, which branch a guard takes,
 * what each kind of step leaves behind, and what the end of a step means for the list it is in.
 */
module StepRules {
  import opened Prelude
  import opened Values
  import opened Workflow
  import opened Executor
  import opened Reference

  /** What an expression sees of a step: its output, and its status, or `succeeded` if none is recorded. */
  lemma ViewShows(r: Run, uses: set<Id>, id: Id)
    ensures id in ViewOf(r, uses) <==> id in uses && id in r.outputs
    ensures id in uses && id in r.outputs ==> ViewOf(r, uses)[id].output == r.outputs[id]
    ensures id in uses && id in r.outputs && id in r.status ==> ViewOf(r, uses)[id].status == r.status[id]
    ensures id in uses && id in r.outputs && id !in r.status ==> ViewOf(r, uses)[id].status == Succeeded
  {
  }

  // --- Gates ------------------------------------------------------------------------------------

  /** The step has no `if`, or one with a value that is not falsy. */
  ghost predicate Opens(s: Step, r: Run, loop: Loop) {
    s.gate.None? || exists v :: v !in FALSY && s.gate.value.eval(ViewOf(r, s.gate.value.uses), loop) == Ok(v)
  }

  /** A step whose `if` has a falsy value is passed over: recorded as skipped the first time, and not run. */
  lemma FalsyGateSkips(w: World, m: Mode, steps: seq<Step>, k: nat, parent: Path, via: Via, loop: Loop, r: Run, acc: Flags, v: Value)
    requires k < |steps| && steps[k].gate.Some?
    requires steps[k].gate.value.eval(ViewOf(r, steps[k].gate.value.uses), loop) == Ok(v) && v in FALSY
    ensures var id := steps[k].id;
            var p := parent + [Hop(via, id)];
            var skipped := r.(rows := r.rows[p := RowSkipped], done := r.done + {p}, status := r.status[id := Skipped]);
            ExecSteps(w, m, steps, k, parent, via, loop, r, acc) ==
            ExecSteps(w, m, steps, k + 1, parent, via, loop, if p in r.done then r else skipped, acc)
  {
    hide ExecStep, ViewOf;
    FalsyValues(v);
  }

  /** In particular `false` skips the step, on the plain walk as well. */
  lemma FalseGateSkips(w: World, m: Mode, steps: seq<Step>, k: nat, parent: Path, via: Via, loop: Loop, r: Run, acc: Flags)
    requires k < |steps| && steps[k].gate.Some? && parent + [Hop(via, steps[k].id)] !in r.done
    requires steps[k].gate.value.eval(ViewOf(r, steps[k].gate.value.uses), loop) == Ok(Bool(false))
    ensures var id := steps[k].id;
            var p := parent + [Hop(via, id)];
            ExecSteps(w, m, steps, k, parent, via, loop, r, acc) ==
            ExecSteps(w, m, steps, k + 1, parent, via, loop,
                      r.(rows := r.rows[p := RowSkipped], done := r.done + {p}, status := r.status[id := Skipped]), acc)
    ensures var id := steps[k].id;
            var p := parent + [Hop(via, id)];
            forall succeeded, last :: WalkSteps(w, steps, k, parent, via, loop, Forget(r), succeeded, last) ==
              WalkSteps(w, steps, k + 1, parent, via, loop,
                        Forget(r).(done := r.done + {p}, status := r.status[id := Skipped]), succeeded, last)
  {
    hide ExecStep, WalkStep, ViewOf, PlainView;
    FalsyGateSkips(w, m, steps, k, parent, via, loop, r, acc, Bool(false));
    SameViews(r, steps[k].gate.value.uses);
  }

  /** An `if` that does not evaluate ends the list with its error, even when the step is done. */
  lemma BrokenGateAborts(w: World, m: Mode, steps: seq<Step>, k: nat, parent: Path, via: Via, loop: Loop, r: Run, acc: Flags)
    requires k < |steps| && steps[k].gate.Some?
    requires steps[k].gate.value.eval(ViewOf(r, steps[k].gate.value.uses), loop).Err?
    ensures ExecSteps(w, m, steps, k, parent, via, loop, r, acc) ==
            (r, Aborted(steps[k].gate.value.eval(ViewOf(r, steps[k].gate.value.uses), loop).code))
  {
    hide ExecStep, ViewOf;
  }

  // --- The end of a step in its list ------------------------------------------------------------------

  /** A done step is not run again, and changes nothing. */
  lemma DoneIsPassed(w: World, m: Mode, steps: seq<Step>, k: nat, parent: Path, via: Via, loop: Loop, r: Run, acc: Flags)
    requires k < |steps| && Opens(steps[k], r, loop) && parent + [Hop(via, steps[k].id)] in r.done
    ensures ExecSteps(w, m, steps, k, parent, via, loop, r, acc) == ExecSteps(w, m, steps, k + 1, parent, via, loop, r, acc)
  {
    hide ExecStep, ViewOf;
    OpenGate(steps[k], r, loop);
  }

  lemma OpenGate(s: Step, r: Run, loop: Loop)
    requires Opens(s, r, loop)
    ensures Gate(s, r, loop) == Ok(true)
  {
    hide ViewOf;
    if s.gate.Some? {
      var v :| v !in FALSY && s.gate.value.eval(ViewOf(r, s.gate.value.uses), loop) == Ok(v);
      FalsyValues(v);
    }
  }

  /**
   * A step that is run marks its place done when it completes; when it fails it ends the list with its error, unless it
   * has `on_error: continue`, and then the walk goes on and the run has failed if the list is the top one.
   */
  lemma OpenStepRuns(w: World, m: Mode, steps: seq<Step>, k: nat, parent: Path, via: Via, loop: Loop, r: Run, acc: Flags)
    requires k < |steps| && Opens(steps[k], r, loop) && parent + [Hop(via, steps[k].id)] !in r.done
    ensures var s := steps[k];
            var p := parent + [Hop(via, s.id)];
            var (r1, o) := ExecStep(w, m, s, p, loop, r);
            ExecSteps(w, m, steps, k, parent, via, loop, r, acc) ==
            match o
            case Completed(_, _) =>
              ExecSteps(w, m, steps, k + 1, parent, via, loop, r1.(done := r1.done + {p}), acc.(anySuccess := true))
            case Parked(q, paused, again) => (r1, Parked(q, paused, acc.again + again))
            case Crashed => (r1, Crashed)
            case Aborted(code) =>
              if !s.continueOnError then (r1, Aborted(code)) else
              ExecSteps(w, m, steps, k + 1, parent, via, loop, r1.(runFailed := r1.runFailed || via == Top),
                        Flags(true, acc.anySuccess, if acc.firstError == None then Some(code) else acc.firstError, acc.again + [s]))
  {
    hide ExecStep, ViewOf;
    OpenGate(steps[k], r, loop);
    var r1 := ExecStep(w, m, steps[k], parent + [Hop(via, steps[k].id)], loop, r).0;
    assert !via.Top? ==> r1.(runFailed := r1.runFailed || via == Top) == r1;
  }

  /** What a step records around its own work: a row that is running, and then the row and the status of its end. */
  lemma StepIsRecorded(w: World, m: Mode, s: Step, p: Path, loop: Loop, r: Run)
    requires m.Segment? ==> m.crash.None? || m.crash.value.path != p
    ensures var (r1, o) := ExecBody(w, m, s, p, loop, r.(rows := r.rows[p := RowRunning]));
            ExecStep(w, m, s, p, loop, r) ==
            match o
            case Completed(false, _) => (r1.(rows := r1.rows[p := RowSucceeded], status := r1.status[s.id := Succeeded]), o)
            case Completed(true, _) => (r1.(rows := r1.rows[p := RowSkipped], status := r1.status[s.id := Skipped]), o)
            case Aborted(_) => (r1.(rows := r1.rows[p := RowFailed], status := r1.status[s.id := StepStatus.Failed]), o)
            case Parked(_, true, _) => (r1.(rows := r1.rows[p := RowPaused]), o)
            case Parked(_, false, _) => (r1.(rows := r1.rows[p := RowWaiting]), o)
            case Crashed => (r1, o)
  {
    hide ExecBody;
  }

  // --- Conditions ---------------------------------------------------------------------------------------

  /** A falsy guard walks `else` and any other guard `then`; the output names the branch and gives its last step's output. */
  lemma GuardPicksBranch(w: World, m: Mode, id: Id, c: Kind, p: Path, loop: Loop, r: Run, v: Value)
    requires c.Condition? && c.when.eval(ViewOf(r, c.when.uses), loop) == Ok(v)
    ensures var (name, via, branch) := if v in FALSY then ("else", Else, c.els) else ("then", Then, c.thn);
            var (r1, o) := ExecSteps(w, m, branch, 0, p, via, loop, r, Flags(false, false, None, []));
            var (r', o') := ExecCondition(w, m, id, c, p, loop, r);
            if branch == []
            then r' == r.(outputs := r.outputs[id := Obj(map["branch" := Str(name), "output" := Null])]) && o'.Completed?
            else if !o.Completed? then (r', o') == (r1, o)
            else
              var last := branch[|branch| - 1].id;
              var out := if last in r1.outputs && r1.outputs[last] != Undefined then r1.outputs[last] else Null;
              r' == r1.(outputs := r1.outputs[id := Obj(map["branch" := Str(name), "output" := out])]) && o'.Completed?
  {
    hide ExecSteps, ViewOf;
    FalsyValues(v);
  }

  /** `false` walks `else` and records "else"; `true` walks `then` and records "then". */
  lemma BoolPicksBranch(w: World, m: Mode, id: Id, c: Kind, p: Path, loop: Loop, r: Run, v: bool)
    requires c.Condition? && c.when.eval(ViewOf(r, c.when.uses), loop) == Ok(Bool(v))
    requires ExecCondition(w, m, id, c, p, loop, r).1.Completed?
    ensures var r' := ExecCondition(w, m, id, c, p, loop, r).0;
            && id in r'.outputs && r'.outputs[id].Obj? && "branch" in r'.outputs[id].fields
            && r'.outputs[id].fields["branch"] == Str(if v then "then" else "else")
    ensures var (via, branch) := if v then (Then, c.thn) else (Else, c.els);
            var (r1, o) := ExecSteps(w, m, branch, 0, p, via, loop, r, Flags(false, false, None, []));
            o.Completed? && ExecCondition(w, m, id, c, p, loop, r).0.(outputs := r1.outputs) == r1
  {
    hide ViewOf, ExecSteps, ExecCondition;
    GuardPicksBranch(w, m, id, c, p, loop, r, Bool(v));
    NothingToWalk(w, m, p, if v then Then else Else, loop, r);
  }

  lemma NothingToWalk(w: World, m: Mode, parent: Path, via: Via, loop: Loop, r: Run)
    ensures ExecSteps(w, m, [], 0, parent, via, loop, r, NO_FLAGS) == (r, Completed(false, NO_FLAGS))
  {
  }

  /** The same on the plain walk. */
  lemma PlainGuardPicksBranch(w: World, id: Id, c: Kind, p: Path, loop: Loop, g: Plain, v: Value)
    requires c.Condition? && c.when.eval(PlainView(g, c.when.uses), loop) == Ok(v)
    ensures var (name, via, branch) := if v in FALSY then ("else", Else, c.els) else ("then", Then, c.thn);
            var (g1, e) := WalkSteps(w, branch, 0, p, via, loop, g, false, Null);
            var (g', e') := WalkCondition(w, id, c, p, loop, g);
            match e
            case Stops(code) => (g', e') == (g1, Failing(code))
            case Ends(_, _) =>
              var out := if branch == [] then Null else
                         var last := branch[|branch| - 1].id;
                         if last in g1.outputs && g1.outputs[last] != Undefined then g1.outputs[last] else Null;
              && g' == g1.(outputs := g1.outputs[id := Obj(map["branch" := Str(name), "output" := out])])
              && e' == Did(false)
  {
    hide WalkSteps, PlainView;
    FalsyValues(v);
  }

  // --- Steps without steps inside -------------------------------------------------------------------------

  /** The output a leaf leaves, if any: that of a failed one only if it gives one. */
  function Left(outputs: map<Id, Value>, id: Id, res: LeafResult): map<Id, Value> {
    match res
    case LeafOk(v) => outputs[id := v]
    case LeafErr(_, Some(v)) => outputs[id := v]
    case LeafErr(_, None) => outputs
  }

  /** A leaf step leaves its output and completes or fails as its work does; a reply step that completes sets the reply. */
  lemma LeafLeavesOutput(w: World, m: Mode, s: Step, p: Path, loop: Loop, r: Run)
    requires s.kind.Leaf? || s.kind.Reply?
    ensures var res := s.kind.act.run(p, ViewOf(r, s.kind.act.uses), loop);
            var (r1, o) := ExecBody(w, m, s, p, loop, r);
            && r1 == r.(outputs := Left(r.outputs, s.id, res), reply := if s.kind.Reply? && res.LeafOk? then Some(res.output) else r.reply)
            && (if res.LeafOk? then o == Completed(false, NO_FLAGS) else o == Aborted(res.code))
    ensures var res := s.kind.act.run(p, ViewOf(r, s.kind.act.uses), loop);
            var (g1, e) := WalkStep(w, s, p, loop, Forget(r));
            && g1 == Forget(r).(outputs := Left(r.outputs, s.id, res),
                                reply := if s.kind.Reply? && res.LeafOk? then Some(res.output) else r.reply)
            && e == if res.LeafOk? then Did(false) else Failing(res.code)
  {
    hide ViewOf, PlainView;
    SameViews(r, s.kind.act.uses);
  }

  /** An email step puts its message into the outbox under its place, unless one is there, and says so. */
  lemma EmailIsQueued(w: World, m: Mode, s: Step, p: Path, loop: Loop, r: Run, msg: Value)
    requires s.kind.Email? && s.kind.message.eval(ViewOf(r, s.kind.message.uses), loop) == Ok(msg)
    ensures var said := Obj(map["message_id" := Null, "status" := Str("enqueued")]);
            ExecBody(w, m, s, p, loop, r) ==
            (r.(outputs := r.outputs[s.id := said], outbox := if p in r.outbox then r.outbox else r.outbox[p := msg]),
             Completed(false, NO_FLAGS))
    ensures WalkStep(w, s, p, loop, Forget(r)) ==
            (Forget(r).(outputs := r.outputs[s.id := Obj(map["message_id" := Null, "status" := Str("enqueued")])]), Did(false))
  {
    hide ViewOf, PlainView;
    SameViews(r, s.kind.message.uses);
  }

  /** A delay parks the first time it is met and as long as it has not elapsed; then it completes and frees its place. */
  lemma DelayWaits(w: World, m: Mode, s: Step, p: Path, loop: Loop, r: Run)
    requires s.kind == Delay(true)
    ensures m.Segment? && (r.delay != Some(p) || !m.ready(p)) ==>
              ExecBody(w, m, s, p, loop, r) == (r.(delay := Some(p)), Parked(p, false, []))
    ensures m.Segment? && r.delay == Some(p) && m.ready(p) ==>
              ExecBody(w, m, s, p, loop, r) ==
              (r.(delay := None, outputs := r.outputs[s.id := w.delayOutput(p)]), Completed(false, NO_FLAGS))
    ensures WalkStep(w, s, p, loop, Forget(r)) == (Forget(r).(outputs := r.outputs[s.id := w.delayOutput(p)]), Did(false))
  {
  }

  /** So does an approval, and then the decision is its output: approved completes, rejected fails, a timeout fails or skips. */
  lemma ApprovalDecides(w: World, m: Mode, s: Step, p: Path, loop: Loop, r: Run)
    requires s.kind.Approval? && s.kind.prompt.eval(ViewOf(r, s.kind.prompt.uses), loop).Ok?
    ensures m.Segment? && (r.approval != Some(p) || !m.ready(p)) ==>
              ExecBody(w, m, s, p, loop, r) == (r.(approval := Some(p)), Parked(p, true, []))
    ensures m.Segment? && r.approval == Some(p) && m.ready(p) ==>
              var (r1, o) := ExecBody(w, m, s, p, loop, r);
              var d, stays := w.decision(p), w.decision(p).TimedOut? && s.kind.abortOnTimeout;
              && r1 == r.(outputs := r.outputs[s.id := d.output], approval := if stays then r.approval else None)
              && match d
                 case Approved(_) => o == Completed(false, NO_FLAGS)
                 case Rejected(_) => o == Aborted("approval_rejected")
                 case TimedOut(_) => o == if s.kind.abortOnTimeout then Aborted("approval_timeout") else Completed(true, NO_FLAGS)
    ensures var (g1, e) := WalkStep(w, s, p, loop, Forget(r));
            && g1 == Forget(r).(outputs := r.outputs[s.id := w.decision(p).output])
            && match w.decision(p)
               case Approved(_) => e == Did(false)
               case Rejected(_) => e == Failing("approval_rejected")
               case TimedOut(_) => e == if s.kind.abortOnTimeout then Failing("approval_timeout") else Did(true)
  {
    hide ViewOf, PlainView;
    SameViews(r, s.kind.prompt.uses);
  }

  // --- for_each --------------------------------------------------------------------------------------------

  /** What a for_each leaves as its output: one result for each entry, whether items were dropped, and how many. */
  lemma ResultsAreWritten(entries: seq<Entry>, dropped: nat)
    ensures var out := LoopOutput(entries, dropped);
            && out.Obj? && out.fields.Keys == {"results", "truncated", "dropped_count"}
            && out.fields["truncated"] == Bool(dropped != 0) && out.fields["dropped_count"] == Num(Finite(dropped as real))
            && out.fields["results"].Arr? && |out.fields["results"].items| == |entries|
            && forall i :: 0 <= i < |entries| ==>
                 out.fields["results"].items[i] == Obj(
                   match entries[i]
                   case EntrySkipped => map["status" := Str("skipped")]
                   case EntryFailed(code) => map["status" := Str("failed"), "error" := Str(code)]
                   case EntrySucceeded(id, v) =>
                     map["status" := Str("succeeded"), "step_id" := if id == None then Undefined else Str(id.value), "output" := v])
  {
  }

  /** The entry of a finished iteration: the last child's id and the output of the verdict when it succeeded. */
  lemma EntryOfVerdict(acc: LoopAcc, v: Verdict, children: seq<Step>, sub: Flags)
    requires |children| > 0
    ensures var entries := LoopStep(acc, v, children, sub).entries;
            && |entries| == |acc.entries| + 1 && entries[..|acc.entries|] == acc.entries
            && (v.attempted && v.succeeded ==>
                  entries[|acc.entries|] == EntrySucceeded(Some(children[|children| - 1].id), v.lastOutput))
            && (!v.attempted ==> entries[|acc.entries|] == EntrySkipped)
  {
  }

  /** Nothing to iterate over gives no results, and anything but a list fails. */
  lemma NoListNoItems(w: World, m: Mode, s: Step, p: Path, loop: Loop, r: Run, v: Value)
    requires s.kind.ForEach? && s.kind.over.eval(ViewOf(r, s.kind.over.uses), loop) == Ok(v) && !v.Arr?
    ensures ExecForEach(w, m, s.id, s.kind, p, loop, r) ==
            if v in {Null, Undefined} then (r.(outputs := r.outputs[s.id := LoopOutput([], 0)]), Completed(false, NO_FLAGS))
            else (r, Aborted("type_mismatch"))
  {
    hide ViewOf, ExecItems, LoopOutput;
  }

  // --- Between jobs ---------------------------------------------------------------------------------------

  /** A crash loses all of the run's state but the outbox and the step rows; any other end of a job loses nothing. */
  lemma CrashLosesState(before: Run, after: Run, o: Outcome)
    ensures var next := Persisted(before, after, o);
            if o != Crashed then next == after else
            && next.outbox == after.outbox && next.rows == after.rows
            && next.outputs == before.outputs && next.status == before.status && next.done == before.done && next.iter == before.iter
            && next.delay == before.delay && next.approval == before.approval && next.reply == before.reply
            && next.runFailed == before.runFailed
  {
  }
}
