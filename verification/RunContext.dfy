/** The executor as the service runs it: one mutable context, loops over steps, items and children. */
module RunContexts {
  import opened Prelude
  import opened Values
  import opened Workflow
  import opened Executor

  class RunContext {
    const world: World
    const mode: Mode

    var outputs: map<Id, Value>
    var status: map<Id, StepStatus>
    var done: set<Path>
    var iter: map<Path, nat>
    var delay: Option<Path>
    var approval: Option<Path>
    var reply: Option<Value>
    var runFailed: bool
    var outbox: map<Path, Value>
    var rows: map<Path, RowStatus>

    constructor (w: World, m: Mode, r: Run)
      ensures State() == r && world == w && mode == m
    {
      world, mode := w, m;
      outputs, status, done, iter := r.outputs, r.status, r.done, r.iter;
      delay, approval, reply, runFailed := r.delay, r.approval, r.reply, r.runFailed;
      outbox, rows := r.outbox, r.rows;
    }

    function State(): Run
      reads this
    {
      Run(outputs, status, done, iter, delay, approval, reply, runFailed, outbox, rows)
    }

    /** `doExecuteRun` up to the write of its result. */
    method RunJob(steps: seq<Step>) returns (o: Outcome)
      modifies this
      ensures (State(), o) == Executor.RunJob(world, mode, steps, old(State()))
    {
      o := ExecuteSteps(steps, [], Top, NoLoop);
    }

    method ExecuteSteps(steps: seq<Step>, parent: Path, via: Via, loop: Loop) returns (o: Outcome)
      modifies this
      ensures (State(), o) == ExecSteps(world, mode, steps, 0, parent, via, loop, old(State()), NO_FLAGS)
      decreases steps, 0, 0
    {
      hide ExecStep, Gate, ViewOf;
      var anyFailure, anySuccess, firstError, again := false, false, None, [];
      var k := 0;
      while k < |steps|
        invariant 0 <= k <= |steps|
        invariant ExecSteps(world, mode, steps, 0, parent, via, loop, old(State()), NO_FLAGS) ==
                  ExecSteps(world, mode, steps, k, parent, via, loop, State(), Flags(anyFailure, anySuccess, firstError, again))
      {
        var s := steps[k];
        var p := Child(parent, via, s.id);
        var open := Gate(s, State(), loop);
        if open.Err? {
          return Aborted(open.code);
        }
        if !open.value {
          if p !in done {
            rows := rows[p := RowSkipped];
            done := done + {p};
            status := status[s.id := Skipped];
          }
        } else if p !in done {
          var result := ExecuteStepRecord(s, p, loop);
          match result {
            case Completed(_, _) =>
              done := done + {p};
              anySuccess := true;
            case Parked(at, paused, inner) =>
              return Parked(at, paused, again + inner);
            case Crashed =>
              return Crashed;
            case Aborted(code) =>
              if !s.continueOnError {
                return result;
              }
              anyFailure := true;
              firstError := if firstError.None? then Some(code) else firstError;
              again := again + [s];
              if via.Top? {
                runFailed := true;
              }
          }
        }
        k := k + 1;
      }
      return Completed(false, Flags(anyFailure, anySuccess, firstError, again));
    }

    method ExecuteStepRecord(s: Step, p: Path, loop: Loop) returns (o: Outcome)
      modifies this
      ensures (State(), o) == ExecStep(world, mode, s, p, loop, old(State()))
      decreases s, 1, 0
    {
      if CrashesAt(mode, p, false) {
        return Crashed;
      }
      rows := rows[p := RowRunning];
      o := ExecuteStep(s, p, loop);
      if CrashesAt(mode, p, true) {
        return Crashed;
      }
      match o {
        case Completed(skipped, _) =>
          rows := rows[p := if skipped then RowSkipped else RowSucceeded];
          status := status[s.id := if skipped then Skipped else Succeeded];
        case Aborted(_) =>
          rows := rows[p := RowFailed];
          status := status[s.id := Failed];
        case Parked(_, paused, _) =>
          rows := rows[p := if paused then RowPaused else RowWaiting];
        case Crashed =>
      }
    }

    method ExecuteStep(s: Step, p: Path, loop: Loop) returns (o: Outcome)
      modifies this
      ensures (State(), o) == ExecBody(world, mode, s, p, loop, old(State()))
      decreases s, 0, 0
    {
      match s.kind {
        case Leaf(act) => o := ExecuteLeaf(act, s.id, p, loop);
        case Reply(act) =>
          o := ExecuteLeaf(act, s.id, p, loop);
          if o.Completed? {
            reply := Some(outputs[s.id]);
          }
        case Email(message) => o := ExecuteNotify(message, s.id, p, loop);
        case Delay(valid) => o := ExecuteDelay(valid, s.id, p);
        case Approval(prompt, abort) => o := ExecuteApproval(prompt, abort, s.id, p, loop);
        case Condition(_, _, _) => o := ExecuteCondition(s.id, s.kind, p, loop);
        case ForEach(_, _, _) => o := ExecuteForEach(s.id, s.kind, p, loop);
      }
    }

    method ExecuteLeaf(act: Action, id: Id, p: Path, loop: Loop) returns (o: Outcome)
      modifies this
      ensures (State(), o) == ExecLeaf(act, id, p, loop, old(State()))
    {
      match act.run(p, ViewOf(State(), act.uses), loop) {
        case LeafOk(v) =>
          outputs := outputs[id := v];
          o := Completed(false, NO_FLAGS);
        case LeafErr(code, partial) =>
          if partial.Some? {
            outputs := outputs[id := partial.value];
          }
          o := Aborted(code);
      }
    }

    method ExecuteNotify(message: Expr, id: Id, p: Path, loop: Loop) returns (o: Outcome)
      modifies this
      ensures (State(), o) == ExecEmail(message, id, p, loop, old(State()))
    {
      var msg := message.eval(ViewOf(State(), message.uses), loop);
      if msg.Err? {
        return Aborted(msg.code);
      }
      if p !in outbox {
        outbox := outbox[p := msg.value];
      }
      outputs := outputs[id := EMAIL_OUTPUT];
      o := Completed(false, NO_FLAGS);
    }

    method ExecuteDelay(valid: bool, id: Id, p: Path) returns (o: Outcome)
      modifies this
      ensures (State(), o) == ExecDelay(world, mode, valid, id, p, old(State()))
    {
      if !valid {
        return Aborted("type_mismatch");
      }
      if mode.Segment? {
        if delay != Some(p) {
          delay := Some(p);
          return Parked(p, false, []);
        }
        if !mode.ready(p) {
          return Parked(p, false, []);
        }
      }
      delay := None;
      outputs := outputs[id := world.delayOutput(p)];
      o := Completed(false, NO_FLAGS);
    }

    method ExecuteApproval(prompt: Expr, abort: bool, id: Id, p: Path, loop: Loop) returns (o: Outcome)
      modifies this
      ensures (State(), o) == ExecApproval(world, mode, prompt, abort, id, p, loop, old(State()))
    {
      hide ViewOf, OutputOnly;
      var text := prompt.eval(ViewOf(State(), prompt.uses), loop);
      if text.Err? {
        return Aborted(text.code);
      }
      if mode.Segment? {
        if approval != Some(p) {
          approval := Some(p);
          return Parked(p, true, []);
        }
        if !mode.ready(p) {
          return Parked(p, true, []);
        }
      }
      o := ApplyDecision(world.decision(p), abort, id);
    }

    method ApplyDecision(d: Decision, abort: bool, id: Id) returns (o: Outcome)
      modifies this
      ensures (State(), o) == Executor.Decide(d, abort, id, old(State()))
    {
      outputs := outputs[id := d.output];
      if d.TimedOut? && abort {
        return Aborted("approval_timeout");
      }
      approval := None;
      o := if d.Rejected? then Aborted("approval_rejected") else Completed(d.TimedOut?, NO_FLAGS);
    }

    method ExecuteCondition(id: Id, c: Kind, p: Path, loop: Loop) returns (o: Outcome)
      requires c.Condition?
      modifies this
      ensures (State(), o) == ExecCondition(world, mode, id, c, p, loop, old(State()))
      decreases c, 0, 0
    {
      var when := c.when.eval(ViewOf(State(), c.when.uses), loop);
      if when.Err? {
        return Aborted(when.code);
      }
      var taken := IsTruthy(when.value);
      var branch := if taken then c.thn else c.els;
      if |branch| == 0 {
        outputs := outputs[id := BranchOutput(taken, Null)];
        return Completed(false, NO_FLAGS);
      }
      o := ExecuteSteps(branch, p, if taken then Then else Else, loop);
      if o.Completed? {
        outputs := outputs[id := BranchOutput(taken, Output(State(), branch[|branch| - 1].id))];
        o := Completed(false, o.flags.(firstError := None));
      }
    }

    method ExecuteForEach(id: Id, c: Kind, p: Path, loop: Loop) returns (o: Outcome)
      requires c.ForEach?
      modifies this
      ensures (State(), o) == ExecForEach(world, mode, id, c, p, loop, old(State()))
      decreases c, 0, 0
    {
      hide ViewOf, LoopOutput, Bounded, ExecItems;
      var over := c.over.eval(ViewOf(State(), c.over.uses), loop);
      if over.Err? {
        return Aborted(over.code);
      }
      if over.value.Null? || over.value.Undefined? {
        outputs := outputs[id := LoopOutput([], 0)];
        return Completed(false, NO_FLAGS);
      }
      if !over.value.Arr? {
        return Aborted("type_mismatch");
      }
      var items := Bounded(over.value.items, c.limit);
      var dropped := |over.value.items| - |items|;
      var acc;
      acc, o := ExecuteItems(c.children, items, id, dropped, p, loop);
      if !o.Completed? {
        return;
      }
      outputs := outputs[id := LoopOutput(acc.entries, dropped)];
      if !acc.anyExecuted {
        o := Completed(false, NO_FLAGS);
      } else {
        o := if !acc.anySucceeded && acc.iterationFailure then Aborted("step_error")
             else Completed(false, Flags(acc.iterationFailure, acc.anySucceeded, None, []));
      }
    }

    /** The loop over the items, from the saved cursor. */
    method ExecuteItems(children: seq<Step>, items: seq<Value>, id: Id, dropped: nat, p: Path, loop: Loop)
      returns (acc: LoopAcc, o: Outcome)
      modifies this
      ensures (State(), acc, o) == ExecItems(world, mode, children, items, StartIndex(old(State()), p), id, dropped, p, loop,
                                             old(State()), LOOP_START)
      decreases children, 1, 0
    {
      hide ExecSteps, LoopOutput, LoopStep, VerdictOf;
      acc := LOOP_START;
      var i := if p in iter then iter[p] else 0;
      while i < |items|
        invariant ExecItems(world, mode, children, items, StartIndex(old(State()), p), id, dropped, p, loop, old(State()), LOOP_START) ==
                  ExecItems(world, mode, children, items, i, id, dropped, p, loop, State(), acc)
      {
        iter := iter[p := i];
        o := ExecuteSteps(children, p, Item(i), InLoop(items[i], i, loop));
        match o {
          case Parked(_, _, _) => return;
          case Crashed => return;
          case Aborted(code) =>
            acc := acc.(entries := acc.entries + [EntryFailed(code)]);
            outputs := outputs[id := LoopOutput(acc.entries, dropped)];
            return;
          case Completed(_, flags) =>
            var verdict := IterationVerdict(children, p, i);
            acc := LoopStep(acc, verdict, children, flags);
            iter := iter - {p};
        }
        i := i + 1;
      }
      o := Completed(false, NO_FLAGS);
    }

    /** The inner loop of `executeForEachStep` over the children of iteration `i`. */
    method IterationVerdict(children: seq<Step>, p: Path, i: nat) returns (v: Verdict)
      ensures v == VerdictOf(children, |children|, p, i, State())
    {
      var attempted, succeeded, last := false, false, Null;
      var n := 0;
      while n < |children|
        invariant 0 <= n <= |children|
        invariant VerdictOf(children, n, p, i, State()) == Verdict(attempted, succeeded, last)
      {
        var id := children[n].id;
        if Child(p, Item(i), id) in done && id in status && status[id] != Skipped {
          attempted := true;
          if status[id] == Succeeded {
            succeeded := true;
            last := Output(State(), id);
          }
        }
        n := n + 1;
      }
      v := Verdict(attempted, succeeded, last);
    }
  }
}
