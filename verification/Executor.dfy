/** The checkpointed interpreter, as functions from run state to run state. */
module Executor {
  import opened Prelude
  import opened Values
  import opened Workflow

  /** The step's own `if`: absent means true. */
  function Gate(s: Step, r: Run, loop: Loop): Result<bool> {
    if s.gate.None? then Ok(true) else
    match s.gate.value.eval(ViewOf(r, s.gate.value.uses), loop)
    case Ok(v) => Ok(IsTruthy(v))
    case Err(code) => Err(code)
  }

  /** A step whose `if` is false: recorded once, as a `skipped` row. */
  function SkipStep(r: Run, id: Id, p: Path): Run {
    if p in r.done then r else
    r.(rows := r.rows[p := RowSkipped], done := r.done + {p}, status := r.status[id := Skipped])
  }

  function Swallow(r: Run, via: Via): Run {
    if via.Top? then r.(runFailed := true) else r
  }

  function SwallowFlags(acc: Flags, code: string, s: Step): Flags {
    Flags(true, acc.anySuccess, if acc.firstError.None? then Some(code) else acc.firstError, acc.again + [s])
  }

  /** `executeSteps` from position `k` on. */
  function ExecSteps(w: World, m: Mode, steps: seq<Step>, k: nat, parent: Path, via: Via, loop: Loop, r: Run,
                     acc: Flags): (Run, Outcome)
    requires k <= |steps|
    decreases steps, 0, |steps| - k
  {
    if k == |steps| then (r, Completed(false, acc)) else
    var s := steps[k];
    var p := Child(parent, via, s.id);
    match Gate(s, r, loop)
    case Err(code) => (r, Aborted(code))
    case Ok(open) =>
      if !open then ExecSteps(w, m, steps, k + 1, parent, via, loop, SkipStep(r, s.id, p), acc)
      else if p in r.done then ExecSteps(w, m, steps, k + 1, parent, via, loop, r, acc)
      else
        var (r1, o) := ExecStep(w, m, s, p, loop, r);
        match o
        case Completed(_, _) =>
          ExecSteps(w, m, steps, k + 1, parent, via, loop, MarkDone(r1, p), acc.(anySuccess := true))
        case Parked(q, paused, again) => (r1, Parked(q, paused, acc.again + again))
        case Crashed => (r1, Crashed)
        case Aborted(code) =>
          if s.continueOnError then
            ExecSteps(w, m, steps, k + 1, parent, via, loop, Swallow(r1, via), SwallowFlags(acc, code, s))
          else (r1, Aborted(code))
  }

  predicate CrashesAt(m: Mode, p: Path, afterEffect: bool) {
    m.Segment? && m.crash == Some(Crash(p, afterEffect))
  }

  /** `executeStepRecord`: the `run_steps` row and the step status around the step's own work. */
  function ExecStep(w: World, m: Mode, s: Step, p: Path, loop: Loop, r: Run): (Run, Outcome)
    decreases s, 1, 0
  {
    if CrashesAt(m, p, false) then (r, Crashed) else
    var (r1, o) := ExecBody(w, m, s, p, loop, r.(rows := r.rows[p := RowRunning]));
    if CrashesAt(m, p, true) then (r1, Crashed) else
    (RecordOutcome(r1, s.id, p, o), o)
  }

  function RecordOutcome(r: Run, id: Id, p: Path, o: Outcome): Run {
    match o
    case Completed(skipped, _) =>
      MarkStatus(r.(rows := r.rows[p := if skipped then RowSkipped else RowSucceeded]), id,
                 if skipped then Skipped else Succeeded)
    case Aborted(_) => MarkStatus(r.(rows := r.rows[p := RowFailed]), id, Failed)
    case Parked(_, paused, _) => r.(rows := r.rows[p := if paused then RowPaused else RowWaiting])
    case Crashed => r
  }

  /** The step types. */
  function ExecBody(w: World, m: Mode, s: Step, p: Path, loop: Loop, r: Run): (Run, Outcome)
    decreases s, 0, 0
  {
    match s.kind
    case Leaf(act) => ExecLeaf(act, s.id, p, loop, r)
    case Reply(act) =>
      var (r1, o) := ExecLeaf(act, s.id, p, loop, r);
      (if o.Completed? then r1.(reply := Some(r1.outputs[s.id])) else r1, o)
    case Email(message) => ExecEmail(message, s.id, p, loop, r)
    case Delay(valid) => ExecDelay(w, m, valid, s.id, p, r)
    case Approval(prompt, abort) => ExecApproval(w, m, prompt, abort, s.id, p, loop, r)
    case Condition(_, _, _) => ExecCondition(w, m, s.id, s.kind, p, loop, r)
    case ForEach(_, _, _) => ExecForEach(w, m, s.id, s.kind, p, loop, r)
  }

  /** `executeConditionStep`. */
  function ExecCondition(w: World, m: Mode, id: Id, c: Kind, p: Path, loop: Loop, r: Run): (Run, Outcome)
    requires c.Condition?
    decreases c, 0, 0
  {
    match c.when.eval(ViewOf(r, c.when.uses), loop)
    case Err(code) => (r, Aborted(code))
    case Ok(v) =>
      var taken := IsTruthy(v);
      var branch := if taken then c.thn else c.els;
      if |branch| == 0 then (SetOutput(r, id, BranchOutput(taken, Null)), Completed(false, NO_FLAGS)) else
      var (r1, o) := ExecSteps(w, m, branch, 0, p, if taken then Then else Else, loop, r, NO_FLAGS);
      if !o.Completed? then (r1, o) else
      (SetOutput(r1, id, BranchOutput(taken, Output(r1, branch[|branch| - 1].id))),
       Completed(false, o.flags.(firstError := None)))
  }

  /** `executeForEachStep`. */
  function ExecForEach(w: World, m: Mode, id: Id, c: Kind, p: Path, loop: Loop, r: Run): (Run, Outcome)
    requires c.ForEach?
    decreases c, 0, 0
  {
    match c.over.eval(ViewOf(r, c.over.uses), loop)
    case Err(code) => (r, Aborted(code))
    case Ok(v) =>
      if v.Null? || v.Undefined? then (SetOutput(r, id, LoopOutput([], 0)), Completed(false, NO_FLAGS))
      else if !v.Arr? then (r, Aborted("type_mismatch"))
      else
        var items := Bounded(v.items, c.limit);
        var dropped := |v.items| - |items|;
        var (r1, acc, o) := ExecItems(w, m, c.children, items, StartIndex(r, p), id, dropped, p, loop, r, LOOP_START);
        if o.Completed? then FinishLoop(r1, id, dropped, acc) else (r1, o)
  }

  function ExecLeaf(act: Action, id: Id, p: Path, loop: Loop, r: Run): (res: (Run, Outcome))
    ensures res.1.Completed? ==> id in res.0.outputs
    ensures OutputOnly(r, res.0, id)
    ensures res.0.outbox == r.outbox
    ensures res.0.approval == r.approval
    ensures !res.1.Parked?
  {
    match act.run(p, ViewOf(r, act.uses), loop)
    case LeafOk(v) => (SetOutput(r, id, v), Completed(false, NO_FLAGS))
    case LeafErr(code, None) => (r, Aborted(code))
    case LeafErr(code, Some(v)) => (SetOutput(r, id, v), Aborted(code))
  }

  /** The outbox insert is `ON CONFLICT DO NOTHING` on the key of the step path. */
  function ExecEmail(message: Expr, id: Id, p: Path, loop: Loop, r: Run): (res: (Run, Outcome))
    ensures OutputOnly(r, res.0, id)
    ensures res.0.approval == r.approval
    ensures !res.1.Parked?
  {
    match message.eval(ViewOf(r, message.uses), loop)
    case Err(code) => (r, Aborted(code))
    case Ok(msg) =>
      (SetOutput(r.(outbox := if p in r.outbox then r.outbox else r.outbox[p := msg]), id, EMAIL_OUTPUT),
       Completed(false, NO_FLAGS))
  }

  function ExecDelay(w: World, m: Mode, valid: bool, id: Id, p: Path, r: Run): (res: (Run, Outcome))
    ensures OutputOnly(r, res.0, id)
    ensures res.0.outbox == r.outbox
    ensures res.0.approval == r.approval
    ensures res.1.Parked? ==> res.1 == Parked(p, false, [])
  {
    if !valid then (r, Aborted("type_mismatch"))
    else if m.Segment? && r.delay != Some(p) then (r.(delay := Some(p)), Parked(p, false, []))
    else if m.Segment? && !m.ready(p) then (r, Parked(p, false, []))
    else (SetOutput(r.(delay := None), id, w.delayOutput(p)), Completed(false, NO_FLAGS))
  }

  function ExecApproval(w: World, m: Mode, prompt: Expr, abort: bool, id: Id, p: Path, loop: Loop,
                        r: Run): (res: (Run, Outcome))
    ensures OutputOnly(r, res.0, id)
    ensures res.0.outbox == r.outbox
    ensures !res.1.Parked? ==> res.0.approval.None? || res.0.approval == r.approval
    ensures res.1.Parked? ==> res.1 == Parked(p, true, [])
  {
    match prompt.eval(ViewOf(r, prompt.uses), loop)
    case Err(code) => (r, Aborted(code))
    case Ok(_) =>
      if m.Segment? && r.approval != Some(p) then (r.(approval := Some(p)), Parked(p, true, []))
      else if m.Segment? && !m.ready(p) then (r, Parked(p, true, []))
      else Decide(w.decision(p), abort, id, r)
  }

  /** A timeout under `on_timeout: abort` leaves the pending approval in place. */
  function Decide(d: Decision, abort: bool, id: Id, r: Run): (res: (Run, Outcome))
    ensures OutputOnly(r, res.0, id)
    ensures res.0.outbox == r.outbox
    ensures res.0.approval.None? || res.0.approval == r.approval
    ensures !res.1.Parked?
  {
    match d
    case Approved(out) => (SetOutput(r.(approval := None), id, out), Completed(false, NO_FLAGS))
    case Rejected(out) => (SetOutput(r.(approval := None), id, out), Aborted("approval_rejected"))
    case TimedOut(out) =>
      if abort then (SetOutput(r, id, out), Aborted("approval_timeout"))
      else (SetOutput(r.(approval := None), id, out), Completed(true, NO_FLAGS))
  }

  const EMAIL_OUTPUT := Obj(map["message_id" := Null, "status" := Str("enqueued")])

  function BranchOutput(taken: bool, output: Value): Value {
    Obj(map["branch" := Str(if taken then "then" else "else"), "output" := output])
  }

  // --- for_each -------------------------------------------------------------------

  datatype Entry =
    | EntrySkipped
    | EntryFailed(code: string)
    | EntrySucceeded(stepId: Option<Id>, output: Value)

  datatype LoopAcc = LoopAcc(entries: seq<Entry>, anySucceeded: bool, anyExecuted: bool, iterationFailure: bool)

  const LOOP_START := LoopAcc([], false, false, false)

  function EntryValue(e: Entry): Value {
    match e
    case EntrySkipped => Obj(map["status" := Str("skipped")])
    case EntryFailed(code) => Obj(map["status" := Str("failed"), "error" := Str(code)])
    case EntrySucceeded(id, out) =>
      Obj(map["status" := Str("succeeded"), "step_id" := if id.None? then Undefined else Str(id.value), "output" := out])
  }

  function LoopOutput(entries: seq<Entry>, dropped: nat): Value {
    Obj(map["results" := Arr(seq(|entries|, i requires 0 <= i < |entries| => EntryValue(entries[i]))),
            "truncated" := Bool(dropped > 0), "dropped_count" := Num(Finite(dropped as real))])
  }

  /** `Math.max(1, Math.min(limit ?? 100, 1000))`. */
  function ClampLimit(limit: Option<int>): nat {
    var n := if limit.None? then 100 else limit.value;
    var capped := if n < 1000 then n else 1000;
    if capped < 1 then 1 else capped
  }

  function Bounded(items: seq<Value>, limit: Option<int>): (bounded: seq<Value>)
    ensures |bounded| <= |items|
  {
    if |items| <= ClampLimit(limit) then items else items[..ClampLimit(limit)]
  }

  /** The saved cursor, if the loop was parked. */
  function StartIndex(r: Run, p: Path): nat {
    if p in r.iter then r.iter[p] else 0
  }

  datatype Verdict = Verdict(attempted: bool, succeeded: bool, lastOutput: Value)

  /** The verdict on iteration `i` over its first `n` children, read from the run state. */
  function VerdictOf(children: seq<Step>, n: nat, p: Path, i: nat, r: Run): Verdict
    requires n <= |children|
  {
    if n == 0 then Verdict(false, false, Null) else
    var v := VerdictOf(children, n - 1, p, i, r);
    var c := children[n - 1];
    if Child(p, Item(i), c.id) !in r.done then v
    else if c.id !in r.status || r.status[c.id] == Skipped then v
    else if r.status[c.id] == Succeeded then Verdict(true, true, Output(r, c.id))
    else v.(attempted := true)
  }

  function LoopStep(acc: LoopAcc, v: Verdict, children: seq<Step>, sub: Flags): LoopAcc {
    var entry :=
      if !v.attempted then EntrySkipped
      else if sub.anyFailure && !v.succeeded then
        EntryFailed(if sub.firstError.None? then "step_error" else sub.firstError.value)
      else EntrySucceeded(if |children| == 0 then None else Some(children[|children| - 1].id), v.lastOutput);
    LoopAcc(acc.entries + [entry], acc.anySucceeded || v.succeeded, acc.anyExecuted || v.attempted,
            acc.iterationFailure || sub.anyFailure)
  }

  /** The iterations from `i` on; an abort records its failed entry before it leaves. */
  function ExecItems(w: World, m: Mode, children: seq<Step>, items: seq<Value>, i: nat, id: Id, dropped: nat, p: Path,
                     loop: Loop, r: Run, acc: LoopAcc): (Run, LoopAcc, Outcome)
    decreases children, 1, |items| - i
  {
    if i >= |items| then (r, acc, Completed(false, NO_FLAGS)) else
    var r0 := r.(iter := r.iter[p := i]);
    var (r1, o) := ExecSteps(w, m, children, 0, p, Item(i), InLoop(items[i], i, loop), r0, NO_FLAGS);
    match o
    case Parked(_, _, _) => (r1, acc, o)
    case Crashed => (r1, acc, o)
    case Aborted(code) =>
      var acc1 := acc.(entries := acc.entries + [EntryFailed(code)]);
      (SetOutput(r1, id, LoopOutput(acc1.entries, dropped)), acc1, o)
    case Completed(_, sub) =>
      var acc1 := LoopStep(acc, VerdictOf(children, |children|, p, i, r1), children, sub);
      ExecItems(w, m, children, items, i + 1, id, dropped, p, loop, r1.(iter := r1.iter - {p}), acc1)
  }

  function FinishLoop(r: Run, id: Id, dropped: nat, acc: LoopAcc): (res: (Run, Outcome))
    ensures OutputOnly(r, res.0, id)
    ensures res.0.outbox == r.outbox
    ensures res.0.approval == r.approval
  {
    var r1 := SetOutput(r, id, LoopOutput(acc.entries, dropped));
    if !acc.anyExecuted then (r1, Completed(false, NO_FLAGS))
    else if !acc.anySucceeded && acc.iterationFailure then (r1, Aborted("step_error"))
    else (r1, Completed(false, Flags(acc.iterationFailure, acc.anySucceeded, None, [])))
  }

  // --- One job of the worker --------------------------------------------------------

  /** `doExecuteRun` from the persisted state `r`. */
  function RunJob(w: World, m: Mode, steps: seq<Step>, r: Run): (Run, Outcome) {
    ExecSteps(w, m, steps, 0, [], Top, NoLoop, r, NO_FLAGS)
  }

  /** What the next job starts from: a crash loses `runs.state` but neither the outbox nor the step rows. */
  function Persisted(before: Run, after: Run, o: Outcome): Run {
    if o.Crashed? then before.(outbox := after.outbox, rows := after.rows) else after
  }

  /** The run's terminal verdict. */
  predicate RunFails(r: Run, o: Outcome) {
    r.runFailed || o.Aborted?
  }
}
