/** The step tree of a manifest and the checkpointed state of a run. */
module Workflow {
  import opened Prelude
  import opened Values

  type Id = string

  /** How a list of steps is reached from the step that contains it. */
  datatype Via = Top | Then | Else | Item(index: nat)

  /** One hop of a step path: `.then.id`, `.else.id`, `[i].id`, or a top-level `id`. */
  datatype Hop = Hop(via: Via, id: Id)

  type Path = seq<Hop>

  datatype StepStatus = Succeeded | Failed | Skipped

  datatype StepView = StepView(output: Value, status: StepStatus)

  /** The part of `steps.*` that one expression looks at. */
  type View = map<Id, StepView>

  datatype Loop = NoLoop | InLoop(item: Value, index: nat, outer: Loop)

  /** A deterministic expression, given with the step ids it reads. */
  datatype Expr = Expr(uses: set<Id>, eval: (View, Loop) -> Result<Value>)

  /** What a leaf step does: it may record an output even when it fails (the http step does). */
  datatype LeafResult = LeafOk(output: Value) | LeafErr(code: string, partial: Option<Value>)

  datatype Action = Action(uses: set<Id>, run: (Path, View, Loop) -> LeafResult)

  datatype Kind =
    | Leaf(act: Action)          // http, inbox notify, transform, log
    | Reply(act: Action)
    | Email(message: Expr)
    | Condition(when: Expr, thn: seq<Step>, els: seq<Step>)
    | ForEach(over: Expr, limit: Option<int>, children: seq<Step>)
    | Delay(validDuration: bool)
    | Approval(prompt: Expr, abortOnTimeout: bool)

  datatype Step = Step(id: Id, gate: Option<Expr>, continueOnError: bool, kind: Kind)

  /** Status of the newest `run_steps` row of a path. */
  datatype RowStatus = RowRunning | RowWaiting | RowPaused | RowSucceeded | RowFailed | RowSkipped

  /** `runs.state` (first eight fields) and the two tables that outlive a crash (last two). */
  datatype Run = Run(
    outputs: map<Id, Value>,
    status: map<Id, StepStatus>,
    done: set<Path>,
    iter: map<Path, nat>,
    delay: Option<Path>,
    approval: Option<Path>,
    reply: Option<Value>,
    runFailed: bool,
    outbox: map<Path, Value>,
    rows: map<Path, RowStatus>)

  const FRESH_RUN := Run(map[], map[], {}, map[], None, None, None, false, map[], map[])

  datatype Decision = Approved(output: Value) | Rejected(output: Value) | TimedOut(output: Value)

  /** What the outside world answers at each park point. */
  datatype World = World(delayOutput: Path -> Value, decision: Path -> Decision)

  datatype Crash = Crash(path: Path, afterEffect: bool)

  /**
   * A segment is one job of the worker: `ready(p)` says whether the delay at `p` has elapsed or the
   * approval at `p` has been decided, and `crash` where the worker dies, if it does. `Uninterrupted`
   * is the walk in which no park point ever waits.
   */
  datatype Mode = Uninterrupted | Segment(ready: Path -> bool, crash: Option<Crash>)

  /**
   * The failures and successes a list of steps reports to its container. `again` holds the steps that failed
   * under `on_error: continue`: they are not marked done, so a job that re-enters the list runs them again.
   */
  datatype Flags = Flags(anyFailure: bool, anySuccess: bool, firstError: Option<string>, again: seq<Step>)

  const NO_FLAGS := Flags(false, false, None, [])

  /** `again` of a park: the failed steps of every list that is still open. */
  datatype Outcome =
    | Completed(skipped: bool, flags: Flags)
    | Aborted(code: string)
    | Parked(at: Path, paused: bool, again: seq<Step>)
    | Crashed

  function Child(parent: Path, via: Via, id: Id): Path {
    parent + [Hop(via, id)]
  }

  /** `buildEvalContext` restricted to the ids an expression reads. */
  function ViewOf(r: Run, uses: set<Id>): View {
    map id | id in uses && id in r.outputs ::
      StepView(r.outputs[id], if id in r.status then r.status[id] else Succeeded)
  }

  function Output(r: Run, id: Id): Value {
    if id in r.outputs then OrNull(r.outputs[id]) else Null
  }

  /** Only the output of `id` may differ, and none of the statuses, done marks, cursors, step rows and failure mark. */
  ghost predicate OutputOnly(r: Run, r': Run, id: Id) {
    && (r'.outputs == r.outputs || (id in r'.outputs && r'.outputs == r.outputs[id := r'.outputs[id]]))
    && r'.status == r.status && r'.done == r.done && r'.iter == r.iter && r'.rows == r.rows && r'.runFailed == r.runFailed
  }

  function SetOutput(r: Run, id: Id, v: Value): Run {
    r.(outputs := r.outputs[id := v])
  }

  function MarkStatus(r: Run, id: Id, st: StepStatus): Run {
    r.(status := r.status[id := st])
  }

  function MarkDone(r: Run, p: Path): Run {
    r.(done := r.done + {p})
  }
}
