/** Manifests the validator accepts, and what a walk of their steps can touch. */
module WellFormed {
  import opened Prelude
  import opened Values
  import opened Workflow
  import opened Executor

  // --- Step ids ---------------------------------------------------------------------

  /** All ids of a step and its descendants. */
  function StepIds(s: Step): (ids: set<Id>)
    ensures s.id in ids
    decreases s, 0
  {
    {s.id} + match s.kind
             case Condition(_, thn, els) => IdsFrom(thn, 0) + IdsFrom(els, 0)
             case ForEach(_, _, children) => IdsFrom(children, 0)
             case _ => {}
  }

  function IdsFrom(steps: seq<Step>, k: nat): set<Id>
    requires k <= |steps|
    decreases steps, |steps| - k
  {
    if k == |steps| then {} else StepIds(steps[k]) + IdsFrom(steps, k + 1)
  }

  function Heads(steps: seq<Step>, k: nat): set<Id> {
    set j | k <= j < |steps| :: steps[j].id
  }

  lemma HeadsAreIds(steps: seq<Step>, k: nat)
    requires k <= |steps|
    ensures Heads(steps, k) <= IdsFrom(steps, k)
    decreases |steps| - k
  {
    if k < |steps| {
      HeadsAreIds(steps, k + 1);
    }
  }

  /** The ids that the step's own expressions read. */
  function Uses(s: Step): set<Id> {
    (if s.gate.Some? then s.gate.value.uses else {}) +
    match s.kind
    case Leaf(act) => act.uses
    case Reply(act) => act.uses
    case Email(message) => message.uses
    case Condition(when, _, _) => when.uses
    case ForEach(over, _, _) => over.uses
    case Delay(_) => {}
    case Approval(prompt, _) => prompt.uses
  }

  /**
   * Ids are unique, and every expression reads only ids that come earlier in the document
   * (`earlier` holds the ids before position `k`, those of the enclosing steps included).
   */
  ghost predicate WfSteps(steps: seq<Step>, k: nat, earlier: set<Id>)
    requires k <= |steps|
    decreases steps, |steps| - k
  {
    k == |steps| || (WfStep(steps[k], earlier) && WfSteps(steps, k + 1, earlier + StepIds(steps[k])))
  }

  ghost predicate WfStep(s: Step, earlier: set<Id>)
    decreases s, 0
  {
    && s.id !in earlier
    && Uses(s) <= earlier
    && match s.kind
       case Condition(_, thn, els) =>
         WfSteps(thn, 0, earlier + {s.id}) && WfSteps(els, 0, earlier + {s.id} + IdsFrom(thn, 0))
       case ForEach(_, _, children) => WfSteps(children, 0, earlier + {s.id})
       case _ => true
  }

  lemma {:induction false} WfStepIsNew(s: Step, earlier: set<Id>)
    requires WfStep(s, earlier)
    ensures StepIds(s) !! earlier
    decreases s, 0
  {
    match s.kind
    case Condition(_, thn, els) =>
      WfStepsAreNew(thn, 0, earlier + {s.id});
      WfStepsAreNew(els, 0, earlier + {s.id} + IdsFrom(thn, 0));
    case ForEach(_, _, children) => WfStepsAreNew(children, 0, earlier + {s.id});
    case _ =>
  }

  lemma {:induction false} WfStepsAreNew(steps: seq<Step>, k: nat, earlier: set<Id>)
    requires k <= |steps| && WfSteps(steps, k, earlier)
    ensures IdsFrom(steps, k) !! earlier
    decreases steps, |steps| - k
  {
    if k < |steps| {
      WfStepIsNew(steps[k], earlier);
      WfStepsAreNew(steps, k + 1, earlier + StepIds(steps[k]));
    }
  }

  /** A step and the ones after it share no id. */
  lemma WfHeadApart(steps: seq<Step>, k: nat, earlier: set<Id>)
    requires k < |steps| && WfSteps(steps, k, earlier)
    ensures StepIds(steps[k]) !! IdsFrom(steps, k + 1)
    ensures steps[k].id !in Heads(steps, k + 1)
  {
    WfStepsAreNew(steps, k + 1, earlier + StepIds(steps[k]));
    HeadsAreIds(steps, k + 1);
  }

  // --- What a walk can touch ------------------------------------------------------------

  datatype Region = Below(p: Path) | Scope(parent: Path, via: Via, heads: set<Id>)

  predicate In(q: Path, g: Region) {
    match g
    case Below(p) => p <= q
    case Scope(parent, via, heads) =>
      |q| > |parent| && parent <= q && q[|parent|].via == via && q[|parent|].id in heads
  }

  ghost predicate Within(g: Region, h: Region) {
    forall q: Path {:trigger In(q, h)} :: In(q, g) ==> In(q, h)
  }

  ghost predicate SameId(r: Run, r': Run, id: Id) {
    && (id in r.outputs <==> id in r'.outputs)
    && (id in r.outputs ==> r.outputs[id] == r'.outputs[id])
    && (id in r.status <==> id in r'.status)
    && (id in r.status ==> r.status[id] == r'.status[id])
  }

  ghost predicate SameCursor(r: Run, r': Run, q: Path) {
    (q in r.iter <==> q in r'.iter) && (q in r.iter ==> r.iter[q] == r'.iter[q])
  }

  /**
   * From `r` to `r'` only outputs and statuses of `ids` change, and only done marks and cursors inside `g`;
   * a done mark or the failure mark of the run is never taken back.
   */
  ghost predicate Framed(r: Run, r': Run, ids: set<Id>, g: Region) {
    && (forall id {:trigger SameId(r, r', id)} :: id !in ids ==> SameId(r, r', id))
    && r.done <= r'.done && (r.runFailed ==> r'.runFailed)
    && (forall q :: q in r'.done && q !in r.done ==> In(q, g))
    && (forall q {:trigger SameCursor(r, r', q)} :: !In(q, g) ==> SameCursor(r, r', q))
  }

  lemma WithinSame(g: Region)
    ensures Within(g, g)
  {
  }

  lemma FramedTrans(r: Run, r1: Run, r2: Run, ids1: set<Id>, g1: Region, ids2: set<Id>, g2: Region, ids: set<Id>, g: Region)
    requires Framed(r, r1, ids1, g1) && Framed(r1, r2, ids2, g2)
    requires ids1 <= ids && ids2 <= ids && Within(g1, g) && Within(g2, g)
    ensures Framed(r, r2, ids, g)
  {
    forall id | id !in ids ensures SameId(r, r2, id) {
      assert SameId(r, r1, id) && SameId(r1, r2, id);
    }
    forall q | !In(q, g) ensures SameCursor(r, r2, q) {
      assert SameCursor(r, r1, q) && SameCursor(r1, r2, q);
    }
  }

  lemma FramedWeaken(r: Run, r': Run, ids1: set<Id>, g1: Region, ids: set<Id>, g: Region)
    requires Framed(r, r', ids1, g1) && ids1 <= ids && Within(g1, g)
    ensures Framed(r, r', ids, g)
  {
    FramedTrans(r, r', r', ids1, g1, {}, g1, ids, g);
  }

  lemma ScopeBelow(parent: Path, via: Via, heads: set<Id>)
    ensures Within(Scope(parent, via, heads), Below(parent))
  {
  }

  lemma BelowScope(parent: Path, via: Via, id: Id, heads: set<Id>)
    requires id in heads
    ensures Within(Below(Child(parent, via, id)), Scope(parent, via, heads))
  {
    var p := Child(parent, via, id);
    forall q: Path | In(q, Below(p)) ensures In(q, Scope(parent, via, heads)) {
      assert q[|parent|] == p[|parent|];
      assert parent == p[..|parent|] == q[..|parent|];
    }
  }

  lemma ScopeShrinks(steps: seq<Step>, k: nat, parent: Path, via: Via)
    requires k < |steps|
    ensures Within(Scope(parent, via, Heads(steps, k + 1)), Scope(parent, via, Heads(steps, k)))
    ensures Within(Below(Child(parent, via, steps[k].id)), Scope(parent, via, Heads(steps, k)))
  {
    BelowScope(parent, via, steps[k].id, Heads(steps, k));
  }

  ghost predicate OnlyAt<V>(m: map<Id, V>, m': map<Id, V>, id: Id) {
    m' == m || (id in m' && m' == m[id := m'[id]])
  }

  /** A change to one step's own output, status and done mark. */
  lemma LocalFramed(r: Run, r': Run, id: Id, p: Path)
    requires OnlyAt(r.outputs, r'.outputs, id) && OnlyAt(r.status, r'.status, id)
    requires r'.done == r.done || r'.done == r.done + {p}
    requires r'.iter == r.iter || r'.iter == r.iter - {p} || (p in r'.iter && r'.iter == r.iter[p := r'.iter[p]])
    requires r.runFailed ==> r'.runFailed
    ensures Framed(r, r', {id}, Below(p))
  {
  }

  /** The same, after a walk below `p`. */
  lemma LocalAfter(r: Run, r1: Run, r': Run, ids: set<Id>, id: Id, p: Path)
    requires Framed(r, r1, ids, Below(p)) && id in ids
    requires OnlyAt(r1.outputs, r'.outputs, id) && OnlyAt(r1.status, r'.status, id)
    requires r'.done == r1.done || r'.done == r1.done + {p}
    requires r'.iter == r1.iter || r'.iter == r1.iter - {p} || (p in r'.iter && r'.iter == r1.iter[p := r'.iter[p]])
    requires r1.runFailed ==> r'.runFailed
    ensures Framed(r, r', ids, Below(p))
  {
    LocalFramed(r1, r', id, p);
    FramedTrans(r, r1, r', ids, Below(p), {id}, Below(p), ids, Below(p));
  }

  lemma FramedSelf(r: Run, ids: set<Id>, g: Region)
    ensures Framed(r, r, ids, g)
  {
  }

  lemma SkipFramed(s: Step, p: Path, r: Run)
    ensures Framed(r, SkipStep(r, s.id, p), StepIds(s), Below(p))
  {
    hide Framed, Within;
    WithinSame(Below(p));
    LocalFramed(r, SkipStep(r, s.id, p), s.id, p);
    FramedWeaken(r, SkipStep(r, s.id, p), {s.id}, Below(p), StepIds(s), Below(p));
  }

  /** A step's list marks it done or notes its failure. */
  lemma ListedFramed(r: Run, r1: Run, ids: set<Id>, id: Id, p: Path, via: Via)
    requires Framed(r, r1, ids, Below(p)) && id in ids
    ensures Framed(r, MarkDone(r1, p), ids, Below(p)) && Framed(r, Swallow(r1, via), ids, Below(p))
  {
    hide Framed;
    LocalAfter(r, r1, MarkDone(r1, p), ids, id, p);
    LocalAfter(r, r1, Swallow(r1, via), ids, id, p);
  }

  /** The walk of a list of steps stays within those steps. */
  lemma {:induction false} StepsFramed(w: World, m: Mode, steps: seq<Step>, k: nat, parent: Path, via: Via, loop: Loop,
                                       r: Run, acc: Flags)
    requires k <= |steps|
    ensures Framed(r, ExecSteps(w, m, steps, k, parent, via, loop, r, acc).0, IdsFrom(steps, k),
                   Scope(parent, via, Heads(steps, k)))
    decreases steps, 0, |steps| - k
  {
    hide Framed, Within, ExecStep, Gate, SkipStep, MarkDone, Swallow, SwallowFlags, StepIds, Heads, OnlyAt;
    var ids, g := IdsFrom(steps, k), Scope(parent, via, Heads(steps, k));
    FramedSelf(r, ids, g);
    if k < |steps| {
      var s := steps[k];
      var ids', g' := IdsFrom(steps, k + 1), Scope(parent, via, Heads(steps, k + 1));
      var p := Child(parent, via, s.id);
      var (r', _) := ExecSteps(w, m, steps, k, parent, via, loop, r, acc);
      ScopeShrinks(steps, k, parent, via);
      match Gate(s, r, loop)
      case Err(_) =>
      case Ok(open) =>
        if !open {
          var r1 := SkipStep(r, s.id, p);
          SkipFramed(s, p, r);
          StepsFramed(w, m, steps, k + 1, parent, via, loop, r1, acc);
          FramedTrans(r, r1, r', StepIds(s), Below(p), ids', g', ids, g);
        } else if p in r.done {
          StepsFramed(w, m, steps, k + 1, parent, via, loop, r, acc);
          FramedWeaken(r, r', ids', g', ids, g);
        } else {
          StepFramed(w, m, s, p, loop, r);
          var (r1, o) := ExecStep(w, m, s, p, loop, r);
          OwnId(s);
          ListedFramed(r, r1, StepIds(s), s.id, p, via);
          if o.Completed? {
            var r2 := MarkDone(r1, p);
            StepsFramed(w, m, steps, k + 1, parent, via, loop, r2, acc.(anySuccess := true));
            FramedTrans(r, r2, r', StepIds(s), Below(p), ids', g', ids, g);
          } else if o.Aborted? && s.continueOnError {
            var r2 := Swallow(r1, via);
            StepsFramed(w, m, steps, k + 1, parent, via, loop, r2, SwallowFlags(acc, o.code, s));
            FramedTrans(r, r2, r', StepIds(s), Below(p), ids', g', ids, g);
          } else {
            FramedWeaken(r, r1, StepIds(s), Below(p), ids, g);
          }
        }
    }
  }

  lemma OwnId(s: Step)
    ensures s.id in StepIds(s)
  {
  }

  lemma RowsFramed(r: Run, r': Run, ids: set<Id>, p: Path)
    requires r' == r.(rows := r'.rows)
    ensures Framed(r, r', ids, Below(p))
  {
  }

  lemma RecordedFramed(r: Run, r1: Run, ids: set<Id>, id: Id, p: Path, o: Outcome)
    requires Framed(r, r1, ids, Below(p)) && id in ids
    ensures Framed(r, RecordOutcome(r1, id, p, o), ids, Below(p)) && RecordOutcome(r1, id, p, o).done == r1.done
  {
    hide Framed;
    LocalAfter(r, r1, RecordOutcome(r1, id, p, o), ids, id, p);
  }

  lemma {:induction false} StepFramed(w: World, m: Mode, s: Step, p: Path, loop: Loop, r: Run)
    ensures Framed(r, ExecStep(w, m, s, p, loop, r).0, StepIds(s), Below(p))
    ensures p in ExecStep(w, m, s, p, loop, r).0.done ==> p in r.done
    decreases s, 1, 0
  {
    hide Framed, ExecBody, StepIds, Within, In, RecordOutcome, OnlyAt;
    WithinSame(Below(p));
    FramedSelf(r, StepIds(s), Below(p));
    if !CrashesAt(m, p, false) {
      var r0 := r.(rows := r.rows[p := RowRunning]);
      OwnId(s);
      RowsFramed(r, r0, StepIds(s), p);
      BodyFramed(w, m, s, p, loop, r0);
      var (r1, o) := ExecBody(w, m, s, p, loop, r0);
      RecordedFramed(r0, r1, StepIds(s), s.id, p, o);
      var r' := ExecStep(w, m, s, p, loop, r).0;
      FramedTrans(r, r0, r', StepIds(s), Below(p), StepIds(s), Below(p), StepIds(s), Below(p));
    }
  }

  lemma {:induction false} BodyFramed(w: World, m: Mode, s: Step, p: Path, loop: Loop, r: Run)
    ensures Framed(r, ExecBody(w, m, s, p, loop, r).0, StepIds(s), Below(p))
    ensures p in ExecBody(w, m, s, p, loop, r).0.done ==> p in r.done
    decreases s, 0, 0
  {
    hide Framed, ExecCondition, ExecForEach;
    if s.kind.Condition? {
      assert StepIds(s) == {s.id} + IdsFrom(s.kind.thn, 0) + IdsFrom(s.kind.els, 0);
      ConditionFramed(w, m, s.id, s.kind, p, loop, r);
    } else if s.kind.ForEach? {
      ForEachFramed(w, m, s.id, s.kind, p, loop, r);
    } else {
      PlainFramed(w, m, s, p, loop, r);
    }
  }

  lemma {:induction false} ConditionFramed(w: World, m: Mode, id: Id, c: Kind, p: Path, loop: Loop, r: Run)
    requires c.Condition?
    ensures var r' := ExecCondition(w, m, id, c, p, loop, r).0;
            && Framed(r, r', {id} + IdsFrom(c.thn, 0) + IdsFrom(c.els, 0), Below(p))
            && (p in r'.done ==> p in r.done)
    decreases c, 0, 0
  {
    hide Framed, ViewOf, BranchOutput, Output, ExecSteps, Within, In, IdsFrom, Heads, IsTruthy;
    WithinSame(Below(p));
    var r' := ExecCondition(w, m, id, c, p, loop, r).0;
    var ids := {id} + IdsFrom(c.thn, 0) + IdsFrom(c.els, 0);
    FramedSelf(r, ids, Below(p));
    var e := c.when.eval(ViewOf(r, c.when.uses), loop);
    if e.Ok? {
      var t := IsTruthy(e.value);
      var branch, via := if t then c.thn else c.els, if t then Then else Else;
      if |branch| == 0 {
        LocalAfter(r, r, r', ids, id, p);
      } else {
        StepsFramed(w, m, branch, 0, p, via, loop, r, NO_FLAGS);
        var r1 := ExecSteps(w, m, branch, 0, p, via, loop, r, NO_FLAGS).0;
        NoMarkOutside(r, r1, IdsFrom(branch, 0), p, via, Heads(branch, 0));
        FramedWeaken(r, r1, IdsFrom(branch, 0), Below(p), ids, Below(p));
        LocalAfter(r, r1, r', ids, id, p);
      }
    }
  }

  lemma {:induction false} ForEachFramed(w: World, m: Mode, id: Id, c: Kind, p: Path, loop: Loop, r: Run)
    requires c.ForEach?
    ensures var r' := ExecForEach(w, m, id, c, p, loop, r).0;
            Framed(r, r', {id} + IdsFrom(c.children, 0), Below(p)) && (p in r'.done ==> p in r.done)
    decreases c, 0, 0
  {
    hide Framed, ViewOf, LoopOutput, Bounded, FinishLoop, ExecItems;
    var r' := ExecForEach(w, m, id, c, p, loop, r).0;
    var ids := {id} + IdsFrom(c.children, 0);
    FramedSelf(r, ids, Below(p));
    var e := c.over.eval(ViewOf(r, c.over.uses), loop);
    if e.Ok? {
      if e.value.Arr? {
        var items := Bounded(e.value.items, c.limit);
        var dropped := |e.value.items| - |items|;
        ItemsFramed(w, m, c.children, items, StartIndex(r, p), id, dropped, p, loop, r, LOOP_START);
        var r1 := ExecItems(w, m, c.children, items, StartIndex(r, p), id, dropped, p, loop, r, LOOP_START).0;
        LocalAfter(r, r1, r', ids, id, p);
      } else {
        LocalAfter(r, r, r', ids, id, p);
      }
    }
  }

  /** The step types without children. */
  lemma PlainFramed(w: World, m: Mode, s: Step, p: Path, loop: Loop, r: Run)
    requires !s.kind.Condition? && !s.kind.ForEach?
    ensures OutputOnly(r, ExecBody(w, m, s, p, loop, r).0, s.id)
    ensures Framed(r, ExecBody(w, m, s, p, loop, r).0, StepIds(s), Below(p))
  {
    hide Framed, ViewOf, ExecLeaf, ExecEmail, ExecDelay, ExecApproval;
    OutputOnlyFramed(r, ExecBody(w, m, s, p, loop, r).0, s, p);
  }

  lemma OutputOnlyFramed(r: Run, r': Run, s: Step, p: Path)
    requires OutputOnly(r, r', s.id)
    ensures Framed(r, r', StepIds(s), Below(p))
  {
    hide Framed;
    FramedSelf(r, StepIds(s), Below(p));
    LocalAfter(r, r, r', StepIds(s), s.id, p);
  }

  /** A walk inside one scope under `p` leaves the done mark of `p` itself alone. */
  lemma NoMarkOutside(r: Run, r': Run, ids: set<Id>, p: Path, via: Via, heads: set<Id>)
    requires Framed(r, r', ids, Scope(p, via, heads))
    ensures Framed(r, r', ids, Below(p))
    ensures p in r'.done ==> p in r.done
    ensures SameCursor(r, r', p)
  {
    ScopeBelow(p, via, heads);
    FramedWeaken(r, r', ids, Scope(p, via, heads), ids, Below(p));
    assert !In(p, Scope(p, via, heads));
  }

  lemma {:induction false} ItemsFramed(w: World, m: Mode, children: seq<Step>, items: seq<Value>, i: nat, id: Id, dropped: nat,
                                       p: Path, loop: Loop, r: Run, acc: LoopAcc)
    ensures Framed(r, ExecItems(w, m, children, items, i, id, dropped, p, loop, r, acc).0,
                   {id} + IdsFrom(children, 0), Below(p))
    ensures p in ExecItems(w, m, children, items, i, id, dropped, p, loop, r, acc).0.done ==> p in r.done
    decreases children, 1, |items| - i
  {
    hide Framed;
    var ids := {id} + IdsFrom(children, 0);
    FramedSelf(r, ids, Below(p));
    if i < |items| {
      var r' := ExecItems(w, m, children, items, i, id, dropped, p, loop, r, acc).0;
      var r0 := r.(iter := r.iter[p := i]);
      LocalAfter(r, r, r0, ids, id, p);
      StepsFramed(w, m, children, 0, p, Item(i), InLoop(items[i], i, loop), r0, NO_FLAGS);
      var (r1, o) := ExecSteps(w, m, children, 0, p, Item(i), InLoop(items[i], i, loop), r0, NO_FLAGS);
      NoMarkOutside(r0, r1, IdsFrom(children, 0), p, Item(i), Heads(children, 0));
      FramedTrans(r, r0, r1, ids, Below(p), IdsFrom(children, 0), Below(p), ids, Below(p));
      if o.Completed? {
        var r2 := r1.(iter := r1.iter - {p});
        var acc1 := LoopStep(acc, VerdictOf(children, |children|, p, i, r1), children, o.flags);
        LocalAfter(r, r1, r2, ids, id, p);
        ItemsFramed(w, m, children, items, i + 1, id, dropped, p, loop, r2, acc1);
        FramedTrans(r, r2, r', ids, Below(p), ids, Below(p), ids, Below(p));
      } else {
        LocalAfter(r, r1, r', ids, id, p);
      }
    }
  }
}
