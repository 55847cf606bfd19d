/** Email notify steps: one outbox row per step instance, whatever crashes and resumes happen. */
module EmailOnce {
  import opened Prelude
  import opened Values
  import opened Workflow
  import opened Executor
  import opened WellFormed
  import opened Parking
  import opened Durability
  import opened StepPaths

  /** The path `q` leads, from its hop `d` on, to an email step among `steps`. */
  ghost predicate EmailBelow(steps: seq<Step>, q: Path, d: nat)
    decreases steps, 0
  {
    d < |q| && exists j: nat :: j < |steps| && q[d].id == steps[j].id && EmailIn(steps[j], q, d)
  }

  ghost predicate EmailIn(s: Step, q: Path, d: nat)
    requires d < |q|
    decreases s, 1
  {
    match s.kind
    case Email(_) => d == |q| - 1
    case Condition(_, thn, els) =>
      d + 1 < |q| && ((q[d + 1].via.Then? && EmailBelow(thn, q, d + 1)) || (q[d + 1].via.Else? && EmailBelow(els, q, d + 1)))
    case ForEach(_, _, children) => d + 1 < |q| && q[d + 1].via.Item? && EmailBelow(children, q, d + 1)
    case _ => false
  }

  /** A done email step was skipped, or it succeeded and its row is in the outbox. */
  ghost predicate Sent(r: Run, q: Path) {
    q in r.rows && (r.rows[q] == RowSkipped || (r.rows[q] == RowSucceeded && q in r.outbox))
  }

  /** Done marks, the rows of done steps and the outbox only grow. */
  ghost predicate Kept(r: Run, r': Run) {
    && r.done <= r'.done
    && (forall q :: q in r.done && q in r.rows ==> q in r'.rows && r'.rows[q] == r.rows[q])
    && (forall q :: q in r.outbox ==> q in r'.outbox && r'.outbox[q] == r.outbox[q])
  }

  /** What a walk of `steps` adds: sent emails to the done set, and paths of email steps to the outbox. */
  ghost predicate Sends(r: Run, r': Run, steps: seq<Step>, parent: Path, via: Via) {
    && Kept(r, r')
    && (forall q :: q in r'.done && q !in r.done && EmailBelow(steps, q, |parent|) ==> Sent(r', q))
    && (forall q :: q in r'.outbox && q !in r.outbox ==>
          parent < q && q[|parent|].via == via && EmailBelow(steps, q, |parent|))
  }

  ghost predicate SendsIn(r: Run, r': Run, s: Step, p: Path)
    requires |p| > 0
  {
    && Kept(r, r')
    && (forall q :: q in r'.done && q !in r.done && p <= q && EmailIn(s, q, |p| - 1) ==> Sent(r', q))
    && (forall q :: q in r'.outbox && q !in r.outbox ==> p <= q && EmailIn(s, q, |p| - 1))
  }

  lemma SendsTrans(r: Run, r1: Run, r2: Run, steps: seq<Step>, parent: Path, via: Via)
    requires Sends(r, r1, steps, parent, via) && Sends(r1, r2, steps, parent, via)
    ensures Sends(r, r2, steps, parent, via)
  {
  }

  lemma SendsInTrans(r: Run, r1: Run, r2: Run, s: Step, p: Path)
    requires |p| > 0 && SendsIn(r, r1, s, p) && SendsIn(r1, r2, s, p)
    ensures SendsIn(r, r2, s, p)
  {
  }

  lemma SendsSelf(r: Run, steps: seq<Step>, parent: Path, via: Via)
    ensures Sends(r, r, steps, parent, via)
  {
  }

  /** Changes that touch neither the outbox nor the done set nor the rows of done steps. */
  lemma QuietIn(r: Run, r': Run, s: Step, p: Path)
    requires |p| > 0 && r'.done == r.done && r'.outbox == r.outbox && p !in r.done
    requires r'.rows == r.rows || (p in r'.rows && r'.rows == r.rows[p := r'.rows[p]])
    ensures SendsIn(r, r', s, p)
  {
  }

  /** One step of the list: what it sends below its path, and its own done mark. */
  lemma Lift(steps: seq<Step>, k: nat, parent: Path, via: Via, r: Run, r1: Run, r2: Run, ids: set<Id>)
    requires k < |steps| && (forall j: nat :: j < |steps| && steps[j].id == steps[k].id ==> j == k)
    requires var p := Child(parent, via, steps[k].id);
             && SendsIn(r, r1, steps[k], p) && Framed(r, r1, ids, Below(p))
             && (r2.done == r1.done || (r2.done == r1.done + {p} && (steps[k].kind.Email? ==> Sent(r2, p))))
             && r2.rows == r1.rows && r2.outbox == r1.outbox
    ensures Sends(r, r2, steps, parent, via)
  {
    var p := Child(parent, via, steps[k].id);
    forall q: Path | q in r2.done && q !in r.done && EmailBelow(steps, q, |parent|) ensures Sent(r2, q) {
      assert In(q, Below(p));
      assert q[|parent|] == p[|parent|];
      var j: nat :| j < |steps| && q[|parent|].id == steps[j].id && EmailIn(steps[j], q, |parent|);
      assert j == k;
      if q == p {
        assert |q| == |parent| + 1;
        assert steps[k].kind.Email?;
        if q in r1.done {
          assert Sent(r1, q);
        }
      } else {
        assert q in r1.done;
        assert Sent(r1, q);
      }
    }
    forall q: Path | q in r2.outbox && q !in r.outbox
      ensures parent < q && q[|parent|].via == via && EmailBelow(steps, q, |parent|)
    {
      assert p <= q && EmailIn(steps[k], q, |parent|);
      assert q[|parent|] == p[|parent|];
      assert parent == p[..|parent|] == q[..|parent|];
    }
  }

  ghost predicate UniqueHeads(steps: seq<Step>) {
    forall i: nat, j: nat :: i < |steps| && j < |steps| && steps[i].id == steps[j].id ==> i == j
  }

  lemma WfUniqueHeads(steps: seq<Step>, k: nat, earlier: set<Id>)
    requires k <= |steps| && WfSteps(steps, k, earlier)
    ensures forall i: nat, j: nat :: k <= i < j < |steps| ==> steps[i].id != steps[j].id
    decreases |steps| - k
  {
    if k < |steps| {
      WfHeadApart(steps, k, earlier);
      WfUniqueHeads(steps, k + 1, earlier + StepIds(steps[k]));
    }
  }

  lemma {:induction false} StepsSend(w: World, m: Mode, steps: seq<Step>, k: nat, earlier: set<Id>, parent: Path, via: Via, loop: Loop,
                                     r: Run, acc: Flags)
    requires k <= |steps| && WfSteps(steps, k, earlier) && UniqueHeads(steps)
    ensures Sends(r, ExecSteps(w, m, steps, k, parent, via, loop, r, acc).0, steps, parent, via)
    decreases steps, 0, |steps| - k
  {
    hide Sends, SendsIn, Framed, ExecStep, EmailBelow, Sent;
    SendsSelf(r, steps, parent, via);
    if k < |steps| {
      var s := steps[k];
      var p := Child(parent, via, s.id);
      var earlier' := earlier + StepIds(s);
      var r' := ExecSteps(w, m, steps, k, parent, via, loop, r, acc).0;
      var g := Gate(s, r, loop);
      if g.Ok? {
        if !g.value {
          var r1 := SkipStep(r, s.id, p);
          SkipSends(steps, k, parent, via, r);
          StepsSend(w, m, steps, k + 1, earlier', parent, via, loop, r1, acc);
          SendsTrans(r, r1, r', steps, parent, via);
        } else if p in r.done {
          StepsSend(w, m, steps, k + 1, earlier', parent, via, loop, r, acc);
        } else {
          var (r1, o) := ExecStep(w, m, s, p, loop, r);
          StepSends(w, m, s, earlier, p, loop, r);
          StepFramed(w, m, s, p, loop, r);
          if o.Completed? {
            var r2 := MarkDone(r1, p);
            Lift(steps, k, parent, via, r, r1, r2, StepIds(s)) by {
              SentMark(r1, p);
            }
            StepsSend(w, m, steps, k + 1, earlier', parent, via, loop, r2, acc.(anySuccess := true));
            SendsTrans(r, r2, r', steps, parent, via);
          } else if o.Aborted? && s.continueOnError {
            var r2 := Swallow(r1, via);
            Lift(steps, k, parent, via, r, r1, r2, StepIds(s));
            StepsSend(w, m, steps, k + 1, earlier', parent, via, loop, r2, SwallowFlags(acc, o.code, s));
            SendsTrans(r, r2, r', steps, parent, via);
          } else {
            Lift(steps, k, parent, via, r, r1, r1, StepIds(s));
          }
        }
      }
    }
  }

  lemma SentMark(r: Run, p: Path)
    ensures Sent(r, p) ==> Sent(MarkDone(r, p), p)
  {
  }

  lemma SkipSends(steps: seq<Step>, k: nat, parent: Path, via: Via, r: Run)
    requires k < |steps|
    ensures Sends(r, SkipStep(r, steps[k].id, Child(parent, via, steps[k].id)), steps, parent, via)
  {
  }

  lemma {:induction false} StepSends(w: World, m: Mode, s: Step, earlier: set<Id>, p: Path, loop: Loop, r: Run)
    requires WfStep(s, earlier) && |p| > 0 && p[|p| - 1].id == s.id && p !in r.done
    ensures var (r', o) := ExecStep(w, m, s, p, loop, r);
            SendsIn(r, r', s, p) && (o.Completed? && s.kind.Email? ==> Sent(r', p))
    decreases s, 1, 0
  {
    hide SendsIn, ExecBody, WfStep, Framed, RecordOutcome, EmailIn, StepIds, Within;
    var r0 := r.(rows := r.rows[p := RowRunning]);
    QuietIn(r, r0, s, p);
    QuietIn(r, r, s, p);
    BodySends(w, m, s, earlier, p, loop, r0);
    BodyFramed(w, m, s, p, loop, r0);
    var (r1, o) := ExecBody(w, m, s, p, loop, r0);
    var r2 := RecordOutcome(r1, s.id, p, o);
    RecordQuiet(r1, s.id, p, o);
    QuietIn(r1, r2, s, p);
    SendsInTrans(r, r0, r1, s, p);
    SendsInTrans(r, r1, r2, s, p);
  }

  /** Recording how a step ended touches its own row alone. */
  lemma RecordQuiet(r: Run, id: Id, p: Path, o: Outcome)
    ensures var r' := RecordOutcome(r, id, p, o);
            && r'.done == r.done && r'.outbox == r.outbox
            && (r'.rows == r.rows || (p in r'.rows && r'.rows == r.rows[p := r'.rows[p]]))
            && (o.Completed? && (o.skipped || p in r.outbox) ==> Sent(r', p))
  {
  }

  lemma {:induction false} BodySends(w: World, m: Mode, s: Step, earlier: set<Id>, p: Path, loop: Loop, r: Run)
    requires WfStep(s, earlier) && |p| > 0 && p[|p| - 1].id == s.id && p !in r.done
    ensures var (r', o) := ExecBody(w, m, s, p, loop, r);
            SendsIn(r, r', s, p) && (o.Completed? && s.kind.Email? ==> p in r'.outbox && !o.skipped)
    decreases s, 0, 0
  {
    hide SendsIn, ExecCondition, ExecForEach, ExecLeaf, ExecDelay, ExecApproval, ExecEmail;
    match s.kind
    case Condition(_, _, _) => ConditionSends(w, m, s, earlier, p, loop, r);
    case ForEach(_, _, _) => ForEachSends(w, m, s, earlier, p, loop, r);
    case Email(message) => EmailSends(message, s, p, loop, r);
    case _ => QuietIn(r, ExecBody(w, m, s, p, loop, r).0, s, p);
  }

  lemma EmailSends(message: Expr, s: Step, p: Path, loop: Loop, r: Run)
    requires s.kind.Email? && |p| > 0
    ensures var (r', o) := ExecEmail(message, s.id, p, loop, r);
            SendsIn(r, r', s, p) && (o.Completed? ==> p in r'.outbox && !o.skipped)
  {
  }

  lemma {:induction false} ConditionSends(w: World, m: Mode, s: Step, earlier: set<Id>, p: Path, loop: Loop, r: Run)
    requires s.kind.Condition? && WfStep(s, earlier) && |p| > 0 && p !in r.done
    ensures SendsIn(r, ExecCondition(w, m, s.id, s.kind, p, loop, r).0, s, p)
    decreases s.kind, 0, 0
  {
    hide SendsIn, Sends, Framed, ViewOf, BranchOutput, Output, ExecSteps, WfSteps, EmailIn;
    var c := s.kind;
    QuietIn(r, r, s, p);
    var r' := ExecCondition(w, m, s.id, c, p, loop, r).0;
    var e := c.when.eval(ViewOf(r, c.when.uses), loop);
    if e.Ok? {
      var t := IsTruthy(e.value);
      var branch, via := if t then c.thn else c.els, if t then Then else Else;
      if |branch| == 0 {
        QuietIn(r, r', s, p);
      } else {
        var earlier' := if t then earlier + {s.id} else earlier + {s.id} + IdsFrom(c.thn, 0);
        BranchUnique(branch, earlier');
        StepsSend(w, m, branch, 0, earlier', p, via, loop, r, NO_FLAGS);
        StepsFramed(w, m, branch, 0, p, via, loop, r, NO_FLAGS);
        var r1 := ExecSteps(w, m, branch, 0, p, via, loop, r, NO_FLAGS).0;
        NoMarkOutside(r, r1, IdsFrom(branch, 0), p, via, Heads(branch, 0));
        BranchIn(s, branch, via, p, r, r1, IdsFrom(branch, 0));
        QuietIn(r1, r', s, p);
        SendsInTrans(r, r1, r', s, p);
      }
    }
  }

  lemma BranchUnique(steps: seq<Step>, earlier: set<Id>)
    requires WfSteps(steps, 0, earlier)
    ensures UniqueHeads(steps)
  {
    WfUniqueHeads(steps, 0, earlier);
  }

  /** What a scope under `p` sends is sent below the step at `p`. */
  lemma BranchIn(s: Step, steps: seq<Step>, via: Via, p: Path, r: Run, r': Run, ids: set<Id>)
    requires |p| > 0 && Sends(r, r', steps, p, via) && Framed(r, r', ids, Scope(p, via, Heads(steps, 0)))
    requires match s.kind
             case Condition(_, thn, els) => (steps == thn && via == Then) || (steps == els && via == Else)
             case ForEach(_, _, children) => steps == children && via.Item?
             case _ => false
    ensures SendsIn(r, r', s, p)
  {
    forall q: Path | q in r'.done && q !in r.done && p <= q && EmailIn(s, q, |p| - 1) ensures Sent(r', q) {
      assert In(q, Scope(p, via, Heads(steps, 0)));
      assert q[|p|].via == via;
      assert EmailBelow(steps, q, |p|);
    }
    forall q: Path | q in r'.outbox && q !in r.outbox ensures p <= q && EmailIn(s, q, |p| - 1) {
      assert p < q && q[|p|].via == via && EmailBelow(steps, q, |p|);
    }
  }

  lemma {:induction false} ForEachSends(w: World, m: Mode, s: Step, earlier: set<Id>, p: Path, loop: Loop, r: Run)
    requires s.kind.ForEach? && WfStep(s, earlier) && |p| > 0 && p !in r.done
    ensures SendsIn(r, ExecForEach(w, m, s.id, s.kind, p, loop, r).0, s, p)
    decreases s.kind, 0, 0
  {
    hide SendsIn, Sends, Framed, ViewOf, LoopOutput, Bounded, ExecItems, WfSteps, EmailIn, FinishLoop;
    var c := s.kind;
    QuietIn(r, r, s, p);
    var r' := ExecForEach(w, m, s.id, c, p, loop, r).0;
    var e := c.over.eval(ViewOf(r, c.over.uses), loop);
    if e.Ok? {
      if e.value.Arr? {
        var items := Bounded(e.value.items, c.limit);
        var dropped := |e.value.items| - |items|;
        ItemsSend(w, m, s, earlier + {s.id}, items, StartIndex(r, p), dropped, p, loop, r, LOOP_START);
        ItemsFramed(w, m, c.children, items, StartIndex(r, p), s.id, dropped, p, loop, r, LOOP_START);
        var r1 := ExecItems(w, m, c.children, items, StartIndex(r, p), s.id, dropped, p, loop, r, LOOP_START).0;
        QuietIn(r1, r', s, p);
        SendsInTrans(r, r1, r', s, p);
      } else {
        QuietIn(r, r', s, p);
      }
    }
  }

  lemma {:induction false} ItemsSend(w: World, m: Mode, s: Step, earlier: set<Id>, items: seq<Value>, i: nat, dropped: nat, p: Path,
                                     loop: Loop, r: Run, acc: LoopAcc)
    requires s.kind.ForEach? && WfSteps(s.kind.children, 0, earlier) && |p| > 0 && p !in r.done
    ensures SendsIn(r, ExecItems(w, m, s.kind.children, items, i, s.id, dropped, p, loop, r, acc).0, s, p)
    decreases s.kind.children, 1, |items| - i
  {
    hide SendsIn, Sends, Framed, LoopOutput, ExecSteps, EmailIn, LoopStep, VerdictOf;
    QuietIn(r, r, s, p);
    if i < |items| {
      var children := s.kind.children;
      var inner := InLoop(items[i], i, loop);
      var r' := ExecItems(w, m, children, items, i, s.id, dropped, p, loop, r, acc).0;
      var r0 := r.(iter := r.iter[p := i]);
      QuietIn(r, r0, s, p);
      BranchUnique(children, earlier);
      StepsSend(w, m, children, 0, earlier, p, Item(i), inner, r0, NO_FLAGS);
      StepsFramed(w, m, children, 0, p, Item(i), inner, r0, NO_FLAGS);
      var (r1, o) := ExecSteps(w, m, children, 0, p, Item(i), inner, r0, NO_FLAGS);
      NoMarkOutside(r0, r1, IdsFrom(children, 0), p, Item(i), Heads(children, 0));
      BranchIn(s, children, Item(i), p, r0, r1, IdsFrom(children, 0));
      SendsInTrans(r, r0, r1, s, p);
      if o.Completed? {
        var r2 := r1.(iter := r1.iter - {p});
        QuietIn(r1, r2, s, p);
        SendsInTrans(r, r1, r2, s, p);
        ItemsSend(w, m, s, earlier, items, i + 1, dropped, p, loop, r2,
                  LoopStep(acc, VerdictOf(children, |children|, p, i, r1), children, o.flags));
        SendsInTrans(r, r2, r', s, p);
      } else {
        QuietIn(r1, r', s, p);
        SendsInTrans(r, r1, r', s, p);
      }
    }
  }

  // --- Whole runs --------------------------------------------------------------------

  ghost predicate EmailStep(steps: seq<Step>, q: Path) {
    |q| > 0 && q[0].via == Top && EmailBelow(steps, q, 0)
  }

  /** Every done email step is sent, and the outbox holds nothing but email steps of this manifest. */
  ghost predicate OutboxInv(steps: seq<Step>, r: Run) {
    && (forall q :: q in r.done && EmailStep(steps, q) ==> Sent(r, q))
    && (forall q :: q in r.outbox ==> EmailStep(steps, q))
  }

  lemma {:induction false} HistoryKeepsOutbox(w: World, steps: seq<Step>, jobs: seq<Mode>, r: Run)
    requires WfSteps(steps, 0, {}) && OutboxInv(steps, r)
    ensures OutboxInv(steps, RunHistory(w, steps, jobs, r).0)
    decreases |jobs|
  {
    hide EmailBelow, ExecSteps, WfSteps;
    if |jobs| > 0 {
      var (r1, o) := RunJob(w, jobs[0], steps, r);
      BranchUnique(steps, {});
      StepsSend(w, jobs[0], steps, 0, {}, [], Top, NoLoop, r, NO_FLAGS);
      assert OutboxInv(steps, Persisted(r, r1, o));
      if !Finished(o) {
        HistoryKeepsOutbox(w, steps, jobs[1..], Persisted(r, r1, o));
      }
    }
  }

  /** The ids on the path of an email step are ids of the manifest, and its hops have the shape of a step path. */
  lemma {:induction false} EmailPathShape(steps: seq<Step>, q: Path, d: nat)
    requires EmailBelow(steps, q, d)
    ensures forall j :: d <= j < |q| ==> q[j].id in IdsFrom(steps, 0)
    ensures forall j :: d < j < |q| ==> q[j].via != Top
    decreases steps, 0
  {
    var j: nat :| j < |steps| && q[d].id == steps[j].id && EmailIn(steps[j], q, d);
    EmailInShape(steps[j], q, d);
    IdsOfOne(steps, 0, j);
  }

  lemma {:induction false} EmailInShape(s: Step, q: Path, d: nat)
    requires d < |q| && q[d].id == s.id && EmailIn(s, q, d)
    ensures forall j :: d <= j < |q| ==> q[j].id in StepIds(s)
    ensures forall j :: d < j < |q| ==> q[j].via != Top
    decreases s, 1
  {
    match s.kind
    case Condition(_, thn, els) =>
      if q[d + 1].via.Then? {
        EmailPathShape(thn, q, d + 1);
      } else {
        EmailPathShape(els, q, d + 1);
      }
    case ForEach(_, _, children) => EmailPathShape(children, q, d + 1);
    case _ =>
  }

  lemma IdsOfOne(steps: seq<Step>, k: nat, j: nat)
    requires k <= j < |steps|
    ensures StepIds(steps[j]) <= IdsFrom(steps, k)
    decreases j - k
  {
    if k < j {
      IdsOfOne(steps, k + 1, j);
    }
  }

  /**
   * Exactly once: after any jobs, crashes included, every email step instance marked done was skipped by its
   * `if` or has its row, and no other row of the outbox carries the same idempotency key.
   */
  lemma EmailsExactlyOnce(w: World, steps: seq<Step>, jobs: seq<Mode>, runId: string, q: Path)
    requires WfSteps(steps, 0, {}) && (forall id :: id in IdsFrom(steps, 0) ==> '.' !in id)
    requires EmailStep(steps, q)
    ensures var r := RunHistory(w, steps, jobs, FRESH_RUN).0;
            && (q in r.done ==> q in r.rows && (r.rows[q] == RowSkipped || (r.rows[q] == RowSucceeded && q in r.outbox)))
            && (forall q' :: q' in r.outbox && OutboxKey(runId, q') == OutboxKey(runId, q) ==> q' == q)
  {
    hide EmailBelow, ExecSteps, WfSteps;
    HistoryKeepsOutbox(w, steps, jobs, FRESH_RUN);
    var r := RunHistory(w, steps, jobs, FRESH_RUN).0;
    forall q' | q' in r.outbox && OutboxKey(runId, q') == OutboxKey(runId, q) ensures q' == q {
      EmailPathShape(steps, q, 0);
      EmailPathShape(steps, q', 0);
      OutboxKeyInjective(runId, q, q');
    }
  }
}
