/** What it costs to run a failed step again: where a replay is seen, and where it never ends. */
module Reentry {
  import opened Prelude
  import opened Values
  import opened Workflow
  import opened Executor
  import opened WellFormed
  import opened Soundness
  import opened Parking
  import opened Progress
  import opened Replay
  import opened Reference
  import opened LoopShape
  import opened Durability

  const READY := Segment(p => true, None)

  // --- A failed loop forgets the iterations it finished ------------------------------------------

  lemma OutputLength(entries: seq<Entry>, entries': seq<Entry>, dropped: nat)
    ensures LoopOutput(entries, dropped) == LoopOutput(entries', dropped) ==> |entries| == |entries'|
  {
    var a, b := LoopOutput(entries, dropped), LoopOutput(entries', dropped);
    assert |a.fields["results"].items| == |entries| && |b.fields["results"].items| == |entries'|;
  }

  /**
   * A for_each that failed in an iteration, run again: unless it waits for a refused approval, its output is the failed
   * entry alone. It shows what it showed before exactly when the failed iteration was the first one that the failed
   * execution ran.
   */
  lemma LoopForgets(w: World, m: Mode, m': Mode, hidden: set<Id>, s: Step, earlier: set<Id>, p: Path, loop: Loop, r: Run, b: Run,
                    v: seq<Value>)
    requires s.kind.ForEach? && WfStep(s, earlier) && HidesStep(hidden, s) && SoundStep(s, p, r) && p !in r.done
    requires Rerunnable(hidden, s) && Retraces(m, m') && InstanceOf(p, s.id)
    requires s.kind.over.eval(ViewOf(r, s.kind.over.uses), loop) == Ok(Arr(v))
    requires StartIndex(r, p) <= |Bounded(v, s.kind.limit)|
    requires var (x, o) := ExecStep(w, m, s, p, loop, r);
             o.Aborted? && Intact(hidden, x, b, earlier + StepIds(s), Below(p))
    ensures var (x, o) := ExecStep(w, m, s, p, loop, r);
            var (y, o') := ExecStep(w, m', s, p, loop, b);
            && Replayed(hidden, m', MayRefuse(w, s), r, x, b, y, o, o')
            && (!o'.Parked? ==>
                  && s.id in x.outputs && s.id in y.outputs && p in x.iter && x.iter[p] >= StartIndex(r, p)
                  && y.outputs[s.id] == LoopOutput([EntryFailed(o.code)], |v| - |Bounded(v, s.kind.limit)|)
                  && (x.outputs[s.id] == y.outputs[s.id] <==> x.iter[p] == StartIndex(r, p)))
  {
    hide Replayed, Intact, Alike, Framed, Agree, ExecForEach, ViewOf, SoundStep, WfStep, HidesStep, Rerunnable, StepIds, MayRefuse,
         LoopOutput, Bounded, Ran, WfSteps, SoundSteps, EntryFits;
    var r0, b0 := r.(rows := r.rows[p := RowRunning]), b.(rows := b.rows[p := RowRunning]);
    var (x, o) := ExecForEach(w, m, s.id, s.kind, p, loop, r0);
    var r1 := ExecStep(w, m, s, p, loop, r).0;
    SoundStepAgree(s, p, r, r0) by {
      AgreeSame(r, r0, StepIds(s), Below(p));
    }
    SlotView(r, r0, s.kind.over.uses);
    StepReplay(w, m, m', hidden, s, earlier, p, loop, r, b);
    OwnId(s);
    OwnFailed(hidden, x, r1, b, b0, s.id, earlier + StepIds(s), Below(p));
    WfStepIsNew(s, earlier);
    ForEachReplay(w, m, m', hidden, s, earlier, p, loop, r0, b0);
    var (y, o') := ExecForEach(w, m', s.id, s.kind, p, loop, b0);
    ReplayedEnds(hidden, m', MayRefuse(w, s), r0, x, b0, y, o, o');
    var entries, _, _ := BoundedRecords(w, m, s, earlier, p, loop, r0, v);
    OutputLength(entries, [EntryFailed(o.code)], |v| - |Bounded(v, s.kind.limit)|);
    if |entries| == 1 {
      assert entries == [EntryFailed(o.code)];
    }
  }

  // --- A loop that failed before a park ends the run with fewer results ------------------------------

  /** The steps `[l, d]`: a loop under `on_error: continue`, and a delay behind it. */
  ghost predicate LoopThenDelay(hidden: set<Id>, l: Step, d: Step) {
    && l.kind.ForEach? && l.gate.None? && l.continueOnError && d.gate.None? && d.kind == Delay(true)
    && WfSteps([l, d], 0, {}) && HidesSteps(hidden, [l, d], 0) && Rerunnable(hidden, l)
  }

  lemma LoopThenDelayParts(hidden: set<Id>, l: Step, d: Step)
    requires LoopThenDelay(hidden, l, d)
    ensures WfStep(l, {}) && HidesStep(hidden, l) && d.id !in StepIds(l) && Rerunnable(hidden, l)
    ensures l.kind.ForEach? && l.gate.None? && d.gate.None? && l.continueOnError && d.kind == Delay(true) && l.kind.over.uses == {}
  {
    var steps := [l, d];
    assert WfSteps(steps, 1, {} + StepIds(l)) && WfStep(d, {} + StepIds(l));
    assert HidesStep(hidden, steps[0]);
  }

  function At(s: Step): Path {
    Child([], Top, s.id)
  }

  /** The run right after the loop has failed. */
  function AfterLoop(w: World, m: Mode, l: Step): (Run, Outcome) {
    ExecStep(w, m, l, At(l), NoLoop, FRESH_RUN)
  }

  /** The delay behind the failed loop, when none is pending: it parks the job. */
  lemma DelayParks(w: World, d: Step, p: Path, r: Run)
    requires d.kind == Delay(true) && r.delay != Some(p)
    ensures var (r', o) := ExecStep(w, READY, d, p, NoLoop, r);
            && o == Parked(p, false, [])
            && r' == r.(delay := Some(p), rows := r'.rows)
  {
  }

  lemma DelayPasses(w: World, m: Mode, d: Step, p: Path, r: Run)
    requires d.kind == Delay(true) && (m.Uninterrupted? || (m == READY && r.delay == Some(p)))
    ensures var (r', o) := ExecStep(w, m, d, p, NoLoop, r);
            && o == Completed(false, NO_FLAGS)
            && r'.outputs == r.outputs[d.id := w.delayOutput(p)]
  {
  }

  lemma DelayUnmarked(w: World, m: Mode, hidden: set<Id>, l: Step, d: Step)
    requires LoopThenDelay(hidden, l, d)
    ensures At(l) !in AfterLoop(w, m, l).0.done && At(d) !in AfterLoop(w, m, l).0.done
  {
    hide LoopThenDelay, ExecStep;
    LoopThenDelayParts(hidden, l, d);
    StepFramed(w, m, l, At(l), NoLoop, FRESH_RUN);
    assert !(At(l) <= At(d)) by {
      assert At(l)[0] != At(d)[0];
    }
  }

  /** The first job: the loop fails, its failure is swallowed, and the delay parks the job. */
  lemma FirstJob(w: World, hidden: set<Id>, l: Step, d: Step)
    requires LoopThenDelay(hidden, l, d)
    requires var (x, o) := AfterLoop(w, READY, l);
             o.Aborted? && x.delay.None?
    ensures var x := AfterLoop(w, READY, l).0;
            var (r1, o1) := RunJob(w, READY, [l, d], FRESH_RUN);
            && o1 == Parked(At(d), false, [l])
            && r1 == x.(runFailed := true, delay := Some(At(d)), rows := r1.rows)
  {
    hide ExecStep, WfSteps, HidesSteps, Rerunnable, MayRefuse;
    var (x, o) := AfterLoop(w, READY, l);
    DelayUnmarked(w, READY, hidden, l, d);
    DelayParks(w, d, At(d), Swallow(x, Top));
    var steps, acc := [l, d], SwallowFlags(NO_FLAGS, o.code, l);
    assert ExecSteps(w, READY, steps, 1, [], Top, NoLoop, Swallow(x, Top), acc).1 == Parked(At(d), false, [l]);
  }

  /** The second job: the loop fails again, and the delay is over. */
  lemma SecondJob(w: World, hidden: set<Id>, l: Step, d: Step, r1: Run, y: Run, code: string)
    requires LoopThenDelay(hidden, l, d) && r1.delay == Some(At(d)) && At(l) !in r1.done && At(d) !in r1.done
    requires ExecStep(w, READY, l, At(l), NoLoop, r1) == (y, Aborted(code)) && Alike(hidden, r1, y)
    requires y.delay == r1.delay && l.id in y.outputs
    ensures var (r2, o2) := RunJob(w, READY, [l, d], r1);
            && o2.Completed? && l.id in r2.outputs && r2.outputs[l.id] == y.outputs[l.id]
  {
    hide ExecStep, WfSteps, HidesSteps, Rerunnable, MayRefuse, Alike, LoopThenDelay;
    LoopThenDelayParts(hidden, l, d);
    SameCursors(hidden, r1, y);
    DelayPasses(w, READY, d, At(d), Swallow(y, Top));
    var steps, acc := [l, d], SwallowFlags(NO_FLAGS, code, l);
    assert ExecSteps(w, READY, steps, 1, [], Top, NoLoop, Swallow(y, Top), acc).1.Completed?;
  }

  lemma PlainLoop(w: World, hidden: set<Id>, l: Step, d: Step)
    requires LoopThenDelay(hidden, l, d)
    requires var (x, o) := AfterLoop(w, READY, l);
             o.Aborted? && l.id in x.outputs
    ensures var x := AfterLoop(w, READY, l).0;
            var g := Walk(w, [l, d]).0;
            l.id in g.outputs && g.outputs[l.id] == x.outputs[l.id]
  {
    hide ExecStep, WfSteps, HidesSteps, LoopThenDelay, WalkSteps;
    LoopThenDelayParts(hidden, l, d);
    var steps := [l, d];
    StepFinish(w, READY, l, At(l), NoLoop, FRESH_RUN);
    var (x, o) := AfterLoop(w, READY, l);
    DelayUnmarked(w, READY, hidden, l, d);
    DelayPasses(w, Uninterrupted, d, At(d), Swallow(x, Top));
    var acc := SwallowFlags(NO_FLAGS, o.code, l);
    assert ExecSteps(w, Uninterrupted, steps, 1, [], Top, NoLoop, Swallow(x, Top), acc).1.Completed?;
    FreshIsSound(steps);
    assert WfSteps(steps, 0, {}) by {
      StepsWf(hidden, l, d);
    }
    StepsPlain(w, steps, 0, {}, [], Top, NoLoop, FRESH_RUN, NO_FLAGS, false, Null);
  }

  lemma StepsWf(hidden: set<Id>, l: Step, d: Step)
    requires LoopThenDelay(hidden, l, d)
    ensures WfSteps([l, d], 0, {})
  {
  }

  lemma SameIntact(hidden: set<Id>, r: Run, r': Run, ids: set<Id>, g: Region)
    requires r'.outputs == r.outputs && r'.status == r.status && r'.done == r.done && r'.iter == r.iter
    ensures Intact(hidden, r, r', ids, g)
  {
  }

  lemma FreshStep(l: Step)
    ensures SoundStep(l, At(l), FRESH_RUN) && StartIndex(FRESH_RUN, At(l)) == 0 && ViewOf(FRESH_RUN, {}) == map[]
  {
    UntouchedSound([l], 0, [], Top, FRESH_RUN);
  }

  /**
   * The run of `[l, d]` whose loop fails in the first job and whose delay is then answered: it completes with the
   * failed entry alone in the output of the loop, while the plain walk keeps an entry for every iteration before it.
   * The two agree exactly when the loop failed in its first iteration. So hiding the loops that are run again is
   * needed for `ParkingIsInvisible`.
   */
  lemma LateLoopLosesResults(w: World, hidden: set<Id>, l: Step, d: Step, v: seq<Value>)
    requires LoopThenDelay(hidden, l, d) && l.kind.over.eval(map[], NoLoop) == Ok(Arr(v))
    requires var (x, o) := AfterLoop(w, READY, l);
             o.Aborted? && x.delay.None?
    ensures var (x, o) := AfterLoop(w, READY, l);
            var (r, end) := RunHistory(w, [l, d], [READY, READY], FRESH_RUN);
            var g := Walk(w, [l, d]).0;
            && end.Some? && end.value.Completed?
            && At(l) in x.iter && l.id in r.outputs && l.id in g.outputs
            && r.outputs[l.id] == LoopOutput([EntryFailed(o.code)], |v| - |Bounded(v, l.kind.limit)|)
            && (r.outputs[l.id] == g.outputs[l.id] <==> x.iter[At(l)] == 0)
  {
    hide ExecStep, ExecSteps, RunJob, Walk, LoopThenDelay, LoopOutput, Bounded, Intact, Alike, WfStep, HidesStep, Rerunnable, SoundStep, ViewOf;
    LoopThenDelayParts(hidden, l, d);
    var (x, o) := AfterLoop(w, READY, l);
    var r1 := RunJob(w, READY, [l, d], FRESH_RUN).0;
    FirstJob(w, hidden, l, d);
    DelayUnmarked(w, READY, hidden, l, d);
    SameIntact(hidden, x, r1, {} + StepIds(l), Below(At(l)));
    FreshStep(l);
    LoopForgets(w, READY, READY, hidden, l, {}, At(l), NoLoop, FRESH_RUN, r1, v);
    var y := ExecStep(w, READY, l, At(l), NoLoop, r1).0;
    SecondJob(w, hidden, l, d, r1, y, o.code);
    PlainLoop(w, hidden, l, d);
    assert [READY, READY][1..] == [READY];
    assert RunHistory(w, [l, d], [READY], r1).1.Some?;
  }

  /** Two items; the child succeeds on the first and fails on the second. */
  const FLAKY := Step("c", None, false, Leaf(Action({}, (p, view, loop: Loop) =>
    if loop.InLoop? && loop.index == 0 then LeafOk(Str("x")) else LeafErr("boom", None))))

  const FLAKY_LOOP := Step("l", None, true, ForEach(Expr({}, (view, loop) => Ok(Arr([Null, Null]))), None, [FLAKY]))

  const PAUSE := Step("d", None, false, Delay(true))

  lemma FlakyRuns(w: World, q: Path, i: nat, r: Run)
    ensures var (r', o) := ExecStep(w, READY, FLAKY, q, InLoop(Null, i, NoLoop), r);
            && o == (if i == 0 then Completed(false, NO_FLAGS) else Aborted("boom"))
            && r'.iter == r.iter && r'.delay == r.delay && r'.done == r.done
  {
    hide RecordOutcome, ViewOf;
    var r0, loop := r.(rows := r.rows[q := RowRunning]), InLoop(Null, i, NoLoop);
    var (x, o) := ExecLeaf(FLAKY.kind.act, "c", q, loop, r0);
    assert x == if i == 0 then SetOutput(r0, "c", Str("x")) else r0;
    assert ExecBody(w, READY, FLAKY, q, loop, r0) == (x, o);
    RecordKeeps(x, "c", q, o);
  }

  /** The step's row and status do not touch cursors, what is done, or what is pending. */
  lemma RecordKeeps(r: Run, id: Id, p: Path, o: Outcome)
    ensures var x := RecordOutcome(r, id, p, o);
            x.iter == r.iter && x.done == r.done && x.delay == r.delay && x.approval == r.approval
  {
  }

  lemma FlakyIteration(w: World, p: Path, i: nat, r: Run)
    requires Child(p, Item(i), "c") !in r.done
    ensures var (r', o) := ExecSteps(w, READY, [FLAKY], 0, p, Item(i), InLoop(Null, i, NoLoop), r, NO_FLAGS);
            && (i == 0 ==> o.Completed?) && (i > 0 ==> o == Aborted("boom"))
            && r'.iter == r.iter && r'.delay == r.delay && (forall q :: q in r'.done && q !in r.done ==> q == Child(p, Item(i), "c"))
  {
    hide ExecStep;
    var q := Child(p, Item(i), "c");
    FlakyRuns(w, q, i, r);
    var (r1, o) := ExecStep(w, READY, FLAKY, q, InLoop(Null, i, NoLoop), r);
    if i == 0 {
      assert ExecSteps(w, READY, [FLAKY], 1, p, Item(i), InLoop(Null, i, NoLoop), MarkDone(r1, q), NO_FLAGS.(anySuccess := true)).1.Completed?;
    }
  }

  lemma FlakyFails(w: World)
    ensures var (x, o) := AfterLoop(w, READY, FLAKY_LOOP);
            && o == Aborted("boom") && x.delay.None?
            && At(FLAKY_LOOP) in x.iter && x.iter[At(FLAKY_LOOP)] == 1
  {
    hide ExecSteps, LoopOutput, LoopStep, VerdictOf;
    var p, items := At(FLAKY_LOOP), [Null, Null];
    assert Bounded(items, None) == items;
    var r0 := FRESH_RUN.(rows := FRESH_RUN.rows[p := RowRunning]);
    var a := r0.(iter := r0.iter[p := 0]);
    FlakyIteration(w, p, 0, a);
    var (b, ob) := ExecSteps(w, READY, [FLAKY], 0, p, Item(0), InLoop(items[0], 0, NoLoop), a, NO_FLAGS);
    var acc := LoopStep(LOOP_START, VerdictOf([FLAKY], 1, p, 0, b), [FLAKY], ob.flags);
    var c := b.(iter := b.iter - {p});
    var e := c.(iter := c.iter[p := 1]);
    assert Child(p, Item(1), "c") != Child(p, Item(0), "c") by {
      assert Child(p, Item(1), "c")[|p|] != Child(p, Item(0), "c")[|p|];
    }
    FlakyIteration(w, p, 1, e);
    var (f, of) := ExecSteps(w, READY, [FLAKY], 0, p, Item(1), InLoop(items[1], 1, NoLoop), e, NO_FLAGS);
    var (x, _, o) := ExecItems(w, READY, [FLAKY], items, 1, "l", 0, p, NoLoop, c, acc);
    assert o == Aborted("boom") && x.iter == e.iter && x.delay.None?;
    assert ExecItems(w, READY, [FLAKY], items, 0, "l", 0, p, NoLoop, r0, LOOP_START).2 == o;
    assert ExecForEach(w, READY, "l", FLAKY_LOOP.kind, p, NoLoop, r0) == (x, o);
    assert ExecBody(w, READY, FLAKY_LOOP, p, NoLoop, r0) == (x, o);
  }

  /** One run that shows it: after a delay nobody else would notice, the first result `x` is gone. */
  lemma FlakyResultIsLost(w: World)
    ensures LoopThenDelay({"l"}, FLAKY_LOOP, PAUSE)
    ensures var (r, end) := RunHistory(w, [FLAKY_LOOP, PAUSE], [READY, READY], FRESH_RUN);
            var g := Walk(w, [FLAKY_LOOP, PAUSE]).0;
            && end.Some? && end.value.Completed?
            && "l" in r.outputs && r.outputs["l"] == LoopOutput([EntryFailed("boom")], 0)
            && "l" in g.outputs && r.outputs["l"] != g.outputs["l"]
  {
    hide RunHistory, Walk, LoopOutput, AfterLoop;
    FlakyFits();
    FlakyFails(w);
    assert Bounded([Null, Null], None) == [Null, Null];
    LateLoopLosesResults(w, {"l"}, FLAKY_LOOP, PAUSE, [Null, Null]);
  }

  lemma FlakyFits()
    ensures LoopThenDelay({"l"}, FLAKY_LOOP, PAUSE)
  {
    assert StepIds(FLAKY) == {"c"} && Uses(FLAKY) == {};
    assert WfSteps([FLAKY], 1, {} + {"l"} + StepIds(FLAKY));
    assert WfStep([FLAKY][0], {} + {"l"});
    assert WfSteps([FLAKY], 0, {} + {"l"});
    assert IdsFrom([FLAKY], 1) == {};
    assert IdsFrom([FLAKY], 0) == {"c"};
    var steps := [FLAKY_LOOP, PAUSE];
    assert WfStep(FLAKY_LOOP, {});
    assert StepIds(FLAKY_LOOP) == {"l", "c"};
    assert WfSteps(steps, 2, {} + StepIds(FLAKY_LOOP) + StepIds(PAUSE)) && WfSteps(steps, 1, {} + StepIds(FLAKY_LOOP));
    assert HidesSteps({"l"}, [FLAKY], 1) && HidesSteps({"l"}, [FLAKY], 0);
    assert Heads([FLAKY], 0) == {"c"};
    assert HidesSteps({"l"}, steps, 2) && HidesSteps({"l"}, steps, 1);
    assert RerunnableSteps({"l"}, [FLAKY], 1) && RerunnableSteps({"l"}, [FLAKY], 0);
  }
}
