/**
 * A condition in a loop whose own step reads its status: run again, it is seen to have failed, and ends otherwise than in
 * the plain walk. This is what the condition clause of `Rerunnable` excludes.
 */
module SelfReader {
  import opened Prelude
  import opened Values
  import opened Workflow
  import opened Executor
  import opened WellFormed
  import opened Parking
  import opened Replay
  import opened Resume
  import opened Reference
  import opened Durability
  import opened Reentry

  /** A step that fails as long as the condition `c` around it counts as succeeded. */
  const NOSY := Step("x", None, false, Leaf(Action({"c"}, (p, view: View, loop) =>
    if "c" in view && view["c"].status == Succeeded then LeafErr("boom", None) else LeafOk(Null))))

  const SELF_READER := Step("c", None, true, Condition(Expr({}, (view, loop) => Ok(Bool(true))), [NOSY], []))

  const READERS := [SELF_READER, PAUSE]

  /** Two iterations, each with a pause behind the condition. */
  const READER_LOOP := Step("l", None, false, ForEach(Expr({}, (view, loop) => Ok(Arr([Null, Null]))), None, READERS))

  ghost predicate Runs(m: Mode) {
    m == READY || m.Uninterrupted?
  }

  /** What a later step sees of the condition is that it succeeded. */
  predicate CountsAsSucceeded(r: Run) {
    "c" in r.outputs && ("c" !in r.status || r.status["c"] == Succeeded)
  }

  /** The condition is recorded alike in both states, and so are the cursors and the pending delay. */
  predicate SameReader(r: Run, r': Run) {
    && ("c" in r.outputs <==> "c" in r'.outputs) && ("c" in r.status <==> "c" in r'.status)
    && ("c" in r.status ==> r.status["c"] == r'.status["c"]) && r'.iter == r.iter && r'.delay == r.delay
  }

  lemma NosyView(r: Run)
    ensures CountsAsSucceeded(r) <==> "c" in ViewOf(r, {"c"}) && ViewOf(r, {"c"})["c"].status == Succeeded
  {
  }

  lemma NosyLeaf(p: Path, loop: Loop, r: Run)
    ensures ExecLeaf(NOSY.kind.act, "x", p, loop, r) ==
            if CountsAsSucceeded(r) then (r, Aborted("boom")) else (SetOutput(r, "x", Null), Completed(false, NO_FLAGS))
  {
    NosyView(r);
    hide ViewOf, CountsAsSucceeded;
  }

  lemma NosyRuns(w: World, m: Mode, p: Path, loop: Loop, r: Run)
    requires Runs(m)
    ensures var (r', o) := ExecStep(w, m, NOSY, p, loop, r);
            && SameReader(r, r') && r'.done == r.done
            && if CountsAsSucceeded(r) then o == Aborted("boom") else o == Completed(false, NO_FLAGS)
  {
    hide ViewOf, ExecLeaf, ExecBody, CountsAsSucceeded, RecordOutcome;
    var r0 := r.(rows := r.rows[p := RowRunning]);
    NosyBody(w, m, p, loop, r0);
    var (x, o) := ExecBody(w, m, NOSY, p, loop, r0);
    NosyRecord(x, p, o);
    assert CountsAsSucceeded(r0) == CountsAsSucceeded(r) by {
      SameCount(r, r0);
    }
  }

  lemma SameCount(r: Run, r0: Run)
    requires r0 == r.(rows := r0.rows)
    ensures CountsAsSucceeded(r0) == CountsAsSucceeded(r)
  {
  }

  lemma NosyBody(w: World, m: Mode, p: Path, loop: Loop, r: Run)
    ensures var (x, o) := ExecBody(w, m, NOSY, p, loop, r);
            && SameReader(r, x) && x.done == r.done
            && if CountsAsSucceeded(r) then o == Aborted("boom") else o == Completed(false, NO_FLAGS)
  {
    hide ViewOf, ExecLeaf, CountsAsSucceeded;
    NosyLeaf(p, loop, r);
  }

  lemma NosyRecord(x: Run, p: Path, o: Outcome)
    ensures SameReader(x, RecordOutcome(x, "x", p, o)) && RecordOutcome(x, "x", p, o).done == x.done
  {
  }

  lemma NosyEnds(w: World, m: Mode, q: Path, loop: Loop, r: Run)
    requires Runs(m) && Child(q, Then, "x") !in r.done
    ensures var (r', o) := ExecSteps(w, m, [NOSY], 0, q, Then, loop, r, NO_FLAGS);
            && SameReader(r, r')
            && if CountsAsSucceeded(r) then o == Aborted("boom") && r'.done == r.done
               else o.Completed? && r'.done == r.done + {Child(q, Then, "x")}
  {
    hide ExecStep, CountsAsSucceeded;
    var p := Child(q, Then, "x");
    NosyRuns(w, m, p, loop, r);
    var (r1, o) := ExecStep(w, m, NOSY, p, loop, r);
    if o.Completed? {
      assert ExecSteps(w, m, [NOSY], 1, q, Then, loop, MarkDone(r1, p), NO_FLAGS.(anySuccess := true)).1.Completed?;
    }
  }

  lemma ReaderBody(w: World, m: Mode, q: Path, loop: Loop, r: Run)
    requires Runs(m) && Child(q, Then, "x") !in r.done
    ensures var (x, o) := ExecBody(w, m, SELF_READER, q, loop, r);
            && x.iter == r.iter && x.delay == r.delay && "c" in x.outputs
            && if CountsAsSucceeded(r) then o == Aborted("boom") && x.done == r.done
               else o.Completed? && !o.skipped && x.done == r.done + {Child(q, Then, "x")}
  {
    hide ExecSteps, BranchOutput, CountsAsSucceeded, ViewOf;
    NosyEnds(w, m, q, loop, r);
    assert CountsAsSucceeded(r) ==> "c" in r.outputs by {
      Counted(r);
    }
    assert ExecBody(w, m, SELF_READER, q, loop, r) == ExecCondition(w, m, "c", SELF_READER.kind, q, loop, r);
  }

  lemma Counted(r: Run)
    ensures CountsAsSucceeded(r) ==> "c" in r.outputs
  {
  }

  lemma ReaderEnds(w: World, m: Mode, q: Path, loop: Loop, r: Run)
    requires Runs(m) && Child(q, Then, "x") !in r.done
    ensures var (r', o) := ExecStep(w, m, SELF_READER, q, loop, r);
            && r'.iter == r.iter && r'.delay == r.delay && "c" in r'.outputs && "c" in r'.status
            && if CountsAsSucceeded(r) then o == Aborted("boom") && r'.status["c"] == Failed && r'.done == r.done
               else o.Completed? && r'.status["c"] == Succeeded && r'.done == r.done + {Child(q, Then, "x")}
  {
    hide ExecBody, CountsAsSucceeded, RecordOutcome;
    var r0 := r.(rows := r.rows[q := RowRunning]);
    SameCount(r, r0);
    ReaderBody(w, m, q, loop, r0);
    var (x, o) := ExecBody(w, m, SELF_READER, q, loop, r0);
    ReaderRecord(x, q, o);
  }

  lemma ReaderRecord(x: Run, q: Path, o: Outcome)
    requires o == Aborted("boom") || (o.Completed? && !o.skipped)
    ensures var r' := RecordOutcome(x, "c", q, o);
            && r'.iter == x.iter && r'.delay == x.delay && r'.done == x.done && r'.outputs == x.outputs
            && "c" in r'.status && r'.status["c"] == if o.Aborted? then Failed else Succeeded
  {
  }

  lemma PauseEnds(w: World, m: Mode, q: Path, loop: Loop, r: Run)
    requires Runs(m)
    ensures var (r', o) := ExecStep(w, m, PAUSE, q, loop, r);
            && r'.done == r.done && SameReader(r, r'.(delay := r.delay))
            && if m.Segment? && r.delay != Some(q) then o == Parked(q, false, []) && r'.delay == Some(q)
               else o == Completed(false, NO_FLAGS) && r'.delay.None? && "d" in r'.status && r'.status["d"] == Succeeded
  {
    var r0 := r.(rows := r.rows[q := RowRunning]);
    assert ExecBody(w, m, PAUSE, q, loop, r0) == ExecDelay(w, m, true, "d", q, r0);
  }

  /** The paths of one iteration. */
  function ReaderAt(p: Path, i: nat): Path {
    Child(p, Item(i), "c")
  }

  function PauseAt(p: Path, i: nat): Path {
    Child(p, Item(i), "d")
  }

  lemma ItemPathsApart(p: Path, i: nat, j: nat)
    ensures ReaderAt(p, i) != PauseAt(p, j) && Child(ReaderAt(p, i), Then, "x") != PauseAt(p, j)
    ensures Child(ReaderAt(p, i), Then, "x") != ReaderAt(p, j)
    ensures i != j ==> ReaderAt(p, i) != ReaderAt(p, j) && PauseAt(p, i) != PauseAt(p, j) &&
                       Child(ReaderAt(p, i), Then, "x") != Child(ReaderAt(p, j), Then, "x")
  {
    assert ReaderAt(p, i)[|p|] == Hop(Item(i), "c") && PauseAt(p, j)[|p|] == Hop(Item(j), "d");
    assert ReaderAt(p, j)[|p|] == Hop(Item(j), "c") && PauseAt(p, i)[|p|] == Hop(Item(i), "d");
    assert Child(ReaderAt(p, i), Then, "x")[|p|] == Hop(Item(i), "c") && Child(ReaderAt(p, j), Then, "x")[|p|] == Hop(Item(j), "c");
  }

  /** One iteration from its beginning. */
  lemma IterationEnds(w: World, m: Mode, p: Path, i: nat, loop: Loop, r: Run)
    requires Runs(m) && Child(ReaderAt(p, i), Then, "x") !in r.done && ReaderAt(p, i) !in r.done && PauseAt(p, i) !in r.done
    ensures var (r', o) := ExecSteps(w, m, READERS, 0, p, Item(i), loop, r, NO_FLAGS);
            var fails := CountsAsSucceeded(r);
            var ran := if fails then r.done else r.done + {Child(ReaderAt(p, i), Then, "x"), ReaderAt(p, i)};
            && r'.iter == r.iter && "c" in r'.outputs && "c" in r'.status && r'.status["c"] == (if fails then Failed else Succeeded)
            && if m.Segment? && r.delay != Some(PauseAt(p, i)) then
                 o.Parked? && r'.done == ran && r'.delay == Some(PauseAt(p, i))
               else
                 o.Completed? && r'.done == ran + {PauseAt(p, i)} && r'.delay.None? && "d" in r'.status && r'.status["d"] == Succeeded
  {
    hide ExecStep, CountsAsSucceeded;
    ItemPathsApart(p, i, i);
    ReaderEnds(w, m, ReaderAt(p, i), loop, r);
    var (r1, o1) := ExecStep(w, m, SELF_READER, ReaderAt(p, i), loop, r);
    var r2 := if o1.Completed? then MarkDone(r1, ReaderAt(p, i)) else Swallow(r1, Item(i));
    var acc := if o1.Completed? then NO_FLAGS.(anySuccess := true) else SwallowFlags(NO_FLAGS, "boom", SELF_READER);
    assert ExecSteps(w, m, READERS, 0, p, Item(i), loop, r, NO_FLAGS) == ExecSteps(w, m, READERS, 1, p, Item(i), loop, r2, acc);
    PauseTurn(w, m, p, i, loop, r2, acc);
  }

  lemma PauseTurn(w: World, m: Mode, p: Path, i: nat, loop: Loop, r: Run, acc: Flags)
    requires Runs(m) && PauseAt(p, i) !in r.done
    ensures var (r', o) := ExecSteps(w, m, READERS, 1, p, Item(i), loop, r, acc);
            && SameReader(r, r'.(delay := r.delay))
            && if m.Segment? && r.delay != Some(PauseAt(p, i)) then
                 o.Parked? && r'.done == r.done && r'.delay == Some(PauseAt(p, i))
               else
                 o.Completed? && r'.done == r.done + {PauseAt(p, i)} && r'.delay.None? && "d" in r'.status && r'.status["d"] == Succeeded
  {
    hide ExecStep;
    PauseEnds(w, m, PauseAt(p, i), loop, r);
    var (r1, o) := ExecStep(w, m, PAUSE, PauseAt(p, i), loop, r);
    if o.Completed? {
      var acc1 := acc.(anySuccess := true);
      assert ExecSteps(w, m, READERS, 2, p, Item(i), loop, MarkDone(r1, PauseAt(p, i)), acc1).1.Completed?;
    }
  }

  /** One iteration whose condition is done already. */
  lemma IterationResumes(w: World, m: Mode, p: Path, i: nat, loop: Loop, r: Run)
    requires ReaderAt(p, i) in r.done
    ensures ExecSteps(w, m, READERS, 0, p, Item(i), loop, r, NO_FLAGS) == ExecSteps(w, m, READERS, 1, p, Item(i), loop, r, NO_FLAGS)
  {
  }

  lemma PauseCounts(p: Path, i: nat, r: Run)
    requires PauseAt(p, i) in r.done && "d" in r.status && r.status["d"] == Succeeded
    ensures VerdictOf(READERS, 2, p, i, r).succeeded
  {
  }

  // --- The jobs of the run -------------------------------------------------------------------------

  const ITEMS := [Null, Null]

  const HERE := At(READER_LOOP)

  function Items(w: World, m: Mode, i: nat, r: Run, acc: LoopAcc): (Run, LoopAcc, Outcome) {
    ExecItems(w, m, READERS, ITEMS, i, "l", 0, HERE, NoLoop, r, acc)
  }

  function Inner(w: World, m: Mode, i: nat, r: Run): (Run, Outcome)
    requires i < 2
  {
    ExecSteps(w, m, READERS, 0, HERE, Item(i), InLoop(ITEMS[i], i, NoLoop), r.(iter := r.iter[HERE := i]), NO_FLAGS)
  }

  /** One turn of the loop over the items. */
  lemma ItemTurn(w: World, m: Mode, i: nat, r: Run, acc: LoopAcc) returns (acc1: LoopAcc)
    requires i < 2
    ensures var (r1, o) := Inner(w, m, i, r);
            && (o.Parked? ==> Items(w, m, i, r, acc) == (r1, acc, o))
            && (o.Completed? && PauseAt(HERE, i) in r1.done && "d" in r1.status && r1.status["d"] == Succeeded ==>
                  acc1.anySucceeded && Items(w, m, i, r, acc) == Items(w, m, i + 1, r1.(iter := r1.iter - {HERE}), acc1))
  {
    hide ExecSteps, VerdictOf;
    var (r1, o) := Inner(w, m, i, r);
    acc1 := acc;
    if o.Completed? {
      acc1 := LoopStep(acc, VerdictOf(READERS, 2, HERE, i, r1), READERS, o.flags);
      if PauseAt(HERE, i) in r1.done && "d" in r1.status && r1.status["d"] == Succeeded {
        PauseCounts(HERE, i, r1);
      }
    }
  }

  /** A job of the whole run is the loop over the items, from the saved cursor. */
  lemma LoopJob(w: World, m: Mode, r: Run)
    requires Runs(m) && HERE !in r.done
    ensures var r0 := r.(rows := r.rows[HERE := RowRunning]);
            var (x, acc, o) := Items(w, m, StartIndex(r, HERE), r0, LOOP_START);
            var (r', o') := RunJob(w, m, [READER_LOOP], r);
            && (o.Parked? ==> o'.Parked? && r' == x.(rows := r'.rows))
            && (o.Completed? && acc.anySucceeded ==>
                  o'.Completed? && r'.done == x.done + {HERE} && r'.status == x.status["l" := Succeeded])
  {
    hide ExecItems, LoopOutput;
    assert Bounded(ITEMS, None) == ITEMS;
    var r0 := r.(rows := r.rows[HERE := RowRunning]);
    var (x, acc, o) := Items(w, m, StartIndex(r, HERE), r0, LOOP_START);
    LoopBody(w, m, r0);
    var (r1, o1) := ExecStep(w, m, READER_LOOP, HERE, NoLoop, r);
    if o.Completed? && acc.anySucceeded {
      var acc1 := NO_FLAGS.(anySuccess := true);
      assert ExecSteps(w, m, [READER_LOOP], 1, [], Top, NoLoop, MarkDone(r1, HERE), acc1).1.Completed?;
    }
  }

  lemma LoopBody(w: World, m: Mode, r: Run)
    ensures var (x, acc, o) := Items(w, m, StartIndex(r, HERE), r, LOOP_START);
            ExecBody(w, m, READER_LOOP, HERE, NoLoop, r) == if o.Completed? then FinishLoop(x, "l", 0, acc) else (x, o)
  {
    hide ExecItems, LoopOutput;
    assert Bounded(ITEMS, None) == ITEMS;
  }

  function C(i: nat): Path {
    ReaderAt(HERE, i)
  }

  function D(i: nat): Path {
    PauseAt(HERE, i)
  }

  function X(i: nat): Path {
    Child(C(i), Then, "x")
  }

  /** The run is parked at the pause of iteration `i`. */
  ghost predicate ParkedAt(r: Run, i: nat, done: set<Path>, status: StepStatus) {
    && HERE in r.iter && r.iter[HERE] == i && r.done == done && r.delay == Some(D(i))
    && "c" in r.outputs && "c" in r.status && r.status["c"] == status
  }

  lemma PathsApart()
    ensures HERE !in {C(0), C(1), D(0), D(1), X(0), X(1)}
    ensures |{C(0), C(1), D(0), D(1), X(0), X(1)}| == 6
  {
    ItemPathsApart(HERE, 0, 0);
    ItemPathsApart(HERE, 0, 1);
    ItemPathsApart(HERE, 1, 0);
    ItemPathsApart(HERE, 1, 1);
    assert |HERE| == 1 && |C(0)| == |C(1)| == |D(0)| == |D(1)| == 2 && |X(0)| == |X(1)| == 3;
    var paths := [C(0), C(1), D(0), D(1), X(0), X(1)];
    assert forall i, j :: 0 <= i < j < 6 ==> paths[i] != paths[j];
  }

  lemma JobOne(w: World)
    ensures var (r, o) := RunJob(w, READY, [READER_LOOP], FRESH_RUN);
            o.Parked? && ParkedAt(r, 0, {X(0), C(0)}, Succeeded)
  {
    hide Items, RunJob, ExecSteps, C, D, X;
    var r0 := FRESH_RUN.(rows := FRESH_RUN.rows[HERE := RowRunning]);
    LoopJob(w, READY, FRESH_RUN);
    IterationEnds(w, READY, HERE, 0, InLoop(Null, 0, NoLoop), r0.(iter := r0.iter[HERE := 0]));
    var _ := ItemTurn(w, READY, 0, r0, LOOP_START);
    PartsOf(0);
  }

  lemma PartsOf(i: nat)
    ensures C(i) == ReaderAt(HERE, i) && D(i) == PauseAt(HERE, i) && X(i) == Child(ReaderAt(HERE, i), Then, "x")
  {
  }

  /** The second job passes the pause of the first iteration. */
  lemma SecondStart(w: World, r: Run) returns (c: Run, acc: LoopAcc)
    requires ParkedAt(r, 0, {X(0), C(0)}, Succeeded)
    ensures Items(w, READY, 0, r, LOOP_START) == Items(w, READY, 1, c, acc)
    ensures c.done == {X(0), C(0), D(0)} && c.delay.None? && "c" in c.outputs && "c" in c.status && c.status["c"] == Succeeded
  {
    hide Items, ExecSteps, C, D, X;
    PathsApart();
    PartsOf(0);
    var a := r.(iter := r.iter[HERE := 0]);
    IterationResumes(w, READY, HERE, 0, InLoop(Null, 0, NoLoop), a);
    PauseTurn(w, READY, HERE, 0, InLoop(Null, 0, NoLoop), a, NO_FLAGS);
    acc := ItemTurn(w, READY, 0, r, LOOP_START);
    var b := Inner(w, READY, 0, r).0;
    c := b.(iter := b.iter - {HERE});
  }

  lemma JobTwo(w: World, r: Run)
    requires ParkedAt(r, 0, {X(0), C(0)}, Succeeded)
    ensures var (r', o) := RunJob(w, READY, [READER_LOOP], r);
            o.Parked? && ParkedAt(r', 1, {X(0), C(0), D(0)}, Failed)
  {
    hide Items, RunJob, ExecSteps, C, D, X;
    PathsApart();
    PartsOf(1);
    LoopJob(w, READY, r);
    var c, acc1 := SecondStart(w, r.(rows := r.rows[HERE := RowRunning]));
    IterationEnds(w, READY, HERE, 1, InLoop(Null, 1, NoLoop), c.(iter := c.iter[HERE := 1]));
    var _ := ItemTurn(w, READY, 1, c, acc1);
  }

  lemma JobThree(w: World, r: Run)
    requires ParkedAt(r, 1, {X(0), C(0), D(0)}, Failed)
    ensures var (r', o) := RunJob(w, READY, [READER_LOOP], r);
            o.Completed? && "c" in r'.status && r'.status["c"] == Succeeded && C(1) in r'.done
  {
    hide Items, RunJob, ExecSteps, C, D, X;
    PathsApart();
    PartsOf(1);
    var r0 := r.(rows := r.rows[HERE := RowRunning]);
    LoopJob(w, READY, r);
    IterationEnds(w, READY, HERE, 1, InLoop(Null, 1, NoLoop), r0.(iter := r0.iter[HERE := 1]));
    var acc1 := ItemTurn(w, READY, 1, r0, LOOP_START);
    ItemsOver(w, READY, Inner(w, READY, 1, r0).0, acc1);
  }

  lemma ItemsOver(w: World, m: Mode, r: Run, acc: LoopAcc)
    ensures var c := r.(iter := r.iter - {HERE}); Items(w, m, 2, c, acc) == (c, acc, Completed(false, NO_FLAGS))
  {
  }

  /** The first iteration of the uninterrupted walk. */
  lemma StraightStart(w: World, r: Run) returns (c: Run, acc: LoopAcc)
    requires r == FRESH_RUN.(rows := r.rows)
    ensures Items(w, Uninterrupted, 0, r, LOOP_START) == Items(w, Uninterrupted, 1, c, acc)
    ensures c.done == {X(0), C(0), D(0)} && "c" in c.outputs && "c" in c.status && c.status["c"] == Succeeded
  {
    hide Items, ExecSteps, C, D, X;
    PartsOf(0);
    IterationEnds(w, Uninterrupted, HERE, 0, InLoop(Null, 0, NoLoop), r.(iter := r.iter[HERE := 0]));
    acc := ItemTurn(w, Uninterrupted, 0, r, LOOP_START);
    var b := Inner(w, Uninterrupted, 0, r).0;
    c := b.(iter := b.iter - {HERE});
  }

  /** The uninterrupted walk: the condition succeeds in the first iteration and fails in the second. */
  lemma StraightRun(w: World)
    ensures var (r, o) := RunJob(w, Uninterrupted, [READER_LOOP], FRESH_RUN);
            o.Completed? && "c" in r.status && r.status["c"] == Failed && C(1) !in r.done
  {
    hide Items, RunJob, ExecSteps, C, D, X;
    PathsApart();
    PartsOf(1);
    LoopJob(w, Uninterrupted, FRESH_RUN);
    var c, acc1 := StraightStart(w, FRESH_RUN.(rows := FRESH_RUN.rows[HERE := RowRunning]));
    IterationEnds(w, Uninterrupted, HERE, 1, InLoop(Null, 1, NoLoop), c.(iter := c.iter[HERE := 1]));
    var acc2 := ItemTurn(w, Uninterrupted, 1, c, acc1);
    ItemsOver(w, Uninterrupted, Inner(w, Uninterrupted, 1, c).0, acc2);
  }

  lemma ReaderFits()
    ensures WfSteps([READER_LOOP], 0, {}) && HidesSteps({"l"}, [READER_LOOP], 0)
  {
    var c, d := SELF_READER, PAUSE;
    assert WfSteps([NOSY], 1, {"l", "c"} + StepIds(NOSY)) && WfStep([NOSY][0], {"l", "c"});
    assert WfSteps([NOSY], 0, {"l", "c"});
    assert StepIds(NOSY) == {"x"} && IdsFrom([NOSY], 1) == {} && IdsFrom([NOSY], 0) == {"x"};
    assert StepIds(c) == {"c", "x"} && {"l"} + {"c"} == {"l", "c"};
    assert WfSteps([], 0, {"l"} + {"c"} + IdsFrom([NOSY], 0));
    var outer: set<Id> := {} + {"l"};
    assert outer == {"l"};
    assert WfStep(READERS[0], {"l"}) && WfStep(READERS[1], {"l"} + StepIds(c));
    assert WfSteps(READERS, 2, {"l"} + StepIds(c) + StepIds(d)) && WfSteps(READERS, 1, {"l"} + StepIds(c));
    assert WfSteps(READERS, 0, outer);
    assert WfStep([READER_LOOP][0], {}) && WfSteps([READER_LOOP], 1, {} + StepIds(READER_LOOP));
    assert HidesSteps({"l"}, [NOSY], 1) && HidesSteps({"l"}, [NOSY], 0) && HidesSteps({"l"}, [], 0);
    assert HidesSteps({"l"}, READERS, 2) && HidesSteps({"l"}, READERS, 1) && HidesStep({"l"}, c) && HidesSteps({"l"}, READERS, 0);
    assert Heads(READERS, 0) == {"c", "d"} by {
      assert READERS[0].id == "c" && READERS[1].id == "d";
    }
    assert HidesSteps({"l"}, [READER_LOOP], 1) && HidesStep({"l"}, READER_LOOP);
  }

  /**
   * Why `Rerunnable` asks that no step reads a condition it lies in: three jobs finish this run with the condition
   * succeeded and done in its second iteration, where the plain walk leaves it failed. All else that
   * `ParkingIsInvisible` asks for is met.
   */
  lemma SelfReaderRecovers(w: World)
    ensures WfSteps([READER_LOOP], 0, {}) && HidesSteps({"l"}, [READER_LOOP], 0)
    ensures var (r, end) := RunHistory(w, [READER_LOOP], [READY, READY, READY], FRESH_RUN);
            var (g, e) := Walk(w, [READER_LOOP]);
            && end.Some? && end.value.Completed? && e.Ends?
            && "c" in r.status && r.status["c"] == Succeeded && C(1) in r.done
            && "c" in g.status && g.status["c"] == Failed && C(1) !in g.done
  {
    hide RunJob, ExecSteps, WalkSteps, WfSteps, HidesSteps, C, D, X;
    ReaderFits();
    JobOne(w);
    var r1 := RunJob(w, READY, [READER_LOOP], FRESH_RUN).0;
    JobTwo(w, r1);
    var r2 := RunJob(w, READY, [READER_LOOP], r1).0;
    JobThree(w, r2);
    assert [READY, READY, READY][1..] == [READY, READY] && [READY, READY][1..] == [READY];
    assert RunHistory(w, [READER_LOOP], [READY], r2).1.Some?;
    assert RunHistory(w, [READER_LOOP], [READY, READY], r1) == RunHistory(w, [READER_LOOP], [READY], r2);
    StraightRun(w);
    FreshIsSound([READER_LOOP]);
    JobIsWalk(w);
  }

  lemma JobIsWalk(w: World)
    requires WfSteps([READER_LOOP], 0, {})
    ensures var (u, o) := RunJob(w, Uninterrupted, [READER_LOOP], FRESH_RUN);
            var (g, e) := Walk(w, [READER_LOOP]);
            g.status == u.status && g.done == u.done && (o.Completed? <==> e.Ends?)
  {
    hide ExecSteps, WalkSteps, WfSteps;
    FreshIsSound([READER_LOOP]);
    StepsPlain(w, [READER_LOOP], 0, {}, [], Top, NoLoop, FRESH_RUN, NO_FLAGS, false, Null);
  }
}
