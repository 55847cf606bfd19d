/** What a for_each records: one entry per iteration, the cursor of a park, the failed entry of an abort. */
module LoopShape {
  import opened Prelude
  import opened Values
  import opened Workflow
  import opened Executor
  import opened WellFormed
  import opened Soundness

  ghost predicate ChildSucceeded(children: seq<Step>, j: nat, p: Path, i: nat, r: Run)
    requires j < |children|
  {
    && Child(p, Item(i), children[j].id) in r.done
    && children[j].id in r.status && r.status[children[j].id] == Succeeded
  }

  /** Child `j` is the last of the first `n` that succeeded. */
  ghost predicate LastSucceeded(children: seq<Step>, n: nat, j: nat, p: Path, i: nat, r: Run)
    requires n <= |children|
  {
    j < n && ChildSucceeded(children, j, p, i, r) && forall k: nat :: j < k < n ==> !ChildSucceeded(children, k, p, i, r)
  }

  lemma {:induction false} VerdictMeaning(children: seq<Step>, n: nat, p: Path, i: nat, r: Run)
    requires n <= |children|
    ensures var v := VerdictOf(children, n, p, i, r);
            if v.succeeded then exists j: nat :: LastSucceeded(children, n, j, p, i, r) && v.lastOutput == Output(r, children[j].id)
            else v.lastOutput == Null && forall j: nat :: j < n ==> !ChildSucceeded(children, j, p, i, r)
  {
    if n > 0 {
      VerdictMeaning(children, n - 1, p, i, r);
      var before := VerdictOf(children, n - 1, p, i, r);
      if ChildSucceeded(children, n - 1, p, i, r) {
        assert LastSucceeded(children, n, n - 1, p, i, r);
      } else if before.succeeded {
        var j: nat :| LastSucceeded(children, n - 1, j, p, i, r) && before.lastOutput == Output(r, children[j].id);
        assert LastSucceeded(children, n, j, p, i, r);
      }
    }
  }

  /**
   * The entry of iteration `i`, judged on the state its children left: succeeded, with the output of the last child
   * that succeeded, if one did, and skipped otherwise.
   */
  ghost predicate EntryFits(e: Entry, children: seq<Step>, p: Path, i: nat, r: Run) {
    if exists j: nat :: LastSucceeded(children, |children|, j, p, i, r)
    then exists j: nat :: LastSucceeded(children, |children|, j, p, i, r) &&
                          e == EntrySucceeded(Some(children[|children| - 1].id), Output(r, children[j].id))
    else e.EntrySkipped? && forall j: nat :: j < |children| ==> !ChildSucceeded(children, j, p, i, r)
  }

  function Iteration(w: World, m: Mode, children: seq<Step>, items: seq<Value>, i: nat, p: Path, loop: Loop, r: Run): (Run, Outcome)
    requires i < |items|
  {
    ExecSteps(w, m, children, 0, p, Item(i), InLoop(items[i], i, loop), r.(iter := r.iter[p := i]), NO_FLAGS)
  }

  /** Iterations `i` to `c - 1` ran to completion from `r` to `r'`, each adding a fitting entry. */
  ghost predicate Ran(w: World, m: Mode, children: seq<Step>, items: seq<Value>, i: nat, c: nat, p: Path, loop: Loop, r: Run,
                      entries: seq<Entry>, r': Run, entries': seq<Entry>)
    requires i <= c <= |items|
    decreases c - i
  {
    if i == c then r == r' && entries == entries' else
    var (r1, o) := Iteration(w, m, children, items, i, p, loop, r);
    && o.Completed? && |entries| < |entries'| && entries <= entries'
    && EntryFits(entries'[|entries|], children, p, i, r1)
    && Ran(w, m, children, items, i + 1, c, p, loop, r1.(iter := r1.iter - {p}), entries'[..|entries| + 1], r', entries')
  }

  /** The loop stops at the iteration `c` that does not complete, having recorded every one before it. */
  lemma {:induction false} LoopStops(w: World, m: Mode, children: seq<Step>, earlier: set<Id>, items: seq<Value>, i: nat, id: Id,
                                     dropped: nat, p: Path, loop: Loop, r: Run, acc: LoopAcc)
    returns (c: nat, rc: Run, entries: seq<Entry>)
    requires i <= |items| && WfSteps(children, 0, earlier) && id in earlier
    requires p !in r.done && ItemReady(children, p, i, r)
    ensures i <= c <= |items| && Ran(w, m, children, items, i, c, p, loop, r, acc.entries, rc, entries)
    ensures acc.entries <= entries
    ensures var (r', acc', o) := ExecItems(w, m, children, items, i, id, dropped, p, loop, r, acc);
            match o
            case Completed(_, _) => c == |items| && r' == rc && acc'.entries == entries
            case Aborted(code) =>
              && c < |items| && Iteration(w, m, children, items, c, p, loop, rc).1 == o
              && acc'.entries == entries + [EntryFailed(code)]
              && id in r'.outputs && r'.outputs[id] == LoopOutput(acc'.entries, dropped)
              && p in r'.iter && r'.iter[p] == c
            case Parked(_, _, _) =>
              && c < |items| && Iteration(w, m, children, items, c, p, loop, rc) == (r', o)
              && p in r'.iter && r'.iter[p] == c
            case Crashed => true
    decreases |items| - i
  {
    hide Framed, ExecSteps, UntouchedFrom, LoopOutput, SoundSteps, WfSteps, EntryFits, LoopStep, Heads, IdsFrom, VerdictOf, Agree, In;
    c, rc, entries := i, r, acc.entries;
    if i < |items| {
      var r0 := r.(iter := r.iter[p := i]);
      var inner := InLoop(items[i], i, loop);
      ScopeAgree(children, earlier, id, p, Item(i), r, r0);
      StepsFramed(w, m, children, 0, p, Item(i), inner, r0, NO_FLAGS);
      StepsSound(w, m, children, 0, earlier, p, Item(i), inner, r0, NO_FLAGS);
      var (r1, o) := ExecSteps(w, m, children, 0, p, Item(i), inner, r0, NO_FLAGS);
      NoMarkOutside(r0, r1, IdsFrom(children, 0), p, Item(i), Heads(children, 0));
      if o.Completed? {
        LaterUntouched(r, r0, r1, p, i, IdsFrom(children, 0), Heads(children, 0));
        NextReady(children, p, i, r1);
        var v := VerdictOf(children, |children|, p, i, r1);
        var acc1 := LoopStep(acc, v, children, o.flags);
        EntryOfIteration(children, p, i, r1, acc, o.flags);
        c, rc, entries := LoopStops(w, m, children, earlier, items, i + 1, id, dropped, p, loop, r1.(iter := r1.iter - {p}), acc1);
        assert entries[|acc.entries|] == acc1.entries[|acc.entries|];
        assert entries[..|acc.entries| + 1] == acc1.entries;
      }
    }
  }

  lemma EntryOfIteration(children: seq<Step>, p: Path, i: nat, r: Run, acc: LoopAcc, sub: Flags)
    requires SoundSteps(children, 0, p, Item(i), r)
    ensures var acc1 := LoopStep(acc, VerdictOf(children, |children|, p, i, r), children, sub);
            && |acc1.entries| == |acc.entries| + 1 && acc.entries <= acc1.entries
            && EntryFits(acc1.entries[|acc.entries|], children, p, i, r)
  {
    VerdictSound(children, |children|, p, i, r);
    VerdictMeaning(children, |children|, p, i, r);
  }

  predicate NotFailed(e: Entry) {
    !e.EntryFailed?
  }

  lemma {:induction false} RanEntries(w: World, m: Mode, children: seq<Step>, items: seq<Value>, i: nat, c: nat, p: Path, loop: Loop,
                                      r: Run, entries: seq<Entry>, r': Run, entries': seq<Entry>)
    requires i <= c <= |items| && Ran(w, m, children, items, i, c, p, loop, r, entries, r', entries')
    ensures |entries'| == |entries| + c - i && entries <= entries'
    ensures forall j :: |entries| <= j < |entries'| ==> NotFailed(entries'[j])
    decreases c - i
  {
    hide ExecSteps;
    if i < c {
      var r1 := Iteration(w, m, children, items, i, p, loop, r).0;
      RanEntries(w, m, children, items, i + 1, c, p, loop, r1.(iter := r1.iter - {p}), entries'[..|entries| + 1], r', entries');
    }
  }

  /** The items of a for_each are the first of the list, as many as its limit allows: 100 by default, at least 1, at most 1,000. */
  lemma FirstItems(v: seq<Value>, limit: Option<int>)
    ensures var asked := if limit == None then 100 else limit.value;
            var allowed := if asked < 1 then 1 else if asked > 1000 then 1000 else asked;
            Bounded(v, limit) == v[..if |v| < allowed then |v| else allowed]
  {
  }

  lemma BoundedRecords(w: World, m: Mode, s: Step, earlier: set<Id>, p: Path, loop: Loop, r: Run, v: seq<Value>)
    returns (entries: seq<Entry>, finished: seq<Entry>, rc: Run)
    requires s.kind.ForEach? && WfStep(s, earlier) && SoundStep(s, p, r) && p !in r.done
    requires s.kind.over.eval(ViewOf(r, s.kind.over.uses), loop) == Ok(Arr(v))
    requires StartIndex(r, p) <= |Bounded(v, s.kind.limit)|
    ensures var (r', o) := ExecForEach(w, m, s.id, s.kind, p, loop, r);
            var n, start := |Bounded(v, s.kind.limit)|, StartIndex(r, p);
            && start + |finished| <= n && finished <= entries && (!o.Aborted? ==> entries == finished)
            && Ran(w, m, s.kind.children, Bounded(v, s.kind.limit), start, start + |finished|, p, loop, r, [], rc, finished)
            && (o.Completed? ==>
                  && s.id in r'.outputs && r'.outputs[s.id] == LoopOutput(entries, |v| - n)
                  && |entries| == n - start && forall j :: 0 <= j < |entries| ==> NotFailed(entries[j]))
            && (o.Aborted? ==>
                  && s.id in r'.outputs && r'.outputs[s.id] == LoopOutput(entries, |v| - n)
                  && 1 <= |entries| <= n - start && entries == finished + [EntryFailed(o.code)]
                  && (forall j :: 0 <= j < |entries| - 1 ==> NotFailed(entries[j]))
                  && p in r'.iter && r'.iter[p] == start + |entries| - 1)
            && (o.Parked? ==>
                  && p in r'.iter && r'.iter[p] == start + |entries| < n
                  && forall j :: 0 <= j < |entries| ==> NotFailed(entries[j]))
  {
    hide ViewOf, ExecItems, LoopOutput, Framed, SoundSteps, WfSteps, UntouchedFrom, Ran, Bounded;
    var c := s.kind;
    var items := Bounded(v, c.limit);
    var dropped := |v| - |items|;
    EnterLoop(c.children, p, r);
    var (r1, acc, o) := ExecItems(w, m, c.children, items, StartIndex(r, p), s.id, dropped, p, loop, r, LOOP_START);
    ItemsSound(w, m, c.children, earlier + {s.id}, items, StartIndex(r, p), s.id, dropped, p, loop, r, LOOP_START);
    var stop, es;
    stop, rc, es := LoopStops(w, m, c.children, earlier + {s.id}, items, StartIndex(r, p), s.id, dropped, p, loop, r, LOOP_START);
    RanEntries(w, m, c.children, items, StartIndex(r, p), stop, p, loop, r, [], rc, es);
    finished := es;
    entries := if o.Aborted? then es + [EntryFailed(o.code)] else es;
  }

  /**
   * One execution of a for_each over the first `n` items of a list, from its saved cursor, iteration `i` on item `v[i]`:
   * completion records the remaining `n - cursor` entries and none is `failed`, an abort adds one failed entry after
   * those that finished, and a park saves the cursor of the iteration it stopped in. Each entry of a finished iteration
   * is succeeded exactly when a direct child of that iteration succeeded, and skipped otherwise (`Ran`).
   */
  lemma ForEachRecords(w: World, m: Mode, s: Step, earlier: set<Id>, p: Path, loop: Loop, r: Run, v: seq<Value>)
    returns (entries: seq<Entry>, finished: seq<Entry>, rc: Run)
    requires s.kind.ForEach? && WfStep(s, earlier) && SoundStep(s, p, r) && p !in r.done
    requires s.kind.over.eval(ViewOf(r, s.kind.over.uses), loop) == Ok(Arr(v))
    requires StartIndex(r, p) <= |Bounded(v, s.kind.limit)|
    ensures var (r', o) := ExecForEach(w, m, s.id, s.kind, p, loop, r);
            var asked, start := if s.kind.limit == None then 100 else s.kind.limit.value, if p in r.iter then r.iter[p] else 0;
            var allowed := if asked < 1 then 1 else if asked > 1000 then 1000 else asked;
            var n := if |v| < allowed then |v| else allowed;
            && start + |finished| <= n && finished <= entries && (!o.Aborted? ==> entries == finished)
            && Ran(w, m, s.kind.children, v[..n], start, start + |finished|, p, loop, r, [], rc, finished)
            && (o.Completed? ==>
                  && s.id in r'.outputs && r'.outputs[s.id] == LoopOutput(entries, |v| - n)
                  && |entries| == n - start && forall j :: 0 <= j < |entries| ==> NotFailed(entries[j]))
            && (o.Aborted? ==>
                  && s.id in r'.outputs && r'.outputs[s.id] == LoopOutput(entries, |v| - n)
                  && 1 <= |entries| <= n - start && entries == finished + [EntryFailed(o.code)]
                  && (forall j :: 0 <= j < |entries| - 1 ==> NotFailed(entries[j]))
                  && p in r'.iter && r'.iter[p] == start + |entries| - 1)
            && (o.Parked? ==>
                  && p in r'.iter && r'.iter[p] == start + |entries| < n
                  && forall j :: 0 <= j < |entries| ==> NotFailed(entries[j]))
  {
    hide ViewOf, ExecForEach, LoopOutput, WfStep, SoundStep, Ran, Bounded;
    FirstItems(v, s.kind.limit);
    entries, finished, rc := BoundedRecords(w, m, s, earlier, p, loop, r, v);
  }
}
