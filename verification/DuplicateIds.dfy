/** `checkDuplicateIds` of the manifest validator, and what its silence gives the executor. */
module DuplicateIds {
  import opened Workflow
  import opened WellFormed

  /** The ids in document order. */
  function IdList(s: Step): seq<Id>
    decreases s, 0
  {
    [s.id] + match s.kind
             case Condition(_, thn, els) => IdLists(thn, 0) + IdLists(els, 0)
             case ForEach(_, _, children) => IdLists(children, 0)
             case _ => []
  }

  function IdLists(steps: seq<Step>, k: nat): seq<Id>
    requires k <= |steps|
    decreases steps, |steps| - k
  {
    if k == |steps| then [] else IdList(steps[k]) + IdLists(steps, k + 1)
  }

  ghost predicate NoRepeat(ids: seq<Id>) {
    forall i, j :: 0 <= i < j < |ids| ==> ids[i] != ids[j]
  }

  /** No step of the list, in document order, has an id seen before it. */
  ghost predicate AllNew(steps: seq<Step>, k: nat, seen: set<Id>)
    requires k <= |steps|
    decreases steps, |steps| - k
  {
    k == |steps| || (IsNew(steps[k], seen) && AllNew(steps, k + 1, seen + StepIds(steps[k])))
  }

  ghost predicate IsNew(s: Step, seen: set<Id>)
    decreases s, 0
  {
    && s.id !in seen
    && match s.kind
       case Condition(_, thn, els) => AllNew(thn, 0, seen + {s.id}) && AllNew(els, 0, seen + {s.id} + IdsFrom(thn, 0))
       case ForEach(_, _, children) => AllNew(children, 0, seen + {s.id})
       case _ => true
  }

  /** The validator's walk: a set of seen ids and a list of error paths, both updated in place. */
  class DuplicateCheck {
    var seen: set<Id>
    var errors: seq<Id>

    constructor ()
      ensures seen == {} && errors == []
    {
      seen, errors := {}, [];
    }

    method CheckDuplicateIds(steps: seq<Step>)
      modifies this
      ensures seen == old(seen) + IdsFrom(steps, 0)
      ensures old(errors) <= errors
      ensures errors == old(errors) <==> AllNew(steps, 0, old(seen))
      decreases steps, 0
    {
      var k := 0;
      ghost var seen0 := seen;
      while k < |steps|
        invariant 0 <= k <= |steps|
        invariant seen + IdsFrom(steps, k) == seen0 + IdsFrom(steps, 0)
        invariant old(errors) <= errors
        invariant AllNew(steps, 0, seen0) <==> errors == old(errors) && AllNew(steps, k, seen)
      {
        CheckStep(steps[k]);
        k := k + 1;
      }
    }

    method CheckStep(s: Step)
      modifies this
      ensures seen == old(seen) + StepIds(s)
      ensures old(errors) <= errors
      ensures errors == old(errors) <==> IsNew(s, old(seen))
      decreases s, 1
    {
      if s.id in seen {
        errors := errors + [s.id];
      }
      seen := seen + {s.id};
      match s.kind {
        case ForEach(_, _, children) => CheckDuplicateIds(children);
        case Condition(_, thn, els) =>
          CheckDuplicateIds(thn);
          CheckDuplicateIds(els);
        case _ =>
      }
    }
  }

  lemma NoRepeatConcat(a: seq<Id>, b: seq<Id>)
    ensures NoRepeat(a + b) <==> NoRepeat(a) && NoRepeat(b) && (forall x :: x in a ==> x !in b)
  {
    var c := a + b;
    if NoRepeat(c) {
      forall i, j | 0 <= i < j < |b| ensures b[i] != b[j] {
        assert c[|a| + i] == b[i] && c[|a| + j] == b[j];
      }
      forall x | x in a ensures x !in b {
        var i :| 0 <= i < |a| && a[i] == x;
        assert c[i] == x;
        assert forall j :: 0 <= j < |b| ==> c[|a| + j] == b[j];
      }
      forall i, j | 0 <= i < j < |a| ensures a[i] != a[j] {
        assert c[i] == a[i] && c[j] == a[j];
      }
    }
    if NoRepeat(a) && NoRepeat(b) && forall x :: x in a ==> x !in b {
      forall i, j | 0 <= i < j < |c| ensures c[i] != c[j] {
        if j < |a| {
          assert c[i] == a[i] && c[j] == a[j];
        } else if i < |a| {
          assert c[i] in a && c[j] == b[j - |a|] && c[j] in b;
        } else {
          assert c[i] == b[i - |a|] && c[j] == b[j - |a|];
        }
      }
    }
  }

  ghost predicate Fresh(ids: seq<Id>, seen: set<Id>) {
    NoRepeat(ids) && forall x :: x in ids ==> x !in seen
  }

  lemma FreshConcat(a: seq<Id>, b: seq<Id>, seen: set<Id>, ids: set<Id>)
    requires forall x :: x in a <==> x in ids
    ensures Fresh(a + b, seen) <==> Fresh(a, seen) && Fresh(b, seen + ids)
  {
    NoRepeatConcat(a, b);
  }

  lemma {:induction false} ListsAreNew(steps: seq<Step>, k: nat, seen: set<Id>)
    requires k <= |steps|
    ensures AllNew(steps, k, seen) <==> Fresh(IdLists(steps, k), seen)
    ensures forall x :: x in IdLists(steps, k) <==> x in IdsFrom(steps, k)
    decreases steps, |steps| - k
  {
    if k < |steps| {
      ListIsNew(steps[k], seen);
      ListsAreNew(steps, k + 1, seen + StepIds(steps[k]));
      FreshConcat(IdList(steps[k]), IdLists(steps, k + 1), seen, StepIds(steps[k]));
    }
  }

  lemma {:induction false} ListIsNew(s: Step, seen: set<Id>)
    ensures IsNew(s, seen) <==> Fresh(IdList(s), seen)
    ensures forall x :: x in IdList(s) <==> x in StepIds(s)
    decreases s, 0
  {
    match s.kind
    case Condition(_, thn, els) =>
      ListsAreNew(thn, 0, seen + {s.id});
      ListsAreNew(els, 0, seen + {s.id} + IdsFrom(thn, 0));
      FreshConcat(IdLists(thn, 0), IdLists(els, 0), seen + {s.id}, IdsFrom(thn, 0));
      FreshConcat([s.id], IdLists(thn, 0) + IdLists(els, 0), seen, {s.id});
    case ForEach(_, _, children) =>
      ListsAreNew(children, 0, seen + {s.id});
      FreshConcat([s.id], IdLists(children, 0), seen, {s.id});
    case _ => assert IdList(s) == [s.id];
  }

  /** The validator is silent exactly when the ids in document order are pairwise distinct. */
  lemma SilentMeansUnique(steps: seq<Step>)
    ensures AllNew(steps, 0, {}) <==> NoRepeat(IdLists(steps, 0))
  {
    ListsAreNew(steps, 0, {});
  }

  /** Every expression reads only ids that come earlier in the document. */
  ghost predicate ReadsEarlier(steps: seq<Step>, k: nat, earlier: set<Id>)
    requires k <= |steps|
    decreases steps, |steps| - k
  {
    k == |steps| || (StepReadsEarlier(steps[k], earlier) && ReadsEarlier(steps, k + 1, earlier + StepIds(steps[k])))
  }

  ghost predicate StepReadsEarlier(s: Step, earlier: set<Id>)
    decreases s, 0
  {
    && Uses(s) <= earlier
    && match s.kind
       case Condition(_, thn, els) =>
         ReadsEarlier(thn, 0, earlier + {s.id}) && ReadsEarlier(els, 0, earlier + {s.id} + IdsFrom(thn, 0))
       case ForEach(_, _, children) => ReadsEarlier(children, 0, earlier + {s.id})
       case _ => true
  }

  /** The executor's well-formedness is the validator's silence plus expressions that look back only. */
  lemma {:induction false} WellFormedManifest(steps: seq<Step>, k: nat, seen: set<Id>)
    requires k <= |steps|
    ensures WfSteps(steps, k, seen) <==> AllNew(steps, k, seen) && ReadsEarlier(steps, k, seen)
    decreases steps, |steps| - k
  {
    if k < |steps| {
      WellFormedStep(steps[k], seen);
      WellFormedManifest(steps, k + 1, seen + StepIds(steps[k]));
    }
  }

  lemma {:induction false} WellFormedStep(s: Step, seen: set<Id>)
    ensures WfStep(s, seen) <==> IsNew(s, seen) && StepReadsEarlier(s, seen)
    decreases s, 0
  {
    match s.kind
    case Condition(_, thn, els) =>
      WellFormedManifest(thn, 0, seen + {s.id});
      WellFormedManifest(els, 0, seen + {s.id} + IdsFrom(thn, 0));
    case ForEach(_, _, children) => WellFormedManifest(children, 0, seen + {s.id});
    case _ =>
  }
}
