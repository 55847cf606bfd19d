/** The admission handlers and the concurrency retry as they update the tables of a workspace. */
module AdmissionDesk {
  import opened Admission

  class Workspace {
    const limits: Limits
    var runs: map<RunId, Row>
    var consumed: nat
    var inPeriod: bool

    constructor (limits: Limits)
      ensures this.limits == limits && State() == EMPTY
    {
      this.limits := limits;
      runs := map[];
      consumed := 0;
      inPeriod := true;
    }

    function State(): Tables
      reads this
    {
      Tables(runs, consumed, inPeriod)
    }

    /** `SELECT count(*) … AND concurrency_block = false`. */
    method CountActive() returns (n: nat)
      ensures n == ActiveCount(State())
    {
      var left := runs.Keys;
      n := 0;
      ghost var counted: set<RunId> := {};
      while left != {}
        invariant left <= runs.Keys && counted == ActiveIds(State()) - left && n == |counted|
        decreases |left|
      {
        var id :| id in left;
        left := left - {id};
        if Active(runs[id]) {
          counted := counted + {id};
          n := n + 1;
        }
      }
      assert counted == ActiveIds(State());
    }

    /** The transaction of a manual or webhook run. */
    method AdmitRun(id: RunId) returns (d: Decision)
      modifies this
      ensures d == Decide(limits, old(State()), id) && State() == Do(limits, old(State()), Admit(id))
    {
      hide ActiveCount;
      var activeCount := CountActive();
      if limits.concurrency.Some? && activeCount >= limits.concurrency.value {
        return ConcurrencyLimit;
      }
      if limits.hardCap.Some? {
        var runsConsumed := if inPeriod then consumed else 0;
        if runsConsumed + activeCount >= limits.hardCap.value {
          return RunLimit;
        }
      }
      if id in runs {
        return Duplicate;
      }
      runs := runs[id := Row(Queued, false, false)];
      d := Admitted;
    }

    /** A due schedule trigger. */
    method FireSchedule(id: RunId) returns (inserted: bool)
      modifies this
      ensures State() == Do(limits, old(State()), Fire(id))
      ensures inserted <==> !AtCap(limits, old(State())) && id !in old(runs)
    {
      hide ActiveCount;
      var activeCount := CountActive();
      if limits.hardCap.Some? {
        var runsConsumed := if inPeriod then consumed else 0;
        if runsConsumed + activeCount >= limits.hardCap.value {
          return false;
        }
      }
      var blocked := limits.concurrency.Some? && activeCount >= limits.concurrency.value;
      if id in runs {
        return false;
      }
      runs := runs[id := Row(Queued, blocked, false)];
      inserted := true;
    }

    /** The concurrency retry over the blocked runs it selected, oldest first. */
    method RetryBlocked(selected: seq<RunId>)
      modifies this
      ensures State() == PromoteAll(limits, old(State()), selected)
    {
      hide ActiveCount;
      var i := 0;
      assert selected[0..] == selected;
      while i < |selected|
        invariant 0 <= i <= |selected|
        invariant PromoteAll(limits, old(State()), selected) == PromoteAll(limits, State(), selected[i..])
      {
        var id := selected[i];
        assert selected[i..][1..] == selected[i + 1..];
        var count := CountActive();
        if limits.concurrency.Some? && count < limits.concurrency.value {
          if id in runs && runs[id].blocked && runs[id].status.Queued? {
            runs := runs[id := runs[id].(blocked := false)];
          }
        }
        i := i + 1;
      }
    }
  }

  function PromoteAll(l: Limits, t: Tables, selected: seq<RunId>): Tables
    decreases |selected|
  {
    if |selected| == 0 then t else PromoteAll(l, Do(l, t, Promote(selected[0])), selected[1..])
  }

  /** The retry works first come, first served: it unblocks a prefix of the blocked runs it selected, as long as there is room. */
  lemma {:induction false} RetryUnblocksPrefix(l: Limits, t: Tables, selected: seq<RunId>) returns (k: nat)
    requires l.concurrency.Some? && ActiveCount(t) <= l.concurrency.value
    requires forall i :: 0 <= i < |selected| ==> selected[i] in t.runs && t.runs[selected[i]] == Row(Queued, true, false)
    requires forall i, j :: 0 <= i < j < |selected| ==> selected[i] != selected[j]
    ensures k <= |selected| && k == Least(|selected|, l.concurrency.value - ActiveCount(t))
    ensures var t' := PromoteAll(l, t, selected);
            && ActiveCount(t') == ActiveCount(t) + k
            && forall i :: 0 <= i < |selected| ==> selected[i] in t'.runs && t'.runs[selected[i]] == Row(Queued, i >= k, false)
    ensures var t' := PromoteAll(l, t, selected);
            forall id :: id !in selected ==> (id in t.runs <==> id in t'.runs) && (id in t.runs ==> t'.runs[id] == t.runs[id])
    decreases |selected|
  {
    hide ActiveCount;
    if |selected| == 0 {
      k := 0;
    } else {
      var id := selected[0];
      var t1 := Do(l, t, Promote(id));
      SetRowCounts(t, id, t.runs[id].(blocked := false));
      k := RetryUnblocksPrefix(l, t1, selected[1..]);
      var t' := PromoteAll(l, t, selected);
      assert forall i :: 0 < i < |selected| ==> selected[i] == selected[1..][i - 1];
      assert selected == [id] + selected[1..];
      if Promotes(l, t, id) {
        k := k + 1;
      }
    }
  }

  function Least(a: int, b: int): int {
    if a < b then a else b
  }
}
