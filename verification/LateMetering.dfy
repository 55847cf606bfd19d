/** The hard cap when a run is ended and counted in two steps, as an executor job does. */
module LateMetering {
  import opened Prelude
  import opened Admission

  /** The tables, and the ended runs that an executor job has still to count. */
  datatype Late = Late(tables: Tables, pending: set<RunId>)

  datatype LateStep = Base(step: Step) | EndRun(id: RunId, to: Status) | CountRun(id: RunId)

  /** The status write of a job: terminal, and not yet counted. */
  function EndUncounted(t: Tables, id: RunId, to: Status): Tables
    requires id in t.runs
  {
    SetRow(t, id, t.runs[id].(status := to, started := true))
  }

  /** The metering transaction. */
  function Count(t: Tables): Tables {
    if t.inPeriod then t.(consumed := t.consumed + 1) else t
  }

  function DoLate(l: Limits, s: Late, step: LateStep): Late {
    match step
    case Base(b) => s.(tables := Do(l, s.tables, b))
    case EndRun(id, to) =>
      if id in s.tables.runs && Active(s.tables.runs[id]) && Terminal(to) && id !in s.pending
      then Late(EndUncounted(s.tables, id, to), s.pending + {id})
      else s
    case CountRun(id) => if id in s.pending then Late(Count(s.tables), s.pending - {id}) else s
  }

  /** Counted, active and still to be counted. */
  function Owed(s: Late): nat {
    Consumed(s.tables) + ActiveCount(s.tables) + |s.pending|
  }

  predicate OwesWithinCap(l: Limits, s: Late) {
    l.hardCap.Some? ==> Owed(s) <= l.hardCap.value
  }

  /** The step makes one more run active. */
  predicate LetsIn(l: Limits, s: Late, step: LateStep) {
    step.Base? && ActiveCount(Do(l, s.tables, step.step)) == ActiveCount(s.tables) + 1
  }

  lemma EndKeepsOwed(t: Tables, id: RunId, to: Status)
    requires id in t.runs && Active(t.runs[id]) && Terminal(to)
    ensures ActiveCount(EndUncounted(t, id, to)) == ActiveCount(t) - 1 && Consumed(EndUncounted(t, id, to)) == Consumed(t)
  {
    SetRowCounts(t, id, t.runs[id].(status := to, started := true));
  }

  lemma CountActive(t: Tables)
    ensures ActiveCount(Count(t)) == ActiveCount(t) && Consumed(Count(t)) == Consumed(t) + if t.inPeriod then 1 else 0
  {
    CountsRuns(t, Count(t));
  }

  /** What is owed stays within the cap exactly unless a run is let in when the cap is already owed. */
  lemma OnlyEntryAtCapOverdraws(l: Limits, s: Late, step: LateStep)
    requires OwesWithinCap(l, s) && BlockedIdle(s.tables)
    ensures OwesWithinCap(l, DoLate(l, s, step)) <==> !(l.hardCap.Some? && LetsIn(l, s, step) && Owed(s) == l.hardCap.value)
  {
    hide ActiveCount, BlockedIdle, Do, Count, EndUncounted;
    match step
    case Base(b) =>
      StepCounts(l, s.tables, b);
    case EndRun(id, to) =>
      if id in s.tables.runs && Active(s.tables.runs[id]) && Terminal(to) {
        EndKeepsOwed(s.tables, id, to);
      }
    case CountRun(_) => CountActive(s.tables);
  }

  /** While the period is open, counting what is pending, in any order, turns what is owed into counted and active runs. */
  lemma {:induction false} CountingSettles(l: Limits, s: Late, ids: seq<RunId>)
    requires s.tables.inPeriod
    ensures var s' := CountAll(l, s, ids);
            && s'.tables.inPeriod && Owed(s') == Owed(s)
            && (s'.pending == {} ==> (WithinCap(l, s'.tables) <==> OwesWithinCap(l, s)))
    decreases |ids|
  {
    hide ActiveCount;
    if |ids| > 0 {
      CountActive(s.tables);
      CountingSettles(l, DoLate(l, s, CountRun(ids[0])), ids[1..]);
    }
  }

  function CountAll(l: Limits, s: Late, ids: seq<RunId>): Late
    decreases |ids|
  {
    if |ids| == 0 then s else CountAll(l, DoLate(l, s, CountRun(ids[0])), ids[1..])
  }

  /**
   * An admission between the status write and the metering of a run: it exceeds the cap exactly when the cap was
   * already taken up before the run ended.
   */
  lemma AdmissionBetweenExceedsCap(l: Limits, t: Tables, id: RunId, to: Status, other: RunId)
    requires l.hardCap.Some? && t.inPeriod && WithinCap(l, t)
    requires id in t.runs && Active(t.runs[id]) && Terminal(to) && other !in t.runs
    ensures var ended := EndUncounted(t, id, to);
            Decide(l, ended, other).Admitted? ==>
              (!WithinCap(l, Count(Do(l, ended, Admit(other)))) <==> Consumed(t) + ActiveCount(t) == l.hardCap.value)
    ensures var ended := EndUncounted(t, id, to);
            (l.concurrency.Some? ==> ActiveCount(t) <= l.concurrency.value) ==> Decide(l, ended, other).Admitted?
  {
    hide ActiveCount;
    var ended := EndUncounted(t, id, to);
    EndKeepsOwed(t, id, to);
    SetRowCounts(ended, other, Row(Queued, false, false));
    CountActive(Do(l, ended, Admit(other)));
  }
}
