/** The metering call and the close job as they update the rows of one subscription. */
module BillingLedger {
  import opened Prelude
  import opened Billing

  /** Where a run of the close job is cut off, if it is. */
  datatype Cut = Nowhere | BeforeInvoice | BeforeRoll

  class Ledger {
    const plan: Plan
    var now: int
    var period: Period
    var consumed: nat
    var usage: seq<Usage>
    var invoices: map<Period, Invoice>

    constructor (plan: Plan, start: int)
      ensures this.plan == plan && State() == Open(start)
    {
      this.plan := plan;
      now := start;
      period := Period(start, start + PERIOD_LENGTH);
      consumed := 0;
      usage := [];
      invoices := map[];
    }

    /** The rows between jobs: no close job is under way. */
    ghost function State(): Books
      reads this
    {
      Books(now, period, consumed, usage, invoices, None)
    }

    /** `recordBillingForTerminalRun`. */
    method RecordBillingForTerminalRun(run: nat, started: bool, event: EventType)
      modifies this
      ensures State() == Do(plan, old(State()), Meter(run, started, event))
    {
      if !started {
        return;
      }
      var inserted := InsertUsage(run, event);
      if !inserted {
        return;
      }
      if period.start <= now && now < period.end {
        consumed := consumed + 1;
      }
    }

    /** `INSERT … ON CONFLICT (run_id, event_type) DO NOTHING RETURNING id`. */
    method InsertUsage(run: nat, event: EventType) returns (inserted: bool)
      modifies this`usage
      ensures inserted <==> !Billed(old(usage), run, event)
      ensures usage == if inserted then old(usage) + [Usage(run, event, now, period)] else old(usage)
    {
      var i := 0;
      while i < |usage|
        invariant 0 <= i <= |usage|
        invariant forall j :: 0 <= j < i ==> usage[j].run != run || usage[j].event != event
      {
        if usage[i].run == run && usage[i].event == event {
          return false;
        }
        i := i + 1;
      }
      usage := usage + [Usage(run, event, now, period)];
      return true;
    }

    /** `runBillingPeriodClose`, possibly cut off: the rows are those of the steps it got to. */
    method RunBillingPeriodClose(cut: Cut) returns (closed: nat, rollovers: nat)
      modifies this
      ensures State() == CloseJob(plan, old(State()), cut)
      ensures closed == |invoices| - |old(invoices)| && closed <= 1
      ensures rollovers == if period == old(period) then 0 else 1
    {
      closed, rollovers := 0, 0;
      if now < period.end || cut.BeforeInvoice? {
        return;
      }
      var invoice := CloseInvoice(plan, consumed);
      if period !in invoices {
        invoices := invoices[period := invoice];
        closed := 1;
      }
      if cut.BeforeRoll? {
        return;
      }
      if period.end <= now {
        period := Next(period);
        consumed := 0;
        rollovers := 1;
      }
    }
  }

  /** The steps of one close job, up to where it is cut off. */
  function CloseJob(plan: Plan, b: Books, cut: Cut): Books {
    var selected := Do(plan, b, Select);
    if cut.BeforeInvoice? then Do(plan, selected, Crash) else
    var invoiced := Do(plan, selected, WriteInvoice);
    if cut.BeforeRoll? then Do(plan, invoiced, Crash) else Do(plan, invoiced, Roll)
  }

  /**
   * Dispatching the job again after it was cut off leaves what one undisturbed job would have left. A repeated
   * undisturbed job changes nothing exactly when it finds no further period that has ended.
   */
  lemma RedispatchFinishes(plan: Plan, b: Books, cut: Cut)
    requires b.closing.None? && b.period.start < b.period.end
    ensures cut != Nowhere ==> CloseJob(plan, CloseJob(plan, b, cut), Nowhere) == CloseJob(plan, b, Nowhere)
    ensures CloseJob(plan, CloseJob(plan, b, Nowhere), Nowhere) == CloseJob(plan, b, Nowhere) <==> b.now < Next(b.period).end
  {
    hide CloseInvoice;
  }
}
