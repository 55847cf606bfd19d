/** Metering of terminal runs and the close of billing periods, for one subscription. */
module Billing {
  import opened Prelude

  datatype Plan = Plan(priceCents: nat, runLimit: Option<nat>, overageRateCents: Option<nat>)

  datatype Invoice = Invoice(baseCents: nat, overageRuns: nat, overageCents: nat, totalCents: nat)

  predicate Soft(plan: Plan) {
    plan.runLimit.Some? && plan.overageRateCents.Some? && plan.overageRateCents.value > 0
  }

  /** `computeInvoiceClose`. */
  function CloseInvoice(plan: Plan, units: nat): Invoice {
    var limit := if plan.runLimit.Some? then plan.runLimit.value else 0;
    var overage := if Soft(plan) && units > limit then units - limit else 0;
    var cents := overage * if plan.overageRateCents.Some? then plan.overageRateCents.value else 0;
    Invoice(plan.priceCents, overage, cents, plan.priceCents + cents)
  }

  /** One more unit costs the overage rate past the included runs of a soft plan, and nothing otherwise. */
  lemma UnitPrice(plan: Plan, units: nat)
    ensures CloseInvoice(plan, 0).totalCents == plan.priceCents
    ensures CloseInvoice(plan, units + 1).totalCents - CloseInvoice(plan, units).totalCents ==
            if Soft(plan) && units >= plan.runLimit.value then plan.overageRateCents.value else 0
  {
    if Soft(plan) {
      var rate := plan.overageRateCents.value;
      var over := if units >= plan.runLimit.value then units - plan.runLimit.value else 0;
      assert (over + 1) * rate == over * rate + rate;
    }
  }

  /**
   * The parts of an invoice: the price of the plan, one overage run for every unit past the included ones if the plan
   * includes a number of runs and charges for more, and the rate for each of them.
   */
  lemma InvoiceParts(plan: Plan, units: nat, included: nat, rate: nat)
    ensures var i := CloseInvoice(plan, units);
            && i.baseCents == plan.priceCents && i.totalCents == i.baseCents + i.overageCents
            && (plan.runLimit == Some(included) && plan.overageRateCents == Some(rate) && rate > 0 ==>
                  && (units <= included ==> i.overageRuns == 0)
                  && (units > included ==> included + i.overageRuns == units)
                  && i.overageCents == i.overageRuns * rate)
            && (plan.runLimit == None || plan.overageRateCents in {None, Some(0)} ==> i.overageRuns == 0 && i.overageCents == 0)
  {
  }

  datatype EventType = RunSucceeded | RunFailed | RunCanceled

  datatype Period = Period(start: int, end: int)

  /** A row of `usage_events`, with the period its subscription was in when it was written. */
  datatype Usage = Usage(run: nat, event: EventType, at: int, period: Period)

  /** What the close worker read when it selected the subscription, and whether it has written the invoice. */
  datatype Claim = Claim(period: Period, units: nat, invoiced: bool)

  datatype Books = Books(
    now: int, period: Period, consumed: nat, usage: seq<Usage>, invoices: map<Period, Invoice>, closing: Option<Claim>)

  const PERIOD_LENGTH := 30 * 86_400_000

  function Next(p: Period): Period {
    Period(p.end, p.end + PERIOD_LENGTH)
  }

  /** Periods are thirty days long, and the next one begins where one ends. */
  lemma ThirtyDays(p: Period)
    ensures Next(p).start == p.end && Next(p).end == p.end + 30 * 24 * 60 * 60 * 1000
  {
  }

  predicate Billed(usage: seq<Usage>, run: nat, event: EventType) {
    exists i :: 0 <= i < |usage| && usage[i].run == run && usage[i].event == event
  }

  /** The atomic steps; a crash of the close worker loses what it has read. */
  datatype Step = Tick(ms: nat) | Meter(run: nat, started: bool, event: EventType) | Select | WriteInvoice | Roll | Crash

  function Do(plan: Plan, b: Books, s: Step): Books {
    match s
    case Tick(ms) => b.(now := b.now + ms)
    case Meter(run, started, event) =>
      if !started || Billed(b.usage, run, event) then b
      else b.(usage := b.usage + [Usage(run, event, b.now, b.period)],
              consumed := if b.period.start <= b.now < b.period.end then b.consumed + 1 else b.consumed)
    case Select =>
      if b.closing.None? && b.period.end <= b.now then b.(closing := Some(Claim(b.period, b.consumed, false))) else b
    case WriteInvoice =>
      if b.closing.None? || b.closing.value.invoiced then b else
      var c := b.closing.value;
      b.(closing := Some(c.(invoiced := true)),
         invoices := if c.period in b.invoices then b.invoices else b.invoices[c.period := CloseInvoice(plan, c.units)])
    case Roll =>
      if b.closing.None? || !b.closing.value.invoiced then b
      else if b.period.end <= b.now then b.(period := Next(b.period), consumed := 0, closing := None)
      else b.(closing := None)
    case Crash => b.(closing := None)
  }

  function Open(start: int): Books {
    Books(start, Period(start, start + PERIOD_LENGTH), 0, [], map[], None)
  }

  function Replay(plan: Plan, start: int, steps: seq<Step>): Books {
    if |steps| == 0 then Open(start) else Do(plan, Replay(plan, start, steps[..|steps| - 1]), steps[|steps| - 1])
  }

  /** The usage event was written inside the period of its subscription. */
  predicate Counted(u: Usage) {
    u.period.start <= u.at < u.period.end
  }

  /** The units metered in a period. */
  function Units(usage: seq<Usage>, p: Period): nat {
    if |usage| == 0 then 0 else
    var last := usage[|usage| - 1];
    Units(usage[..|usage| - 1], p) + if last.period == p && Counted(last) then 1 else 0
  }

  /** Period `k` of a subscription. */
  function Nth(start: int, k: nat): (p: Period)
    ensures p.end == p.start + PERIOD_LENGTH
  {
    if k == 0 then Period(start, start + PERIOD_LENGTH) else Next(Nth(start, k - 1))
  }

  ghost predicate InChain(p: Period, start: int, k: nat) {
    exists j :: 0 <= j <= k && p == Nth(start, j)
  }

  /** What every step keeps: `k` periods are closed, each with the invoice of its own units. */
  ghost predicate InOrder(plan: Plan, start: int, b: Books, k: nat) {
    && b.period == Nth(start, k) && b.period.start <= b.now
    && b.consumed == Units(b.usage, b.period)
    && (forall j :: 0 <= j < k ==> Invoiced(plan, b, Nth(start, j)))
    && (forall p :: p in b.invoices ==> InChain(p, start, k))
    && (b.period in b.invoices ==> b.period.end <= b.now && Invoiced(plan, b, b.period))
    && (forall i :: 0 <= i < |b.usage| ==> b.usage[i].period.start <= b.usage[i].at <= b.now &&
                                           InChain(b.usage[i].period, start, k))
    && (b.closing.Some? ==> var c := b.closing.value;
                            c.period == b.period && c.units == b.consumed && b.period.end <= b.now && (c.invoiced ==> b.period in b.invoices))
  }

  ghost predicate Invoiced(plan: Plan, b: Books, p: Period) {
    p in b.invoices && b.invoices[p] == CloseInvoice(plan, Units(b.usage, p))
  }

  lemma {:induction false} NthOrder(start: int, j: nat, k: nat)
    requires j < k
    ensures Nth(start, j).end <= Nth(start, k).start
  {
    if j + 1 < k {
      NthOrder(start, j, k - 1);
    }
  }

  lemma {:induction false} NoUnits(usage: seq<Usage>, p: Period)
    requires forall i :: 0 <= i < |usage| ==> usage[i].period != p
    ensures Units(usage, p) == 0
  {
    if |usage| > 0 {
      NoUnits(usage[..|usage| - 1], p);
    }
  }

  lemma TickKeeps(plan: Plan, start: int, b: Books, k: nat, ms: nat)
    requires InOrder(plan, start, b, k)
    ensures InOrder(plan, start, Do(plan, b, Tick(ms)), k)
  {
    hide Units, CloseInvoice, Nth;
    var b' := Do(plan, b, Tick(ms));
    forall p | Invoiced(plan, b, p) ensures Invoiced(plan, b', p) {
    }
  }

  lemma OneMoreUnit(usage: seq<Usage>, u: Usage, p: Period)
    ensures Units(usage + [u], p) == Units(usage, p) + if u.period == p && Counted(u) then 1 else 0
  {
    assert (usage + [u])[..|usage|] == usage;
  }

  /** A unit is only ever added to a period that has no invoice yet: the two time guards exclude each other. */
  lemma MeterKeeps(plan: Plan, start: int, b: Books, k: nat, run: nat, event: EventType)
    requires InOrder(plan, start, b, k)
    ensures InOrder(plan, start, Do(plan, b, Meter(run, true, event)), k)
  {
    hide CloseInvoice, Nth, Billed, Units;
    var b' := Do(plan, b, Meter(run, true, event));
    if b' != b {
      forall p ensures Units(b'.usage, p) == Units(b.usage, p) + if b.period == p && b.now < b.period.end then 1 else 0 {
        OneMoreUnit(b.usage, Usage(run, event, b.now, b.period), p);
      }
      forall j | 0 <= j < k ensures Invoiced(plan, b', Nth(start, j)) {
        assert Invoiced(plan, b, Nth(start, j));
        NthOrder(start, j, k);
      }
    }
  }

  lemma CloserKeeps(plan: Plan, start: int, b: Books, k: nat, s: Step)
    requires InOrder(plan, start, b, k) && (s.Select? || s.WriteInvoice? || s.Crash?)
    ensures InOrder(plan, start, Do(plan, b, s), k)
  {
    hide CloseInvoice, Nth, Units;
    var b' := Do(plan, b, s);
    forall p | Invoiced(plan, b, p) ensures Invoiced(plan, b', p) {
    }
  }

  lemma RollKeeps(plan: Plan, start: int, b: Books, k: nat)
    requires InOrder(plan, start, b, k)
    ensures var b' := Do(plan, b, Roll); InOrder(plan, start, b', if b'.period == b.period then k else k + 1)
  {
    hide CloseInvoice, Units;
    var b' := Do(plan, b, Roll);
    assert forall p :: Invoiced(plan, b, p) ==> Invoiced(plan, b', p);
    if b'.period != b.period {
      NextIsNth(start, k);
      forall i | 0 <= i < |b.usage| ensures b.usage[i].period != b'.period {
        var j :| 0 <= j <= k && b.usage[i].period == Nth(start, j);
        NthOrder(start, j, k + 1);
      }
      NoUnits(b.usage, b'.period);
      forall p | p in b.invoices ensures p != b'.period {
        var j :| 0 <= j <= k && p == Nth(start, j);
        NthOrder(start, j, k + 1);
      }
    }
  }

  lemma NextIsNth(start: int, k: nat)
    ensures Next(Nth(start, k)) == Nth(start, k + 1)
  {
  }

  /**
   * Over any history of clock ticks, repeated metering calls and period closes cut off anywhere, every closed period
   * has one invoice, computed from exactly the units metered in it, and no other period has one except a current
   * period that has ended.
   */
  lemma {:induction false} EveryHistoryInOrder(plan: Plan, start: int, steps: seq<Step>) returns (k: nat)
    ensures InOrder(plan, start, Replay(plan, start, steps), k)
  {
    hide InOrder, Do;
    if |steps| == 0 {
      k := 0;
      OpenInOrder(plan, start);
    } else {
      var before := steps[..|steps| - 1];
      k := EveryHistoryInOrder(plan, start, before);
      var b := Replay(plan, start, before);
      match steps[|steps| - 1]
      case Tick(ms) => TickKeeps(plan, start, b, k, ms);
      case Meter(run, started, event) =>
        if started {
          MeterKeeps(plan, start, b, k, run, event);
        } else {
          NeverStarted(plan, b, run, event);
        }
      case Roll =>
        RollKeeps(plan, start, b, k);
        k := if Do(plan, b, Roll).period == b.period then k else k + 1;
      case Select => CloserKeeps(plan, start, b, k, Select);
      case WriteInvoice => CloserKeeps(plan, start, b, k, WriteInvoice);
      case Crash => CloserKeeps(plan, start, b, k, Crash);
    }
  }

  lemma OpenInOrder(plan: Plan, start: int)
    ensures InOrder(plan, start, Open(start), 0)
  {
  }

  lemma NeverStarted(plan: Plan, b: Books, run: nat, event: EventType)
    ensures Do(plan, b, Meter(run, false, event)) == b
  {
  }

  // --- Conservation -------------------------------------------------------------------------------

  /** Usage events written after their period had ended and before it was rolled. */
  function Missed(usage: seq<Usage>): nat {
    if |usage| == 0 then 0 else Missed(usage[..|usage| - 1]) + if Counted(usage[|usage| - 1]) then 0 else 1
  }

  function UnitsOfFirst(usage: seq<Usage>, start: int, n: nat): nat {
    if n == 0 then 0 else UnitsOfFirst(usage, start, n - 1) + Units(usage, Nth(start, n - 1))
  }

  lemma {:induction false} FirstUnitsStep(usage: seq<Usage>, start: int, n: nat, j: nat)
    requires |usage| > 0 && usage[|usage| - 1].period == Nth(start, j)
    ensures UnitsOfFirst(usage, start, n) ==
            UnitsOfFirst(usage[..|usage| - 1], start, n) + if j < n && Counted(usage[|usage| - 1]) then 1 else 0
  {
    hide Nth, Counted;
    if n > 0 {
      FirstUnitsStep(usage, start, n - 1, j);
      if n - 1 < j {
        NthOrder(start, n - 1, j);
        NthLength(start, n - 1);
      } else if j < n - 1 {
        NthOrder(start, j, n - 1);
        NthLength(start, j);
      }
    }
  }

  lemma NthLength(start: int, k: nat)
    ensures Nth(start, k).start < Nth(start, k).end
  {
  }

  lemma {:induction false} UsageIsSplit(usage: seq<Usage>, start: int, k: nat)
    requires forall i :: 0 <= i < |usage| ==> InChain(usage[i].period, start, k)
    ensures |usage| == UnitsOfFirst(usage, start, k + 1) + Missed(usage)
  {
    hide Nth, Units;
    if |usage| == 0 {
      NoFirstUnits(start, k + 1);
    } else {
      var before := usage[..|usage| - 1];
      assert forall i :: 0 <= i < |before| ==> before[i] == usage[i];
      UsageIsSplit(before, start, k);
      var j :| 0 <= j <= k && usage[|usage| - 1].period == Nth(start, j);
      FirstUnitsStep(usage, start, k + 1, j);
    }
  }

  lemma {:induction false} NoFirstUnits(start: int, n: nat)
    ensures UnitsOfFirst([], start, n) == 0
  {
    if n > 0 {
      NoFirstUnits(start, n - 1);
    }
  }

  /**
   * Every usage event is in exactly one of three places: the invoice of its closed period, the counter of the open
   * one, or missed. It is missed exactly when it was written at or after the end of the period its subscription was
   * still in.
   */
  lemma UnitsAreConserved(plan: Plan, start: int, steps: seq<Step>) returns (k: nat)
    ensures var b := Replay(plan, start, steps);
            && InOrder(plan, start, b, k)
            && |b.usage| == UnitsOfFirst(b.usage, start, k) + b.consumed + Missed(b.usage)
            && forall i :: 0 <= i < |b.usage| ==> (Counted(b.usage[i]) <==> b.usage[i].at < b.usage[i].period.end)
  {
    hide Replay, CloseInvoice, Units;
    k := EveryHistoryInOrder(plan, start, steps);
    var b := Replay(plan, start, steps);
    UsageIsSplit(b.usage, start, k);
  }

  // --- A run is counted once for each kind of terminal event ------------------------------------

  ghost predicate OneEach(usage: seq<Usage>) {
    forall i, j :: 0 <= i < j < |usage| ==> usage[i].run != usage[j].run || usage[i].event != usage[j].event
  }

  lemma {:induction false} OncePerEvent(plan: Plan, start: int, steps: seq<Step>)
    ensures OneEach(Replay(plan, start, steps).usage)
  {
    hide Do;
    if |steps| > 0 {
      OncePerEvent(plan, start, steps[..|steps| - 1]);
      var b := Replay(plan, start, steps[..|steps| - 1]);
      DoOnce(plan, b, steps[|steps| - 1]);
      var u := Do(plan, b, steps[|steps| - 1]).usage;
      if u != b.usage {
        forall i, j | 0 <= i < j < |u| ensures u[i].run != u[j].run || u[i].event != u[j].event {
          assert u[i] == b.usage[i];
          assert j < |b.usage| ==> u[j] == u[..|b.usage|][j];
        }
      }
    }
  }

  lemma DoOnce(plan: Plan, b: Books, s: Step)
    ensures var u := Do(plan, b, s).usage;
            u == b.usage || (|u| == |b.usage| + 1 && u[..|b.usage|] == b.usage && !Billed(b.usage, u[|b.usage|].run, u[|b.usage|].event))
  {
  }

  /** The metering calls of a history are exactly what its usage rows record: each kind of event of a started run, once. */
  lemma {:induction false} BilledIffMetered(plan: Plan, start: int, steps: seq<Step>, run: nat, event: EventType)
    ensures Billed(Replay(plan, start, steps).usage, run, event) <==> Meter(run, true, event) in steps
  {
    hide Do, Billed;
    if |steps| == 0 {
      NothingBilled(run, event);
    } else {
      var before, s := steps[..|steps| - 1], steps[|steps| - 1];
      BilledIffMetered(plan, start, before, run, event);
      DoBills(plan, Replay(plan, start, before), s, run, event);
      assert steps == before + [s];
    }
  }

  lemma NothingBilled(run: nat, event: EventType)
    ensures !Billed([], run, event)
  {
  }

  lemma DoBills(plan: Plan, b: Books, s: Step, run: nat, event: EventType)
    ensures Billed(Do(plan, b, s).usage, run, event) <==> Billed(b.usage, run, event) || s == Meter(run, true, event)
  {
    var u, u' := b.usage, Do(plan, b, s).usage;
    DoOnce(plan, b, s);
    if u' != u {
      assert u' == u + [u'[|u|]];
      assert Billed(u', s.run, s.event) by {
        assert u'[|u|].run == s.run && u'[|u|].event == s.event;
      }
      if Billed(u, run, event) {
        var i :| 0 <= i < |u| && u[i].run == run && u[i].event == event;
        assert u'[i] == u[i];
      }
      if Billed(u', run, event) {
        var i :| 0 <= i < |u'| && u'[i].run == run && u'[i].event == event;
        assert i < |u| ==> u[i] == u'[i];
      }
    }
  }

  /** How many usage rows a run has. */
  function RowsOf(usage: seq<Usage>, run: nat): nat {
    if |usage| == 0 then 0 else
    RowsOf(usage[..|usage| - 1], run) + if usage[|usage| - 1].run == run then 1 else 0
  }

  ghost function KindsOf(usage: seq<Usage>, run: nat): set<EventType> {
    set event: EventType | Billed(usage, run, event)
  }

  lemma KindsGrow(usage: seq<Usage>, run: nat)
    requires OneEach(usage) && |usage| > 0
    ensures var before, last := usage[..|usage| - 1], usage[|usage| - 1];
            |KindsOf(usage, run)| == |KindsOf(before, run)| + if last.run == run then 1 else 0
  {
    hide OneEach, Billed;
    var before, last := usage[..|usage| - 1], usage[|usage| - 1];
    forall event ensures Billed(usage, run, event) <==> Billed(before, run, event) || (last.run == run && last.event == event) {
      LastBills(usage, run, event);
    }
    if last.run == run {
      NewKind(usage);
      assert KindsOf(usage, run) == KindsOf(before, run) + {last.event};
    } else {
      assert KindsOf(usage, run) == KindsOf(before, run);
    }
  }

  lemma LastBills(usage: seq<Usage>, run: nat, event: EventType)
    requires |usage| > 0
    ensures var before, last := usage[..|usage| - 1], usage[|usage| - 1];
            Billed(usage, run, event) <==> Billed(before, run, event) || (last.run == run && last.event == event)
  {
    var before := usage[..|usage| - 1];
    if Billed(before, run, event) {
      var i :| 0 <= i < |before| && before[i].run == run && before[i].event == event;
      assert usage[i].run == run;
    }
    if Billed(usage, run, event) {
      var i :| 0 <= i < |usage| && usage[i].run == run && usage[i].event == event;
      assert i < |before| ==> before[i] == usage[i];
    }
  }

  lemma NewKind(usage: seq<Usage>)
    requires OneEach(usage) && |usage| > 0
    ensures var before, last := usage[..|usage| - 1], usage[|usage| - 1];
            !Billed(before, last.run, last.event)
  {
    var before := usage[..|usage| - 1];
    assert forall i :: 0 <= i < |before| ==> before[i] == usage[i];
  }

  lemma {:induction false} RowsAreKinds(usage: seq<Usage>, run: nat)
    requires OneEach(usage)
    ensures RowsOf(usage, run) == |KindsOf(usage, run)|
  {
    if |usage| == 0 {
      assert KindsOf(usage, run) == {};
    } else {
      var before, last := usage[..|usage| - 1], usage[|usage| - 1];
      assert forall i :: 0 <= i < |before| ==> before[i] == usage[i];
      RowsAreKinds(before, run);
      KindsGrow(usage, run);
    }
  }

  /**
   * A run is counted once exactly when some metering call found it started and all such calls carry one kind of
   * event; with a second kind, which the unguarded status writes allow, it is counted again.
   */
  lemma CountedOnceIffOneKind(plan: Plan, start: int, steps: seq<Step>, run: nat)
    ensures var u := Replay(plan, start, steps).usage;
            RowsOf(u, run) == 1 <==>
            exists event :: Meter(run, true, event) in steps && forall other :: Meter(run, true, other) in steps ==> other == event
    ensures var u := Replay(plan, start, steps).usage;
            forall e, e' :: e != e' && Meter(run, true, e) in steps && Meter(run, true, e') in steps ==> RowsOf(u, run) >= 2
  {
    hide *;
    var u := Replay(plan, start, steps).usage;
    OncePerEvent(plan, start, steps);
    RowsAreKinds(u, run);
    KindsAreMetered(plan, start, steps, run);
    OneOrMore(KindsOf(u, run));
  }

  lemma KindsAreMetered(plan: Plan, start: int, steps: seq<Step>, run: nat)
    ensures forall event :: event in KindsOf(Replay(plan, start, steps).usage, run) <==> Meter(run, true, event) in steps
  {
    hide Do, Billed;
    forall event ensures event in KindsOf(Replay(plan, start, steps).usage, run) <==> Meter(run, true, event) in steps {
      BilledIffMetered(plan, start, steps, run, event);
    }
  }

  lemma OneOrMore(kinds: set<EventType>)
    ensures |kinds| == 1 <==> exists e :: e in kinds && forall other :: other in kinds ==> other == e
    ensures forall e, e' :: e != e' && e in kinds && e' in kinds ==> |kinds| >= 2
  {
    forall e, e' | e != e' && e in kinds && e' in kinds ensures |kinds| >= 2 {
      TwoMembers(kinds, e, e');
    }
    if |kinds| == 1 {
      var e :| e in kinds;
      assert forall other :: other in kinds ==> other == e;
    }
    if e :| e in kinds && forall other :: other in kinds ==> other == e {
      OneMember(kinds, e);
    }
  }

  lemma TwoMembers(kinds: set<EventType>, e: EventType, e': EventType)
    requires e != e' && e in kinds && e' in kinds
    ensures |kinds| >= 2
  {
    assert |kinds - {e}| == |kinds| - 1 && e' in kinds - {e};
  }

  lemma OneMember(kinds: set<EventType>, e: EventType)
    requires e in kinds && forall other :: other in kinds ==> other == e
    ensures |kinds| == 1
  {
    assert kinds == {e};
  }
}
