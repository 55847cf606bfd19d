/** The outbox dispatcher: claim, send, retry and give up on one row, by any number of dispatchers that may crash. */
module Dispatcher {

  const BACKOFF_MS: seq<nat> := [30_000, 120_000, 600_000, 3_600_000, 21_600_000]
  const MAX_ATTEMPTS := 6
  const RECLAIM_MS := 60_000

  /** `nextRetryDelayMs`. */
  function NextRetryDelay(failedAttempts: int): nat {
    var capped := if failedAttempts - 1 < |BACKOFF_MS| - 1 then failedAttempts - 1 else |BACKOFF_MS| - 1;
    BACKOFF_MS[if capped > 0 then capped else 0]
  }

  datatype Status = Pending | Sending | Sent | Failed

  datatype Row = Row(status: Status, attempts: nat, nextRetryAt: int, updatedAt: int)

  type DispatcherId = nat

  /** What a dispatcher returned from its claim: the attempts then, and when. */
  datatype Held = Held(attempts: nat, at: int)

  /** The row, the dispatchers in the middle of sending it, and the times at which a send was recorded as failed. */
  datatype Outbox = Outbox(now: int, row: Row, holders: map<DispatcherId, Held>, failures: seq<int>)

  datatype Step =
    | Clock(ms: nat)
    | Reclaim
    | Claim(d: DispatcherId)
    | SendOk(d: DispatcherId)
    | SendFail(d: DispatcherId)
    | Crash(d: DispatcherId)

  function Do(o: Outbox, s: Step): Outbox {
    match s
    case Clock(ms) => o.(now := o.now + ms)
    case Reclaim =>
      if o.row.status.Sending? && o.row.updatedAt < o.now - RECLAIM_MS
      then o.(row := o.row.(status := Pending, nextRetryAt := o.now, updatedAt := o.now))
      else o
    case Claim(d) =>
      if o.row.status.Pending? && o.row.nextRetryAt <= o.now && d !in o.holders
      then o.(row := o.row.(status := Sending, updatedAt := o.now), holders := o.holders[d := Held(o.row.attempts, o.now)])
      else o
    case SendOk(d) =>
      if d in o.holders then o.(row := o.row.(status := Sent, updatedAt := o.now), holders := o.holders - {d}) else o
    case SendFail(d) =>
      if d !in o.holders then o else
      var attempts := o.holders[d].attempts + 1;
      var o' := o.(holders := o.holders - {d}, failures := o.failures + [o.now]);
      var row := o.row.(attempts := o.row.attempts + 1, updatedAt := o.now);
      if attempts >= MAX_ATTEMPTS then o'.(row := row.(status := Failed))
      else o'.(row := row.(status := Pending, nextRetryAt := o.now + NextRetryDelay(attempts)))
    case Crash(d) => o.(holders := o.holders - {d})
  }

  function Enqueued(now: int): Outbox {
    Outbox(now, Row(Pending, 0, now, now), map[], [])
  }

  function Replay(now: int, steps: seq<Step>): Outbox {
    if |steps| == 0 then Enqueued(now) else Do(Replay(now, steps[..|steps| - 1]), steps[|steps| - 1])
  }

  /** A send that ends, ends within the reclaim window of its claim. */
  predicate InTime(o: Outbox, s: Step) {
    (s.SendOk? || s.SendFail?) && s.d in o.holders ==> o.now <= o.holders[s.d].at + RECLAIM_MS
  }

  ghost predicate AllInTime(now: int, steps: seq<Step>) {
    forall i :: 0 <= i < |steps| ==> InTime(Replay(now, steps[..i]), steps[i])
  }

  /** A dispatcher holds the row by its last claim, or its window is over. */
  predicate LiveOrLate(o: Outbox, d: DispatcherId)
    requires d in o.holders
  {
    var h := o.holders[d];
    o.now > h.at + RECLAIM_MS || (o.row.status.Sending? && o.row.updatedAt == h.at && o.row.attempts == h.attempts)
  }

  predicate Late(o: Outbox, d: DispatcherId)
    requires d in o.holders
  {
    o.now > o.holders[d].at + RECLAIM_MS
  }

  /** Consecutive failures are at least a step of the ladder apart, and the row waits out the current one. */
  ghost predicate Spaced(o: Outbox) {
    var n := |o.failures|;
    && n <= MAX_ATTEMPTS
    && (forall i :: 0 < i < n ==> o.failures[i] >= o.failures[i - 1] + BACKOFF_MS[i - 1])
    && (0 < n < MAX_ATTEMPTS && o.row.status.Pending? ==> o.row.nextRetryAt >= o.failures[n - 1] + BACKOFF_MS[n - 1])
    && (0 < n < MAX_ATTEMPTS && o.row.status.Sending? ==> o.row.updatedAt >= o.failures[n - 1] + BACKOFF_MS[n - 1])
  }

  ghost predicate InOrder(o: Outbox) {
    && o.row.updatedAt <= o.now
    && o.row.attempts == |o.failures|
    && (o.row.status.Failed? <==> |o.failures| == MAX_ATTEMPTS)
    && (forall d :: d in o.holders ==> LiveOrLate(o, d))
    && (forall d, d' :: d in o.holders && d' in o.holders && d != d' ==> Late(o, d) || Late(o, d'))
    && Spaced(o)
  }

  lemma StepInOrder(o: Outbox, s: Step)
    requires InOrder(o) && InTime(o, s)
    ensures InOrder(Do(o, s))
  {
  }

  /**
   * For any number of dispatchers and crashes, if every send that ends does so within a minute of its claim: the row
   * counts the failed sends, and it is given up exactly when six have failed.
   */
  lemma {:induction false} FailedMeansSixFailures(now: int, steps: seq<Step>)
    requires AllInTime(now, steps)
    ensures InOrder(Replay(now, steps))
  {
    hide Do, InOrder, InTime;
    if |steps| == 0 {
      EnqueuedInOrder(now);
    } else {
      var k := |steps| - 1;
      assert InTime(Replay(now, steps[..k]), steps[k]);
      assert AllInTime(now, steps[..k]) by {
        forall i | 0 <= i < k ensures InTime(Replay(now, steps[..k][..i]), steps[..k][i]) {
          assert steps[..k][..i] == steps[..i];
          assert InTime(Replay(now, steps[..i]), steps[i]);
        }
      }
      FailedMeansSixFailures(now, steps[..k]);
      StepInOrder(Replay(now, steps[..k]), steps[k]);
    }
  }

  lemma EnqueuedInOrder(now: int)
    ensures InOrder(Enqueued(now))
  {
  }

  /** A row that is sent or given up is never touched again. */
  lemma SettledStays(o: Outbox, s: Step)
    requires InOrder(o) && InTime(o, s) && (o.row.status.Sent? || o.row.status.Failed?)
    ensures Do(o, s).row == o.row && Do(o, s).failures == o.failures
  {
  }

  /** Giving up takes at least 25,950 seconds from the first failure. */
  lemma GivingUpTakesLong(now: int, steps: seq<Step>)
    requires AllInTime(now, steps) && Replay(now, steps).row.status.Failed?
    ensures var f := Replay(now, steps).failures;
            |f| == MAX_ATTEMPTS && f[MAX_ATTEMPTS - 1] - f[0] >= 25_950_000
  {
    hide Replay, Do;
    FailedMeansSixFailures(now, steps);
    var f := Replay(now, steps).failures;
    assert f[1] >= f[0] + BACKOFF_MS[0] && f[2] >= f[1] + BACKOFF_MS[1] && f[3] >= f[2] + BACKOFF_MS[2];
    assert f[4] >= f[3] + BACKOFF_MS[3] && f[5] >= f[4] + BACKOFF_MS[4];
  }

  /** How long the row waits after its first, second, third, fourth and fifth failure, in seconds. */
  const WAITS: seq<int> := [30, 120, 600, 3600, 21600]

  /**
   * When a failure is recorded, the `k`-th of the row makes it due again exactly half a minute, two minutes, ten minutes,
   * one hour and six hours later, and the sixth gives it up.
   */
  lemma RetryWaits(now: int, steps: seq<Step>, d: DispatcherId)
    requires AllInTime(now, steps + [SendFail(d)]) && d in Replay(now, steps).holders
    ensures var o, o' := Replay(now, steps), Replay(now, steps + [SendFail(d)]);
            var k := |o'.failures|;
            && k == |o.failures| + 1 && 1 <= k <= 6 && o'.failures[k - 1] == o.now
            && (k < 6 ==> o'.row.status == Pending && o'.row.nextRetryAt == o.now + 1000 * WAITS[k - 1])
            && (k == 6 ==> o'.row.status == Failed)
  {
    hide Do, InOrder;
    var all := steps + [SendFail(d)];
    assert all[..|steps|] == steps;
    assert InTime(Replay(now, steps), all[|steps|]) by {
      assert all[..|steps|] == steps;
    }
    assert AllInTime(now, steps) by {
      forall i | 0 <= i < |steps| ensures InTime(Replay(now, steps[..i]), steps[i]) {
        assert all[..i] == steps[..i] && all[i] == steps[i];
        assert InTime(Replay(now, all[..i]), all[i]);
      }
    }
    FailedMeansSixFailures(now, steps);
    FailureWaits(Replay(now, steps), d);
  }

  /** A dispatcher in time holds the row by its last claim, so it has counted all its failures. */
  lemma FailureWaits(o: Outbox, d: DispatcherId)
    requires InOrder(o) && d in o.holders && InTime(o, SendFail(d))
    ensures var o' := Do(o, SendFail(d));
            var k := |o.failures| + 1;
            && o'.failures == o.failures + [o.now] && k <= 6
            && (k < 6 ==> o'.row.status == Pending && o'.row.nextRetryAt == o.now + 1000 * WAITS[k - 1])
            && (k == 6 ==> o'.row.status == Failed)
  {
  }

  predicate Settled(o: Outbox) {
    o.row.status.Sent? || o.row.status.Failed?
  }

  /**
   * The status writes carry no guard: a settled row is touched exactly when a dispatcher that still holds a claim
   * ends its send, unless that writes what is there. Under the window no such dispatcher is in time.
   */
  lemma SettledTouchedIff(o: Outbox, s: Step)
    requires Settled(o)
    ensures Do(o, s).row != o.row <==>
            || (s.SendFail? && s.d in o.holders)
            || (s.SendOk? && s.d in o.holders && !(o.row.status.Sent? && o.row.updatedAt == o.now))
    ensures InOrder(o) ==> forall d :: d in o.holders ==> Late(o, d)
  {
  }

  /** A late failure reopens a settled row, unless the sender has counted five failures before: then it gives the row up. */
  lemma LateFailureReopens(o: Outbox, d: DispatcherId)
    requires Settled(o) && d in o.holders
    ensures var o' := Do(o, SendFail(d));
            && o'.row.attempts == o.row.attempts + 1
            && (if o.holders[d].attempts < MAX_ATTEMPTS - 1 then o'.row.status.Pending? else o'.row.status.Failed?)
  {
  }

  /** It does happen: the window passes, another dispatcher sends the row, and the first one fails. */
  lemma LateFailureReopensSentRow(now: int)
    ensures var o1 := Do(Do(Do(Enqueued(now), Claim(1)), Clock(RECLAIM_MS + 1)), Reclaim);
            var o2 := Do(Do(o1, Claim(2)), SendOk(2));
            o2.row.status.Sent? && !InTime(o2, SendFail(1)) && Do(o2, SendFail(1)).row.status.Pending?
  {
  }

  /** A row is taken back exactly when it has been in sending for more than a minute; it is due at once then. */
  lemma ReclaimedAfterAMinute(o: Outbox)
    ensures Do(o, Reclaim).row ==
            if o.row.status == Sending && o.now - o.row.updatedAt > 60_000 then Row(Pending, o.row.attempts, o.now, o.now) else o.row
    ensures forall d :: Do(o, Claim(d)).holders != o.holders ==> o.row.status == Pending && o.row.nextRetryAt <= o.now
  {
  }

  // --- One sweep --------------------------------------------------------------------------------------

  class OutboxRow {
    var status: Status
    var attempts: nat
    var nextRetryAt: int
    var updatedAt: int

    constructor (now: int)
      ensures Contents() == Enqueued(now).row
    {
      status, attempts, nextRetryAt, updatedAt := Pending, 0, now, now;
    }

    function Contents(): Row
      reads this
    {
      Row(status, attempts, nextRetryAt, updatedAt)
    }

    /** `processOutboxDue` on this row by one dispatcher alone, the send taking `ms`: the steps of the protocol in order. */
    method Process(now: int, ms: nat, delivered: bool) returns (claimed: bool)
      modifies this
      ensures var o := Do(Do(Outbox(now, old(Contents()), map[], []), Reclaim), Claim(0));
              && claimed == (0 in o.holders)
              && Contents() == Do(Do(o, Clock(ms)), if delivered then SendOk(0) else SendFail(0)).row
    {
      if status.Sending? && updatedAt < now - RECLAIM_MS {
        status, nextRetryAt, updatedAt := Pending, now, now;
      }
      if !status.Pending? || nextRetryAt > now {
        return false;
      }
      status, updatedAt := Sending, now;
      var read := attempts;
      var later := now + ms;
      if delivered {
        status, updatedAt := Sent, later;
      } else if read + 1 >= MAX_ATTEMPTS {
        status, attempts, updatedAt := Failed, attempts + 1, later;
      } else {
        status, attempts, updatedAt := Pending, attempts + 1, later;
        nextRetryAt := later + NextRetryDelay(read + 1);
      }
      claimed := true;
    }
  }
}
