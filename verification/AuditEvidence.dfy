/** What a verifying audit chain proves about the log it came from, and about its whole history. */
module AuditEvidence {
  import opened Utf16
  import opened SortedEntries
  import opened CanonicalJson
  import opened JsonDecoder
  import opened JsonAgreement
  import opened JsonScan
  import opened AuditChain

  /** Two rows record the same event at the same place, up to what canonical JSON forgets in the metadata. */
  ghost predicate SameContent(a: Row, b: Row) {
    && a.num == b.num && a.prev == b.prev && a.event.actor == b.event.actor && a.event.action == b.event.action
    && a.event.entityType == b.event.entityType && a.event.entityId == b.event.entityId
    && Norm(Object(a.event.metadata)) == Norm(Object(b.event.metadata))
  }

  lemma InputKeys(workspace: Text, num: SafeInt, prev: Text, e: Event)
    ensures OwnKeys(HashInput(workspace, num, prev, e))
  {
    var ms := HashInput(workspace, num, prev, e);
    assert |ms[0].key| == 12 && ms[0].key[0] == 'w' as int && |ms[1].key| == 12 && ms[1].key[0] == 's' as int;
    assert |ms[2].key| == 8 && ms[2].key[0] == 'a' as int && |ms[6].key| == 8 && ms[6].key[0] == 'm' as int;
    assert |ms[5].key| == 9 && ms[5].key[0] == 'e' as int && |ms[7].key| == 9 && ms[7].key[0] == 'p' as int;
    assert |ms[3].key| == 6 && |ms[4].key| == 11;
  }

  /** Objects with the same distinct keys, no undefined members and the same normal form agree member by member. */
  lemma MembersEqual(a: seq<Member>, b: seq<Member>, i: nat)
    requires OwnKeys(a) && |a| == |b| && i < |a|
    requires forall j :: 0 <= j < |a| ==> a[j].key == b[j].key && !a[j].value.Undefined? && !b[j].value.Undefined?
    requires Norm(Object(a)) == Norm(Object(b))
    ensures Norm(a[i].value) == Norm(b[i].value)
  {
    hide Norm;
    ObjectsNormEqual(a, b);
    NormHas(a, i);
    var j := NormHolds(b, (a[i].key, Norm(a[i].value)));
  }

  lemma InputBindsContent(workspace: Text, a: Row, b: Row)
    requires Norm(Object(HashInput(workspace, a.num, a.prev, a.event))) == Norm(Object(HashInput(workspace, b.num, b.prev, b.event)))
    ensures SameContent(a, b)
  {
    hide Ascii, NormEntries, NormItems, Sort, MembersOf, OwnKeys;
    var x, y := HashInput(workspace, a.num, a.prev, a.event), HashInput(workspace, b.num, b.prev, b.event);
    InputKeys(workspace, a.num, a.prev, a.event);
    assert |x| == 8 && |y| == 8;
    MembersEqual(x, y, 1);
    MembersEqual(x, y, 2);
    MembersEqual(x, y, 3);
    MembersEqual(x, y, 4);
    MembersEqual(x, y, 5);
    MembersEqual(x, y, 6);
    MembersEqual(x, y, 7);
  }

  /** What is hashed, a link and an object text after it, can be split in one way only. */
  lemma HashInputSplits(p: Text, x: seq<Member>, q: Text, y: seq<Member>)
    requires p + Canonical(Object(x)) == q + Canonical(Object(y))
    ensures p == q && Norm(Object(x)) == Norm(Object(y))
  {
    hide Canonical, Write, Settled, NormEntries, Sort;
    CanonicalIsWrittenNorm(Object(x));
    CanonicalIsWrittenNorm(Object(y));
    NormIsSettled(Object(x));
    NormIsSettled(Object(y));
    SplitsOneWay(p, Norm(Object(x)).members, q, Norm(Object(y)).members);
    EncodesEquallyIffNormsEqual(Object(x), Object(y));
  }

  /** Rows that hash alike record the same thing, whatever their links look like. */
  lemma HashBindsContent(h: Hash, workspace: Text, a: Row, b: Row)
    requires Injective(h)
    requires ContentHash(h, workspace, a.num, a.prev, a.event) == ContentHash(h, workspace, b.num, b.prev, b.event)
    ensures SameContent(a, b)
  {
    hide HashInput, Canonical, Norm, SameContent;
    var x, y := HashInput(workspace, a.num, a.prev, a.event), HashInput(workspace, b.num, b.prev, b.event);
    assert a.prev + Canonical(Object(x)) == b.prev + Canonical(Object(y));
    HashInputSplits(a.prev, x, b.prev, y);
    InputBindsContent(workspace, a, b);
  }

  /**
   * Two verifying lists of rows with the same newest hash agree row by row, from the newest back over the shorter
   * list: whoever keeps one hash can tell any later change to the rows before it.
   */
  lemma {:induction false} NewestHashBindsHistory(h: Hash, workspace: Text, a: seq<Row>, b: seq<Row>, k: nat)
    requires Injective(h) && ChainOk(h, workspace, a) && ChainOk(h, workspace, b)
    requires k < |a| && k < |b| && a[|a| - 1].hash == b[|b| - 1].hash
    ensures SameContent(a[|a| - 1 - k], b[|b| - 1 - k]) && a[|a| - 1 - k].hash == b[|b| - 1 - k].hash
  {
    hide ContentHash, Injective;
    var i, j := |a| - 1 - k, |b| - 1 - k;
    if k > 0 {
      NewestHashBindsHistory(h, workspace, a, b, k - 1);
      assert RowOk(h, workspace, a, i + 1) && RowOk(h, workspace, b, j + 1);
    }
    assert RowOk(h, workspace, a, i) && RowOk(h, workspace, b, j);
    HashBindsContent(h, workspace, a[i], b[j]);
  }

  // --- No row can be left out -------------------------------------------------------------------

  /** `picked` are the positions, in order, of the rows of `part` in `rows`. */
  ghost predicate Picks(rows: seq<Row>, part: seq<Row>, picked: seq<nat>) {
    && |picked| == |part|
    && (forall i :: 0 <= i < |part| ==> picked[i] < |rows| && part[i] == rows[picked[i]])
    && (forall i :: 0 < i < |picked| ==> picked[i - 1] < picked[i])
  }

  /** Rows taken from a log in order verify only if they are neighbours there: none is missing in between. */
  lemma VerifyingPartIsContiguous(h: Hash, workspace: Text, rows: seq<Row>, part: seq<Row>, picked: seq<nat>, i: nat)
    requires Injective(h) && Log(h, workspace, rows)
    requires Picks(rows, part, picked) && ChainOk(h, workspace, part) && 0 < i < |part|
    ensures picked[i] == picked[i - 1] + 1
  {
    hide ContentHash, Injective;
    var at, before := picked[i], picked[i - 1];
    assert RowOk(h, workspace, part, i);
    assert RowOk(h, workspace, rows, at) && RowOk(h, workspace, rows, at - 1) && RowOk(h, workspace, rows, before);
    HashBindsContent(h, workspace, rows[at - 1], rows[before]);
    Numbered(rows, at - 1);
    Numbered(rows, before);
  }

  // --- Histories -----------------------------------------------------------------------------------

  datatype Op = Emitting(e: Event, now: int) | Purging(cutoff: int)

  function Step(h: Hash, workspace: Text, jsonb: seq<Member> -> seq<Member>, rows: seq<Row>, op: Op): seq<Row> {
    match op
    case Emitting(e, now) =>
      if 0 < NextNum(rows) < 0x20_0000_0000_0000 then Append(h, workspace, jsonb, rows, e, now) else rows
    case Purging(cutoff) => Retained(rows, cutoff)
  }

  function Replay(h: Hash, workspace: Text, jsonb: seq<Member> -> seq<Member>, ops: seq<Op>): seq<Row> {
    if |ops| == 0 then [] else Step(h, workspace, jsonb, Replay(h, workspace, jsonb, ops[..|ops| - 1]), ops[|ops| - 1])
  }

  /** The time of the last event, if any; events come in the order of the clock. */
  ghost predicate InClockOrder(ops: seq<Op>) {
    forall i, j :: 0 <= i < j < |ops| && ops[i].Emitting? && ops[j].Emitting? ==> ops[i].now <= ops[j].now
  }

  /** The rows of a history are a log, whose events come from the history. */
  lemma {:induction false} EveryHistoryIsALog(h: Hash, workspace: Text, jsonb: seq<Member> -> seq<Member>, ops: seq<Op>)
    requires Faithful(jsonb) && InClockOrder(ops)
    ensures var rows := Replay(h, workspace, jsonb, ops);
            Log(h, workspace, rows) && forall r :: r in rows ==> exists i :: 0 <= i < |ops| && ops[i].Emitting? && ops[i].now == r.createdAt
  {
    hide Faithful, ChainOk, ContentHash, Append;
    EmptyLog(h, workspace);
    if |ops| > 0 {
      var before := ops[..|ops| - 1];
      EveryHistoryIsALog(h, workspace, jsonb, before);
      var rows := Replay(h, workspace, jsonb, before);
      var after := Replay(h, workspace, jsonb, ops);
      forall r | r in rows ensures exists i :: 0 <= i < |ops| - 1 && ops[i].Emitting? && ops[i].now == r.createdAt {
        var i :| 0 <= i < |before| && before[i].Emitting? && before[i].now == r.createdAt;
        assert ops[i] == before[i];
      }
      match ops[|ops| - 1]
      case Emitting(e, now) =>
        if 0 < NextNum(rows) < 0x20_0000_0000_0000 {
          if |rows| > 0 {
            assert rows[|rows| - 1] in rows;
          }
          AppendKeepsLog(h, workspace, jsonb, rows, e, now);
          AppendAddsOne(h, workspace, jsonb, rows, e, now);
        }
      case Purging(cutoff) =>
        var k := RetainedIsSuffix(rows, cutoff);
        SuffixKeepsLog(h, workspace, rows, k);
        assert forall r :: r in after ==> r in rows;
    }
  }

  lemma EmptyLog(h: Hash, workspace: Text)
    ensures Log(h, workspace, [])
  {
  }

  lemma AppendAddsOne(h: Hash, workspace: Text, jsonb: seq<Member> -> seq<Member>, rows: seq<Row>, e: Event, now: int)
    requires 0 < NextNum(rows) < 0x20_0000_0000_0000
    ensures var after := Append(h, workspace, jsonb, rows, e, now);
            |after| == |rows| + 1 && after[..|rows|] == rows && after[|rows|].createdAt == now && after[|rows|].num == NextNum(rows)
    ensures forall r :: r in Append(h, workspace, jsonb, rows, e, now) ==> r in rows || r.createdAt == now
  {
    hide ContentHash;
  }

  /** How many events have been appended since the log was last empty. */
  function SinceEmpty(h: Hash, workspace: Text, jsonb: seq<Member> -> seq<Member>, ops: seq<Op>): nat {
    if |ops| == 0 then 0 else
    var n := SinceEmpty(h, workspace, jsonb, ops[..|ops| - 1]);
    if ops[|ops| - 1].Emitting? then n + 1
    else if |Replay(h, workspace, jsonb, ops)| == 0 then 0
    else n
  }

  /**
   * The newest number counts the events since the log was last empty, so numbers never restart as long as no purge
   * empties the log, and restart at 1 after one that does.
   */
  lemma {:induction false} NumbersCountSinceEmpty(h: Hash, workspace: Text, jsonb: seq<Member> -> seq<Member>, ops: seq<Op>)
    requires Faithful(jsonb) && InClockOrder(ops) && |ops| < 0x20_0000_0000_0000
    ensures SinceEmpty(h, workspace, jsonb, ops) <= |ops|
    ensures NextNum(Replay(h, workspace, jsonb, ops)) == SinceEmpty(h, workspace, jsonb, ops) + 1
  {
    hide Faithful, ChainOk, ContentHash, Append, Log;
    if |ops| > 0 {
      var before := ops[..|ops| - 1];
      NumbersCountSinceEmpty(h, workspace, jsonb, before);
      EveryHistoryIsALog(h, workspace, jsonb, before);
      var rows := Replay(h, workspace, jsonb, before);
      match ops[|ops| - 1]
      case Emitting(e, now) => AppendAddsOne(h, workspace, jsonb, rows, e, now);
      case Purging(cutoff) => PurgeKeepsNewest(h, workspace, rows, cutoff);
    }
  }

  lemma PurgeKeepsNewest(h: Hash, workspace: Text, rows: seq<Row>, cutoff: int)
    requires Log(h, workspace, rows)
    ensures |rows| == 0 ==> |Retained(rows, cutoff)| == 0
    ensures |Retained(rows, cutoff)| > 0 ==> NextNum(Retained(rows, cutoff)) == NextNum(rows)
  {
    hide ChainOk;
    var k := RetainedIsSuffix(rows, cutoff);
  }

  /** Contrary to the comment in the code, numbers do reset: two events around a complete purge both get number 1. */
  lemma CompletePurgeResets(h: Hash, workspace: Text, jsonb: seq<Member> -> seq<Member>, e: Event)
    ensures var ops := [Emitting(e, 0), Purging(1), Emitting(e, 2)];
            && |Replay(h, workspace, jsonb, ops[..1])| == 1 && Replay(h, workspace, jsonb, ops[..1])[0].num == 1
            && |Replay(h, workspace, jsonb, ops)| == 1 && Replay(h, workspace, jsonb, ops)[0].num == 1
  {
    hide ContentHash;
    var ops := [Emitting(e, 0), Purging(1), Emitting(e, 2)];
    assert ops[..1][..0] == [] && ops[..2][..1] == ops[..1] && ops[..3] == ops && ops[..|ops| - 1] == ops[..2];
    var one := Replay(h, workspace, jsonb, ops[..1]);
    assert |one| == 1 && one[0].num == 1 && one[0].createdAt == 0;
    assert Retained(one[1..], 1) == [];
    assert Replay(h, workspace, jsonb, ops[..2]) == Retained(one, 1) == [];
  }
}
