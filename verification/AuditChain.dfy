/** The append-only audit log: a hash chain over canonical JSON, its verification and its purge. */
module AuditChain {
  import opened Prelude
  import opened Utf16
  import opened SortedEntries
  import opened CanonicalJson
  import opened JsonDecoder

  datatype Event = Event(actor: Option<Text>, action: Text, entityType: Text, entityId: Text, metadata: seq<Member>)

  datatype Row = Row(num: SafeInt, prev: Text, hash: Text, event: Event, createdAt: int)

  /** SHA-256 as lower-case hexadecimal digits, taken as given. */
  type Hash = Text -> Text

  ghost predicate Injective(h: Hash) {
    forall s, t :: h(s) == h(t) ==> s == t
  }

  function Genesis(h: Hash): Text {
    h([])
  }

  function HashInput(workspace: Text, num: SafeInt, prev: Text, e: Event): seq<Member> {
    [Member(Ascii("workspace_id"), String(workspace)), Member(Ascii("sequence_num"), Number(num)),
     Member(Ascii("actor_id"), if e.actor.Some? then String(e.actor.value) else Null), Member(Ascii("action"), String(e.action)),
     Member(Ascii("entity_type"), String(e.entityType)), Member(Ascii("entity_id"), String(e.entityId)),
     Member(Ascii("metadata"), Object(e.metadata)), Member(Ascii("prev_hash"), String(prev))]
  }

  /** `computeAuditHash` on the fields of a row. */
  function ContentHash(h: Hash, workspace: Text, num: SafeInt, prev: Text, e: Event): Text {
    h(prev + Canonical(Object(HashInput(workspace, num, prev, e))))
  }

  // --- Verification ---------------------------------------------------------------------------------

  /** Row `i` hashes to what it records and links to the row before it; the anchor of a truncated log links to nothing. */
  predicate RowOk(h: Hash, workspace: Text, rows: seq<Row>, i: nat)
    requires i < |rows|
  {
    && rows[i].hash == ContentHash(h, workspace, rows[i].num, rows[i].prev, rows[i].event)
    && (if i > 0 then rows[i].prev == rows[i - 1].hash else rows[0].num > 1 || rows[0].prev == Genesis(h))
  }

  predicate ChainOk(h: Hash, workspace: Text, rows: seq<Row>) {
    forall i :: 0 <= i < |rows| ==> RowOk(h, workspace, rows, i)
  }

  datatype Verification = Verification(valid: bool, brokenAt: Option<int>, checkedCount: nat, truncated: bool, anchor: Option<int>)

  /** `verifyChainRows`: valid exactly when every row is in order; otherwise it names the first that is not. */
  method VerifyChainRows(h: Hash, workspace: Text, rows: seq<Row>) returns (v: Verification)
    ensures v.valid <==> ChainOk(h, workspace, rows)
    ensures v.brokenAt.Some? <==> !v.valid
    ensures !v.valid ==> exists k :: 0 <= k < |rows| && v.brokenAt == Some(rows[k].num) && !RowOk(h, workspace, rows, k) &&
                                     forall i :: 0 <= i < k ==> RowOk(h, workspace, rows, i)
    ensures v.checkedCount == |rows| && v.anchor == (if |rows| == 0 then None else Some(rows[0].num))
    ensures v.truncated <==> |rows| > 0 && rows[0].num > 1
  {
    hide ContentHash;
    if |rows| == 0 {
      return Verification(true, None, 0, false, None);
    }
    var anchor := rows[0].num;
    var truncated := anchor > 1;
    var expectedPrevHash := Genesis(h);
    var isAnchor := true;
    var n := 0;
    while n < |rows|
      invariant 0 <= n <= |rows| && isAnchor == (n == 0)
      invariant expectedPrevHash == if n == 0 then Genesis(h) else rows[n - 1].hash
      invariant forall i :: 0 <= i < n ==> RowOk(h, workspace, rows, i)
    {
      var row := rows[n];
      var linkCheckable := !(isAnchor && truncated);
      isAnchor := false;
      if linkCheckable && row.prev != expectedPrevHash {
        assert !RowOk(h, workspace, rows, n);
        return Verification(false, Some(row.num), |rows|, truncated, Some(anchor));
      }
      if ContentHash(h, workspace, row.num, row.prev, row.event) != row.hash {
        assert !RowOk(h, workspace, rows, n);
        return Verification(false, Some(row.num), |rows|, truncated, Some(anchor));
      }
      expectedPrevHash := row.hash;
      n := n + 1;
    }
    v := Verification(true, None, |rows|, truncated, Some(anchor));
  }

  // --- The log as a state machine ------------------------------------------------------------------

  /** `jsonb` storage may reorder the keys of the metadata and drop undefined members, and nothing else. */
  ghost predicate Faithful(jsonb: seq<Member> -> seq<Member>) {
    forall m :: Norm(Object(jsonb(m))) == Norm(Object(m))
  }

  function NextNum(rows: seq<Row>): int {
    if |rows| == 0 then 1 else rows[|rows| - 1].num + 1
  }

  /** `emitAuditEvent` at time `now`: the hash covers the event as given, the row holds it as stored. */
  function Append(h: Hash, workspace: Text, jsonb: seq<Member> -> seq<Member>, rows: seq<Row>, e: Event, now: int): seq<Row>
    requires NextNum(rows) < 0x20_0000_0000_0000 && NextNum(rows) > 0
  {
    var prev := if |rows| == 0 then Genesis(h) else rows[|rows| - 1].hash;
    var num: SafeInt := NextNum(rows);
    rows + [Row(num, prev, ContentHash(h, workspace, num, prev, e), e.(metadata := jsonb(e.metadata)), now)]
  }

  /** The first row is number 1 and links to the hash of the empty text, every other to the row before it. */
  lemma AppendLinks(h: Hash, workspace: Text, jsonb: seq<Member> -> seq<Member>, rows: seq<Row>, e: Event, now: int)
    requires NextNum(rows) < 0x20_0000_0000_0000 && NextNum(rows) > 0
    ensures var rows' := Append(h, workspace, jsonb, rows, e, now);
            && |rows'| == |rows| + 1 && rows'[..|rows|] == rows
            && (if |rows| == 0 then rows'[0].num == 1 && rows'[0].prev == h([])
                else rows'[|rows|].num == rows[|rows| - 1].num + 1 && rows'[|rows|].prev == rows[|rows| - 1].hash)
  {
    hide ContentHash;
  }

  /** The retention purge deletes the rows created before the cutoff. */
  function Retained(rows: seq<Row>, cutoff: int): seq<Row> {
    if |rows| == 0 then []
    else if rows[0].createdAt < cutoff then Retained(rows[1..], cutoff)
    else [rows[0]] + Retained(rows[1..], cutoff)
  }

  /** What every append and purge keeps: a chain in order, numbered without gaps, created in order. */
  ghost predicate Log(h: Hash, workspace: Text, rows: seq<Row>) {
    && ChainOk(h, workspace, rows)
    && (|rows| > 0 ==> rows[0].num > 0)
    && (forall i :: 0 < i < |rows| ==> rows[i].num == rows[i - 1].num + 1)
    && (forall i :: 0 < i < |rows| ==> rows[i - 1].createdAt <= rows[i].createdAt)
  }

  lemma StoredHash(h: Hash, workspace: Text, jsonb: seq<Member> -> seq<Member>, num: SafeInt, prev: Text, e: Event)
    requires Faithful(jsonb)
    ensures ContentHash(h, workspace, num, prev, e.(metadata := jsonb(e.metadata))) == ContentHash(h, workspace, num, prev, e)
  {
    hide Canonical, Norm, Ascii;
    var stored := e.(metadata := jsonb(e.metadata));
    var a, b := HashInput(workspace, num, prev, e), HashInput(workspace, num, prev, stored);
    assert Norm(b[6].value) == Norm(a[6].value);
    SameNormEntries(a, b);
    assert Norm(Object(a)) == Norm(Object(b)) by {
      NormOfObjects(a, b);
    }
    EncodesEquallyIffNormsEqual(Object(a), Object(b));
  }

  lemma NormOfObjects(a: seq<Member>, b: seq<Member>)
    requires NormEntries(a) == NormEntries(b)
    ensures Norm(Object(a)) == Norm(Object(b))
  {
  }

  lemma {:induction false} SameNormEntries(a: seq<Member>, b: seq<Member>)
    requires |a| == |b|
    requires forall i :: 0 <= i < |a| ==> a[i].key == b[i].key && !a[i].value.Undefined? && !b[i].value.Undefined?
    requires forall i :: 0 <= i < |a| ==> Norm(a[i].value) == Norm(b[i].value)
    ensures NormEntries(a) == NormEntries(b)
  {
    hide Norm;
    if |a| > 0 {
      SameNormEntries(a[1..], b[1..]);
    }
  }

  lemma AppendKeepsLog(h: Hash, workspace: Text, jsonb: seq<Member> -> seq<Member>, rows: seq<Row>, e: Event, now: int)
    requires Log(h, workspace, rows) && Faithful(jsonb) && 0 < NextNum(rows) < 0x20_0000_0000_0000
    requires |rows| > 0 ==> rows[|rows| - 1].createdAt <= now
    ensures Log(h, workspace, Append(h, workspace, jsonb, rows, e, now))
  {
    hide ContentHash, Faithful;
    var after := Append(h, workspace, jsonb, rows, e, now);
    var last := after[|rows|];
    StoredHash(h, workspace, jsonb, last.num, last.prev, e);
    forall i | 0 <= i < |after| ensures RowOk(h, workspace, after, i) {
      if i < |rows| {
        assert RowOk(h, workspace, rows, i);
      }
    }
  }

  /** Under a clock that does not go back, the rows a purge leaves are a suffix. */
  lemma {:induction false} RetainedIsSuffix(rows: seq<Row>, cutoff: int) returns (k: nat)
    requires forall i :: 0 < i < |rows| ==> rows[i - 1].createdAt <= rows[i].createdAt
    ensures k <= |rows| && Retained(rows, cutoff) == rows[k..]
    ensures (forall i :: 0 <= i < k ==> rows[i].createdAt < cutoff) && (forall i :: k <= i < |rows| ==> rows[i].createdAt >= cutoff)
  {
    if |rows| == 0 {
      k := 0;
    } else {
      k := RetainedIsSuffix(rows[1..], cutoff);
      if rows[0].createdAt < cutoff {
        k := k + 1;
      } else {
        if k > 0 {
          Ordered(rows, k);
        }
        assert k == 0;
      }
    }
  }

  lemma {:induction false} Ordered(rows: seq<Row>, k: nat)
    requires k < |rows| && forall i :: 0 < i < |rows| ==> rows[i - 1].createdAt <= rows[i].createdAt
    ensures rows[0].createdAt <= rows[k].createdAt
  {
    if k > 0 {
      Ordered(rows, k - 1);
    }
  }

  lemma SuffixKeepsLog(h: Hash, workspace: Text, rows: seq<Row>, k: nat)
    requires Log(h, workspace, rows) && k <= |rows|
    ensures Log(h, workspace, rows[k..])
    ensures k < |rows| ==> rows[k].num == rows[0].num + k
  {
    hide ContentHash;
    Numbered(rows, k);
    forall i | 0 <= i < |rows[k..]| ensures RowOk(h, workspace, rows[k..], i) {
      assert RowOk(h, workspace, rows, k + i);
    }
  }

  lemma {:induction false} Numbered(rows: seq<Row>, k: nat)
    requires k <= |rows| && forall i :: 0 < i < |rows| ==> rows[i].num == rows[i - 1].num + 1
    ensures k < |rows| ==> rows[k].num == rows[0].num + k
  {
    if 0 < k < |rows| {
      Numbered(rows, k - 1);
    }
  }

  class AuditLog {
    const workspace: Text
    var rows: seq<Row>

    constructor (workspace: Text)
      ensures this.workspace == workspace && rows == []
    {
      this.workspace := workspace;
      rows := [];
    }

    method Emit(h: Hash, jsonb: seq<Member> -> seq<Member>, e: Event, now: int)
      requires Log(h, workspace, rows) && Faithful(jsonb) && 0 < NextNum(rows) < 0x20_0000_0000_0000
      requires |rows| > 0 ==> rows[|rows| - 1].createdAt <= now
      modifies this
      ensures rows == Append(h, workspace, jsonb, old(rows), e, now) && Log(h, workspace, rows)
    {
      hide ContentHash, Faithful;
      AppendKeepsLog(h, workspace, jsonb, rows, e, now);
      var prevHash := Genesis(h);
      var sequenceNum: SafeInt := 1;
      if |rows| > 0 {
        prevHash := rows[|rows| - 1].hash;
        sequenceNum := rows[|rows| - 1].num + 1;
      }
      var hash := ContentHash(h, workspace, sequenceNum, prevHash, e);
      rows := rows + [Row(sequenceNum, prevHash, hash, e.(metadata := jsonb(e.metadata)), now)];
    }

    method Purge(h: Hash, cutoff: int) returns (deleted: nat)
      requires Log(h, workspace, rows)
      modifies this
      ensures deleted <= |old(rows)| && rows == old(rows)[deleted..] && Log(h, workspace, rows)
      ensures forall r :: r in old(rows)[..deleted] ==> r.createdAt < cutoff
      ensures forall r :: r in rows ==> r.createdAt >= cutoff
    {
      hide RowOk, Ascending;
      ghost var before := rows;
      var k := RetainedIsSuffix(rows, cutoff);
      deleted := 0;
      while |rows| > 0 && rows[0].createdAt < cutoff
        invariant deleted <= |before| && rows == before[deleted..]
        invariant forall i :: 0 <= i < deleted ==> before[i].createdAt < cutoff
      {
        rows := rows[1..];
        deleted := deleted + 1;
      }
      SuffixKeepsLog(h, workspace, before, deleted);
      forall r | r in rows ensures r.createdAt >= cutoff {
        var i :| 0 <= i < |rows| && rows[i] == r;
        Ordered(rows, i);
      }
    }

    /** Every log that appends and purges produce verifies, and is reported truncated when its oldest row is not number 1. */
    method Verify(h: Hash) returns (v: Verification)
      requires Log(h, workspace, rows)
      ensures v == Verification(true, None, |rows|, |rows| > 0 && rows[0].num > 1, if |rows| == 0 then None else Some(rows[0].num))
    {
      v := VerifyChainRows(h, workspace, rows);
    }
  }
}
