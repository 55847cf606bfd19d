/** The order of the keys in canonical JSON, unit by unit, and the text that an audit hash covers. */
module KeyOrder {
  import opened Prelude
  import opened Decimals
  import opened Utf16
  import opened SortedEntries
  import opened CanonicalJson
  import opened AuditChain
  import opened AuditEvidence

  /** One member as it is written: the quoted key, a colon, the value. */
  function Written(e: (Text, Text)): Text {
    Quote(e.0) + Ascii(":") + e.1
  }

  /** Texts with commas between them. */
  function WithCommas(es: seq<(Text, Text)>): Text {
    if |es| == 0 then [] else
    if |es| == 1 then Written(es[0]) else Written(es[0]) + Ascii(",") + WithCommas(es[1..])
  }

  lemma {:induction false} JoinedWithCommas(es: seq<(Text, Text)>)
    ensures JoinTexts(MemberTexts(es)) == WithCommas(es)
  {
    hide Quote;
    if |es| > 0 {
      assert Ascii(":") == [COLON] && Ascii(",") == [COMMA];
      assert MemberTexts(es)[0] == Written(es[0]);
      if |es| > 1 {
        JoinedWithCommas(es[1..]);
        assert MemberTexts(es)[1..] == MemberTexts(es[1..]);
      }
    }
  }

  lemma {:induction false} EntriesOfMembers(ms: seq<Member>)
    requires OwnKeys(ms)
    ensures DistinctKeys(CanonicalEntries(ms))
    ensures forall e :: e in CanonicalEntries(ms) <==> exists i :: 0 <= i < |ms| && IsEntry(ms[i], e)
  {
    hide Canonical;
    if |ms| > 0 {
      var rest := CanonicalEntries(ms[1..]);
      EntriesOfMembers(ms[1..]);
      forall e ensures e in CanonicalEntries(ms) <==> exists i :: 0 <= i < |ms| && IsEntry(ms[i], e) {
        if e in rest {
          var i :| 0 <= i < |ms[1..]| && IsEntry(ms[1..][i], e);
          assert IsEntry(ms[i + 1], e);
        }
        if i :| 0 <= i < |ms| && IsEntry(ms[i], e) {
          if i > 0 {
            assert IsEntry(ms[1..][i - 1], e);
          }
        }
        if !ms[0].value.Undefined? {
          assert CanonicalEntries(ms) == [(ms[0].key, Canonical(ms[0].value))] + rest;
          assert IsEntry(ms[0], CanonicalEntries(ms)[0]);
        }
      }
      forall e | e in rest ensures e.0 != ms[0].key {
        var i :| 0 <= i < |ms[1..]| && IsEntry(ms[1..][i], e);
        assert ms[i + 1].key == e.0;
      }
    }
  }

  /** The entry of a member that is not undefined: its key and the text of its value. */
  predicate IsEntry(m: Member, e: (Text, Text)) {
    m.value != Undefined && e == (m.key, Canonical(m.value))
  }

  /**
   * The members of an object are written in the ascending order of their keys: each key is a proper prefix of the next
   * one or has the smaller code unit where they first differ. Exactly the members that are not undefined are written.
   */
  lemma MembersAscend(ms: seq<Member>) returns (es: seq<(Text, Text)>)
    requires OwnKeys(ms)
    ensures Canonical(Object(ms)) == Ascii("{") + WithCommas(es) + Ascii("}")
    ensures forall i, j :: 0 <= i < j < |es| ==> Precedes(es[i].0, es[j].0)
    ensures forall e :: e in es <==> exists i :: 0 <= i < |ms| && IsEntry(ms[i], e)
  {
    hide Precedes, Less, CanonicalEntries, WithCommas, JoinTexts, IsEntry, Sort;
    es := Sort(CanonicalEntries(ms));
    EntriesOfMembers(ms);
    SortAscends(CanonicalEntries(ms));
    JoinedWithCommas(es);
    assert Ascii("{") == [OPEN_OBJECT] && Ascii("}") == [CLOSE_OBJECT];
    forall e ensures e in es <==> exists i :: 0 <= i < |ms| && IsEntry(ms[i], e) {
      SortHolds(CanonicalEntries(ms), e);
    }
    forall i, j | 0 <= i < j < |es| ensures Precedes(es[i].0, es[j].0) {
      LessIsFirstDifference(es[i].0, es[j].0);
    }
  }

  /** There is only one such list of members. */
  lemma AscendingMembersAreWritten(ms: seq<Member>, es: seq<(Text, Text)>)
    requires OwnKeys(ms) && forall e :: e in es <==> exists i :: 0 <= i < |ms| && IsEntry(ms[i], e)
    requires forall i, j :: 0 <= i < j < |es| ==> Precedes(es[i].0, es[j].0)
    ensures Canonical(Object(ms)) == Ascii("{") + WithCommas(es) + Ascii("}")
  {
    hide Precedes, Less, CanonicalEntries, WithCommas, IsEntry, Canonical;
    var written := MembersAscend(ms);
    forall i, j | 0 <= i < j < |es| ensures Less(es[i].0, es[j].0) {
      LessIsFirstDifference(es[i].0, es[j].0);
    }
    forall i, j | 0 <= i < j < |written| ensures Less(written[i].0, written[j].0) {
      LessIsFirstDifference(written[i].0, written[j].0);
    }
    AscendingUnique(written, es);
  }

  // --- Scalars and lists -----------------------------------------------------------------------------------

  /** A natural number in decimal: the digit of the last place behind the digits of the rest. */
  lemma NumbersAreWritten(n: SafeInt, d: nat)
    requires n >= 0 && d < 10
    ensures n < 10 ==> Canonical(Number(n)) == [0x30 + n]
    ensures 10 * n + d < 0x20_0000_0000_0000 && n > 0 ==> Canonical(Number(10 * n + d)) == Canonical(Number(n)) + [0x30 + d]
    ensures n > 0 ==> Canonical(Number(-n)) == Ascii("-") + Canonical(Number(n))
  {
    if n > 0 {
      var m := 10 * n + d;
      assert m / 10 == n && m % 10 == d;
      assert Digits(m) == Digits(n) + [Digit(d)];
    }
  }

  lemma ScalarsAreWritten(s: Text)
    ensures Canonical(Json.Undefined) == Ascii("null") && Canonical(Json.Null) == Ascii("null")
    ensures Canonical(Json.Bool(true)) == Ascii("true") && Canonical(Json.Bool(false)) == Ascii("false")
    ensures Canonical(Json.String(s)) == Quote(s)
  {
  }

  /** A list is written item by item, in its own order. */
  lemma ListsAreWritten(items: seq<Json>, last: Json)
    ensures Canonical(Array([])) == Ascii("[]") && Canonical(Array([last])) == Ascii("[") + Canonical(last) + Ascii("]")
    ensures |items| > 0 ==> exists inner ::
              Canonical(Array(items)) == Ascii("[") + inner + Ascii("]") &&
              Canonical(Array(items + [last])) == Ascii("[") + inner + Ascii(",") + Canonical(last) + Ascii("]")
  {
    hide Canonical;
    ArrayText([]);
    ArrayText([last]);
    ArrayText(items);
    ArrayText(items + [last]);
    if |items| > 0 {
      JoinedAtEnd(items, last);
      var inner := JoinTexts(CanonicalItems(items));
      assert Ascii("[") == [OPEN_LIST] && Ascii("]") == [CLOSE_LIST];
      assert [OPEN_LIST] + (inner + Ascii(",") + Canonical(last)) + [CLOSE_LIST] ==
             Ascii("[") + inner + Ascii(",") + Canonical(last) + Ascii("]");
    }
  }

  lemma ArrayText(items: seq<Json>)
    ensures Canonical(Array(items)) == [OPEN_LIST] + JoinTexts(CanonicalItems(items)) + [CLOSE_LIST]
  {
  }

  lemma {:induction false} JoinedAtEnd(items: seq<Json>, last: Json)
    requires |items| > 0
    ensures JoinTexts(CanonicalItems(items + [last])) == JoinTexts(CanonicalItems(items)) + Ascii(",") + Canonical(last)
  {
    hide Canonical;
    var ts, us := CanonicalItems(items), CanonicalItems(items + [last]);
    assert Ascii(",") == [COMMA];
    assert us == ts + [Canonical(last)];
    if |items| == 1 {
      assert us[1..] == [Canonical(last)];
    } else {
      assert (items + [last])[1..] == items[1..] + [last];
      JoinedAtEnd(items[1..], last);
      assert us[1..] == CanonicalItems(items[1..] + [last]) && ts[1..] == CanonicalItems(items[1..]);
    }
  }

  // --- The text of an audit event --------------------------------------------------------------------------

  lemma {:induction false} Adjacent(es: seq<(Text, Text)>, i: nat, j: nat)
    requires i < j < |es| && forall k :: 0 < k < |es| ==> Less(es[k - 1].0, es[k].0)
    ensures Less(es[i].0, es[j].0)
    decreases j
  {
    hide Less;
    if i < j - 1 {
      Adjacent(es, i, j - 1);
      LessIsTransitive(es[i].0, es[j - 1].0, es[j].0);
    }
  }

  lemma FirstDiffer(a: string, b: string, k: nat)
    requires forall i :: 0 <= i < |a| ==> a[i] < 128 as char
    requires forall i :: 0 <= i < |b| ==> b[i] < 128 as char
    requires k < |a| && k < |b| && (forall i :: 0 <= i < k ==> a[i] == b[i]) && a[k] < b[k]
    ensures Less(Ascii(a), Ascii(b))
  {
    hide Less;
    assert FirstDifference(Ascii(a), Ascii(b), k);
    LessIsFirstDifference(Ascii(a), Ascii(b));
  }

  /** The eight members of an audit row, as they are written. */
  function RowMembers(workspace: Text, num: SafeInt, prev: Text, e: Event): seq<(Text, Text)> {
    [(Ascii("action"), Quote(e.action)), (Ascii("actor_id"), if e.actor == None then Ascii("null") else Quote(e.actor.value)),
     (Ascii("entity_id"), Quote(e.entityId)), (Ascii("entity_type"), Quote(e.entityType)),
     (Ascii("metadata"), Canonical(Object(e.metadata))), (Ascii("prev_hash"), Quote(prev)),
     (Ascii("sequence_num"), Canonical(Number(num))), (Ascii("workspace_id"), Quote(workspace))]
  }

  lemma RowNamesAscend(workspace: Text, num: SafeInt, prev: Text, e: Event)
    ensures var es := RowMembers(workspace, num, prev, e); forall k :: 0 < k < |es| ==> Less(es[k - 1].0, es[k].0)
  {
    hide Less, Ascii, Quote, Canonical;
    FirstDiffer("action", "actor_id", 3);
    FirstDiffer("actor_id", "entity_id", 0);
    FirstDiffer("entity_id", "entity_type", 7);
    FirstDiffer("entity_type", "metadata", 0);
    FirstDiffer("metadata", "prev_hash", 0);
    FirstDiffer("prev_hash", "sequence_num", 0);
    FirstDiffer("sequence_num", "workspace_id", 0);
  }

  lemma RowEntries(workspace: Text, num: SafeInt, prev: Text, e: Event, x: (Text, Text))
    ensures var ms := HashInput(workspace, num, prev, e);
            x in RowMembers(workspace, num, prev, e) <==> exists i :: 0 <= i < |ms| && IsEntry(ms[i], x)
  {
    hide Canonical, Quote, Ascii;
    var ms, es := HashInput(workspace, num, prev, e), RowMembers(workspace, num, prev, e);
    TextOf(workspace);
    TextOf(prev);
    TextOf(e.action);
    TextOf(e.entityType);
    TextOf(e.entityId);
    if e.actor.Some? {
      TextOf(e.actor.value);
    }
    assert Canonical(Json.Null) == Ascii("null") by {
      ScalarsAreWritten([]);
    }
    assert IsEntry(ms[3], es[0]) && IsEntry(ms[2], es[1]) && IsEntry(ms[5], es[2]) && IsEntry(ms[4], es[3]);
    assert IsEntry(ms[6], es[4]) && IsEntry(ms[7], es[5]) && IsEntry(ms[1], es[6]) && IsEntry(ms[0], es[7]);
  }

  lemma TextOf(s: Text)
    ensures Canonical(Json.String(s)) == Quote(s)
  {
  }

  /** What the hash of an audit row covers: the hash before it, and its eight members in the order of their names. */
  lemma HashCovers(h: Hash, workspace: Text, num: SafeInt, prev: Text, e: Event)
    ensures ContentHash(h, workspace, num, prev, e) == h(prev + (Ascii("{") + WithCommas(RowMembers(workspace, num, prev, e)) + Ascii("}")))
  {
    hide Canonical, Quote, WithCommas, Less, Ascii, Precedes, HashInput, IsEntry;
    var ms, es := HashInput(workspace, num, prev, e), RowMembers(workspace, num, prev, e);
    RowNamesAscend(workspace, num, prev, e);
    forall i, j | 0 <= i < j < |es| ensures Precedes(es[i].0, es[j].0) {
      Adjacent(es, i, j);
      LessIsFirstDifference(es[i].0, es[j].0);
    }
    forall x ensures x in es <==> exists i :: 0 <= i < |ms| && IsEntry(ms[i], x) {
      RowEntries(workspace, num, prev, e, x);
    }
    InputKeys(workspace, num, prev, e);
    AscendingMembersAreWritten(ms, es);
  }
}
