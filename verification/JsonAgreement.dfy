/** When two values have the same canonical JSON, without mentioning encoding or order. */
module JsonAgreement {
  import opened Decimals
  import opened Utf16
  import opened SortedEntries
  import opened CanonicalJson
  import opened JsonDecoder

  predicate Nullish(v: Json) {
    v.Undefined? || v.Null?
  }

  /** Some member of `ms` has the key of `m` and agrees with it. */
  ghost predicate HasAgreeing(ms: seq<Member>, m: Member)
    decreases m, 0
  {
    exists j :: 0 <= j < |ms| && ms[j].key == m.key && !ms[j].value.Undefined? && Agree(m.value, ms[j].value)
  }

  /**
   * Agreement up to key order, dropped undefined members, and undefined read as null: objects agree when every
   * defined member of either has an agreeing one in the other.
   */
  ghost predicate Agree(v: Json, w: Json)
    decreases v
  {
    match v
    case Undefined => Nullish(w)
    case Null => Nullish(w)
    case Array(a) => w.Array? && |a| == |w.items| && forall i :: 0 <= i < |a| ==> Agree(a[i], w.items[i])
    case Object(a) =>
      && w.Object?
      && (forall i :: 0 <= i < |a| && !a[i].value.Undefined? ==> HasAgreeing(w.members, a[i]))
      && (forall j :: 0 <= j < |w.members| && !w.members[j].value.Undefined? ==> Covered(a, w.members[j]))
    case _ => v == w
  }

  /** Some member of `ms` has the key of `m` and `m` agrees with it. */
  ghost predicate Covered(ms: seq<Member>, m: Member)
    decreases ms
  {
    exists i :: 0 <= i < |ms| && ms[i].key == m.key && !ms[i].value.Undefined? && Agree(ms[i].value, m.value)
  }

  lemma {:induction false} NormHolds(ms: seq<Member>, e: Entry<Json>) returns (i: nat)
    requires e in NormEntries(ms)
    ensures i < |ms| && !ms[i].value.Undefined? && e == (ms[i].key, Norm(ms[i].value))
  {
    hide Norm;
    if !ms[0].value.Undefined? && e == (ms[0].key, Norm(ms[0].value)) {
      i := 0;
    } else {
      i := NormHolds(ms[1..], e);
      i := i + 1;
    }
  }

  lemma {:induction false} NormHas(ms: seq<Member>, i: nat)
    requires i < |ms| && !ms[i].value.Undefined?
    ensures (ms[i].key, Norm(ms[i].value)) in NormEntries(ms)
  {
    hide Norm;
    if i > 0 {
      NormHas(ms[1..], i - 1);
    }
  }

  lemma {:induction false} NormKeysDistinct(ms: seq<Member>)
    requires OwnKeys(ms)
    ensures DistinctKeys(NormEntries(ms))
  {
    hide Norm;
    if |ms| > 0 {
      NormKeysDistinct(ms[1..]);
      var t := NormEntries(ms[1..]);
      forall j | 0 <= j < |t| ensures t[j].0 != ms[0].key {
        var i := NormHolds(ms[1..], t[j]);
      }
    }
  }

  /** Objects normalise equally exactly when their normalised members are the same set. */
  lemma ObjectsNormEqual(a: seq<Member>, b: seq<Member>)
    requires OwnKeys(a) && OwnKeys(b)
    ensures Norm(Object(a)) == Norm(Object(b)) <==> forall e :: e in NormEntries(a) <==> e in NormEntries(b)
  {
    hide NormEntries, Ascending;
    var x, y := NormEntries(a), NormEntries(b);
    NormKeysDistinct(a);
    NormKeysDistinct(b);
    forall e ensures (e in Sort(x) <==> e in x) && (e in Sort(y) <==> e in y) {
      SortHolds(x, e);
      SortHolds(y, e);
    }
    if forall e :: e in x <==> e in y {
      SortAscends(x);
      SortAscends(y);
      AscendingUnique(Sort(x), Sort(y));
    }
    if MembersOf(Sort(x)) == MembersOf(Sort(y)) {
      MembersOfInjective(Sort(x), Sort(y));
    }
  }

  lemma MembersOfInjective(x: seq<Entry<Json>>, y: seq<Entry<Json>>)
    requires MembersOf(x) == MembersOf(y)
    ensures x == y
  {
    assert |MembersOf(x)| == |x| && |MembersOf(y)| == |y|;
    forall i | 0 <= i < |x| ensures x[i] == y[i] {
      assert MembersOf(x)[i] == MembersOf(y)[i];
    }
  }

  lemma {:induction false} AgreeIffNormsEqual(v: Json, w: Json)
    requires Distinct(v) && Distinct(w)
    ensures Agree(v, w) <==> Norm(v) == Norm(w)
    decreases v
  {
    hide Sort, NormEntries;
    match v
    case Array(a) =>
      if w.Array? && |a| == |w.items| {
        forall i | 0 <= i < |a| ensures Agree(a[i], w.items[i]) <==> Norm(a[i]) == Norm(w.items[i]) {
          AgreeIffNormsEqual(a[i], w.items[i]);
        }
        assert Norm(v) == Norm(w) <==> NormItems(a) == NormItems(w.items);
      }
    case Object(a) =>
      if w.Object? {
        ObjectsAgree(a, w.members);
      }
    case _ =>
  }

  lemma {:induction false} ObjectsAgree(a: seq<Member>, b: seq<Member>)
    requires Distinct(Object(a)) && Distinct(Object(b))
    ensures Agree(Object(a), Object(b)) <==> Norm(Object(a)) == Norm(Object(b))
    decreases a
  {
    hide Norm, NormEntries;
    forall i, j | 0 <= i < |a| && 0 <= j < |b| ensures Agree(a[i].value, b[j].value) <==> Norm(a[i].value) == Norm(b[j].value) {
      AgreeIffNormsEqual(a[i].value, b[j].value);
    }
    ObjectsNormEqual(a, b);
    if Agree(Object(a), Object(b)) {
      forall e ensures e in NormEntries(a) <==> e in NormEntries(b) {
        if e in NormEntries(a) {
          var i := NormHolds(a, e);
          assert HasAgreeing(b, a[i]);
          var j :| 0 <= j < |b| && b[j].key == a[i].key && !b[j].value.Undefined? && Agree(a[i].value, b[j].value);
          NormHas(b, j);
        }
        if e in NormEntries(b) {
          var j := NormHolds(b, e);
          assert Covered(a, b[j]);
          var i :| 0 <= i < |a| && a[i].key == b[j].key && !a[i].value.Undefined? && Agree(a[i].value, b[j].value);
          NormHas(a, i);
        }
      }
    }
    if forall e :: e in NormEntries(a) <==> e in NormEntries(b) {
      forall i | 0 <= i < |a| && !a[i].value.Undefined? ensures HasAgreeing(b, a[i]) {
        NormHas(a, i);
        var j := NormHolds(b, (a[i].key, Norm(a[i].value)));
        assert Agree(a[i].value, b[j].value);
      }
      forall j | 0 <= j < |b| && !b[j].value.Undefined? ensures Covered(a, b[j]) {
        NormHas(b, j);
        var i := NormHolds(a, (b[j].key, Norm(b[j].value)));
        assert Agree(a[i].value, b[j].value);
      }
    }
  }

  /** Two values have the same canonical JSON exactly when they agree. */
  lemma EncodesEquallyIffAgree(v: Json, w: Json)
    requires Distinct(v) && Distinct(w)
    ensures Canonical(v) == Canonical(w) <==> Agree(v, w)
  {
    hide Canonical, Norm, Agree;
    EncodesEquallyIffNormsEqual(v, w);
    AgreeIffNormsEqual(v, w);
  }

  // --- The text can be encoded in UTF-8 without loss ------------------------------------------

  lemma QuotePaired(s: Text)
    ensures WellPaired(Quote(s))
  {
    hide WellPaired;
    QuotedIsPaired(s);
    PlainIsPaired([QUOTE]);
    PairedConcat([QUOTE], QuoteUnits(s));
    PairedConcat([QUOTE] + QuoteUnits(s), [QUOTE]);
  }

  lemma {:induction false} JoinPaired(ts: seq<Text>)
    requires forall i :: 0 <= i < |ts| ==> WellPaired(ts[i])
    ensures WellPaired(JoinTexts(ts))
  {
    hide WellPaired;
    PlainIsPaired([]);
    if |ts| > 1 {
      JoinPaired(ts[1..]);
      PlainIsPaired([COMMA]);
      PairedConcat(ts[0], [COMMA]);
      PairedConcat(ts[0] + [COMMA], JoinTexts(ts[1..]));
    }
  }

  lemma BracketPaired(open: Unit, t: Text, close: Unit)
    requires open < 128 && close < 128 && WellPaired(t)
    ensures WellPaired([open] + t + [close])
  {
    hide WellPaired;
    PlainIsPaired([open]);
    PlainIsPaired([close]);
    PairedConcat([open], t);
    PairedConcat([open] + t, [close]);
  }

  lemma MemberPaired(key: Text, t: Text)
    requires WellPaired(t)
    ensures WellPaired(MemberText((key, t)))
  {
    hide WellPaired, Quote;
    QuotePaired(key);
    PlainIsPaired([COLON]);
    PairedConcat(Quote(key), [COLON]);
    PairedConcat(Quote(key) + [COLON], t);
  }

  /** Canonical JSON never holds a lone surrogate, even when keys and strings do. */
  lemma {:induction false} WrittenPaired(v: Json)
    ensures WellPaired(Write(v))
    decreases v
  {
    hide WellPaired, JoinTexts, Quote, MemberText, Digits;
    match v
    case String(s) => QuotePaired(s);
    case Array(items) =>
      forall i | 0 <= i < |items| ensures WellPaired(Write(items[i])) {
        WrittenPaired(items[i]);
      }
      JoinPaired(WriteItems(items));
      BracketPaired(OPEN_LIST, JoinTexts(WriteItems(items)), CLOSE_LIST);
    case Object(ms) =>
      forall i | 0 <= i < |ms| ensures WellPaired(WriteMembers(ms)[i]) {
        WrittenPaired(ms[i].value);
        MemberPaired(ms[i].key, Write(ms[i].value));
      }
      JoinPaired(WriteMembers(ms));
      BracketPaired(OPEN_OBJECT, JoinTexts(WriteMembers(ms)), CLOSE_OBJECT);
    case _ => PlainIsPaired(Write(v));
  }

  lemma CanonicalPaired(v: Json)
    ensures WellPaired(Canonical(v))
  {
    hide Canonical, Write, Norm, WellPaired;
    CanonicalIsWrittenNorm(v);
    WrittenPaired(Norm(v));
  }
}
