/** A decoder that undoes `canonicalJson`. */
module JsonDecoder {
  import opened Prelude
  import opened Decimals
  import opened Utf16
  import opened SortedEntries
  import opened CanonicalJson

  predicate IsDigitUnit(u: Unit) {
    0x30 <= u < 0x3A
  }

  function DigitRun(s: Text): (n: nat)
    ensures n <= |s| && forall k :: 0 <= k < n ==> IsDigitUnit(s[k])
    ensures n < |s| ==> !IsDigitUnit(s[n])
  {
    if |s| == 0 || !IsDigitUnit(s[0]) then 0 else 1 + DigitRun(s[1..])
  }

  function DigitString(s: Text): (t: string)
    requires forall k :: 0 <= k < |s| ==> IsDigitUnit(s[k])
    ensures |t| == |s| && forall k :: 0 <= k < |s| ==> IsDigit(t[k]) && t[k] as int == s[k]
  {
    seq(|s|, i requires 0 <= i < |s| && IsDigitUnit(s[i]) => s[i] as char)
  }

  predicate StartsWith(s: Text, word: Text) {
    |s| >= |word| && s[..|word|] == word
  }

  function ReadNumber(s: Text): (r: Option<(Json, Text)>)
    ensures r.Some? ==> |r.value.1| < |s|
  {
    var negative := |s| > 0 && s[0] == MINUS;
    var t := if negative then s[1..] else s;
    var n := DigitRun(t);
    if n == 0 then None else
    var value: int := ParseNat(DigitString(t[..n]));
    if value >= 0x20_0000_0000_0000 then None else Some((Number(if negative then -value else value), t[n..]))
  }

  function ReadValue(s: Text): (r: Option<(Json, Text)>)
    ensures r.Some? ==> |r.value.1| < |s|
    decreases |s|, 1
  {
    if |s| == 0 then None
    else if s[0] == QUOTE then
      match ReadString(s[1..], [])
      case None => None
      case Some((t, rest)) => Some((String(t), rest))
    else if s[0] == OPEN_LIST then
      if |s| > 1 && s[1] == CLOSE_LIST then Some((Array([]), s[2..])) else ReadItems(s[1..], [])
    else if s[0] == OPEN_OBJECT then
      if |s| > 1 && s[1] == CLOSE_OBJECT then Some((Object([]), s[2..])) else ReadMembers(s[1..], [])
    else if StartsWith(s, NULL_TEXT) then Some((Null, s[4..]))
    else if StartsWith(s, TRUE_TEXT) then Some((Bool(true), s[4..]))
    else if StartsWith(s, FALSE_TEXT) then Some((Bool(false), s[5..]))
    else ReadNumber(s)
  }

  function ReadItems(s: Text, acc: seq<Json>): (r: Option<(Json, Text)>)
    ensures r.Some? ==> |r.value.1| < |s|
    decreases |s|, 2
  {
    match ReadValue(s)
    case None => None
    case Some((v, rest)) =>
      if |rest| > 0 && rest[0] == COMMA then ReadItems(rest[1..], acc + [v])
      else if |rest| > 0 && rest[0] == CLOSE_LIST then Some((Array(acc + [v]), rest[1..]))
      else None
  }

  /** A key, the colon and the value. */
  function ReadMember(s: Text): (r: Option<(Member, Text)>)
    ensures r.Some? ==> |r.value.1| < |s|
    decreases |s|, 2
  {
    if |s| == 0 || s[0] != QUOTE then None else
    match ReadString(s[1..], [])
    case None => None
    case Some((key, rest)) =>
      if |rest| == 0 || rest[0] != COLON then None else
      match ReadValue(rest[1..])
      case None => None
      case Some((v, tail)) => Some((Member(key, v), tail))
  }

  function ReadMembers(s: Text, acc: seq<Member>): (r: Option<(Json, Text)>)
    ensures r.Some? ==> |r.value.1| < |s|
    decreases |s|, 3
  {
    match ReadMember(s)
    case None => None
    case Some((m, rest)) =>
      if |rest| > 0 && rest[0] == COMMA then ReadMembers(rest[1..], acc + [m])
      else if |rest| > 0 && rest[0] == CLOSE_OBJECT then Some((Object(acc + [m]), rest[1..]))
      else None
  }

  function Decode(s: Text): Option<Json> {
    match ReadValue(s)
    case None => None
    case Some((v, rest)) => if |rest| == 0 then Some(v) else None
  }

  // --- Round trip --------------------------------------------------------------------------------

  /** No undefined anywhere. */
  ghost predicate Settled(v: Json) {
    match v
    case Undefined => false
    case Array(items) => forall i :: 0 <= i < |items| ==> Settled(items[i])
    case Object(ms) => forall i :: 0 <= i < |ms| ==> Settled(ms[i].value)
    case _ => true
  }

  /** What may follow a number. */
  predicate Stops(rest: Text) {
    |rest| == 0 || !IsDigitUnit(rest[0])
  }

  lemma {:induction false} RunOfDigits(d: Text, rest: Text)
    requires (forall k :: 0 <= k < |d| ==> IsDigitUnit(d[k])) && Stops(rest)
    ensures DigitRun(d + rest) == |d|
  {
    if |d| == 0 {
      assert d + rest == rest;
    } else {
      RunOfDigits(d[1..], rest);
      assert (d + rest)[1..] == d[1..] + rest;
    }
  }

  lemma NumberReads(n: SafeInt, rest: Text)
    requires Stops(rest)
    ensures ReadNumber(NumberText(n) + rest) == Some((Number(n), rest))
  {
    hide Digits, ParseNat, DigitRun, ReadNumber, DigitString, Stops, IsDigitUnit;
    var abs: nat := if n < 0 then -n else n;
    var t := Ascii(Digits(abs)) + rest;
    DigitsRead(abs, rest);
    SignedReads(t, n < 0);
    assert NumberText(n) + rest == if n < 0 then [MINUS] + t else t;
  }

  lemma SignedReads(t: Text, negative: bool)
    requires |t| > 0 && IsDigitUnit(t[0]) && DigitRun(t) > 0
    requires ParseNat(DigitString(t[..DigitRun(t)])) < 0x20_0000_0000_0000
    ensures var value: int := ParseNat(DigitString(t[..DigitRun(t)]));
            ReadNumber(if negative then [MINUS] + t else t) ==
            Some((Number(if negative then -value else value), t[DigitRun(t)..]))
  {
    hide ParseNat, DigitRun, DigitString;
    if negative {
      var s := [MINUS] + t;
      assert s[0] == MINUS && s[1..] == t;
    } else {
      assert t[0] != MINUS;
    }
  }

  /** The run of digits is found, and its value is the number. */
  lemma DigitsRead(n: nat, rest: Text)
    requires Stops(rest)
    ensures var t := Ascii(Digits(n)) + rest;
            && DigitRun(t) == |Digits(n)| && t[DigitRun(t)..] == rest && ParseNat(DigitString(t[..DigitRun(t)])) == n
            && IsDigitUnit(t[0])
  {
    hide Digits, ParseNat, DigitRun;
    var d := Ascii(Digits(n));
    RunOfDigits(d, rest);
    assert (d + rest)[..|d|] == d && (d + rest)[|d|..] == rest;
    assert DigitString(d) == Digits(n);
    ParseDigits(n);
  }

  /** The first unit of a written value tells what it is, and is neither a closing bracket nor a comma. */
  lemma WriteHead(v: Json)
    requires Settled(v)
    ensures var t := Write(v);
            && |t| > 0 && t[0] != CLOSE_LIST
            && (t[0] == QUOTE <==> v.String?) && (t[0] == OPEN_LIST <==> v.Array?) && (t[0] == OPEN_OBJECT <==> v.Object?)
            && (v.Number? ==> t[0] == MINUS || IsDigitUnit(t[0]))
  {
    hide JoinTexts, QuoteUnits, WriteItems, WriteMembers;
  }

  lemma {:induction false} WrittenReads(v: Json, rest: Text)
    requires Settled(v) && Stops(rest)
    ensures ReadValue(Write(v) + rest) == Some((v, rest))
    decreases v
  {
    hide JoinTexts, QuoteUnits, WriteItems, WriteMembers, ReadString, ReadItems, ReadMembers, ReadNumber, Ascii, NumberText, Quote, Settled;
    WriteHead(v);
    match v
    case Array(items) => ArrayReads(items, rest);
    case Object(ms) => ObjectReads(ms, rest);
    case _ => ScalarReads(v, rest);
  }

  lemma ScalarReads(v: Json, rest: Text)
    requires !v.Array? && !v.Object? && !v.Undefined? && Stops(rest)
    ensures ReadValue(Write(v) + rest) == Some((v, rest))
  {
    hide ReadItems, ReadMembers, ReadNumber, QuoteUnits, ReadString;
    var t := Write(v) + rest;
    match v
    case Null =>
      assert t[..4] == NULL_TEXT && t[4..] == rest;
    case Bool(b) =>
      if b {
        assert t[..4] == TRUE_TEXT && t[4..] == rest;
      } else {
        assert t[..5] == FALSE_TEXT && t[5..] == rest;
      }
    case String(s) =>
      QuotedReads(s, rest, []);
      assert t[1..] == QuoteUnits(s) + [QUOTE] + rest;
      assert [] + s == s;
    case Number(n) =>
      NumberReads(n, rest);
      WriteHead(v);
      NumberIsNoWord(t);
  }

  lemma NumberIsNoWord(t: Text)
    requires |t| > 0 && (t[0] == MINUS || IsDigitUnit(t[0]))
    ensures !StartsWith(t, NULL_TEXT) && !StartsWith(t, TRUE_TEXT) && !StartsWith(t, FALSE_TEXT)
    ensures t[0] != QUOTE && t[0] != OPEN_LIST && t[0] != OPEN_OBJECT
    ensures ReadValue(t) == ReadNumber(t)
  {
    hide ReadItems, ReadMembers, ReadNumber, ReadString;
    assert forall n :: 0 < n <= |t| ==> t[..n][0] == t[0];
  }

  lemma Associate(a: Text, b: Text, c: Text)
    ensures (a + b) + c == a + (b + c)
  {
  }

  lemma JoinOne(head: Text, tail: Text)
    ensures JoinTexts([head]) + tail == head + tail
  {
  }

  lemma JoinMore(head: Text, ts: seq<Text>, tail: Text)
    requires |ts| > 0
    ensures JoinTexts([head] + ts) + tail == head + ([COMMA] + (JoinTexts(ts) + tail))
  {
    JoinUnfolds(head, ts);
    hide JoinTexts;
    var j := JoinTexts(ts);
    Associate(head + [COMMA], j, tail);
    Associate(head, [COMMA], j + tail);
  }

  lemma JoinUnfolds(head: Text, ts: seq<Text>)
    requires |ts| > 0
    ensures JoinTexts([head] + ts) == head + [COMMA] + JoinTexts(ts)
  {
    assert ([head] + ts)[1..] == ts;
  }

  lemma {:induction false} ArrayReads(items: seq<Json>, rest: Text)
    requires Settled(Array(items)) && Stops(rest)
    ensures ReadValue(Write(Array(items)) + rest) == Some((Array(items), rest))
    decreases items, 1
  {
    hide ReadItems, ReadNumber;
    var t := Write(Array(items)) + rest;
    if |items| == 0 {
      assert t[1] == CLOSE_LIST && t[2..] == rest;
    } else {
      var inner := JoinTexts(WriteItems(items)) + [CLOSE_LIST] + rest;
      assert t[1..] == inner;
      WriteHead(items[0]);
      assert inner[0] == Write(items[0])[0];
      ItemsRead(items, rest, []);
      assert [] + items == items;
    }
  }

  lemma {:induction false} ItemsRead(items: seq<Json>, rest: Text, acc: seq<Json>)
    requires |items| > 0 && (forall i :: 0 <= i < |items| ==> Settled(items[i])) && Stops(rest)
    ensures ReadItems(JoinTexts(WriteItems(items)) + [CLOSE_LIST] + rest, acc) == Some((Array(acc + items), rest))
    decreases items, 0
  {
    hide ReadValue, Write, ReadItems, JoinTexts, Settled, WriteItems;
    WriteItemsParts(items);
    var head := Write(items[0]);
    var tail := [CLOSE_LIST] + rest;
    Associate(JoinTexts(WriteItems(items)), [CLOSE_LIST], rest);
    if |items| == 1 {
      JoinOne(head, tail);
      WrittenReads(items[0], tail);
      LastItem(head + tail, items[0], rest, acc);
      assert acc + items == acc + [items[0]];
    } else {
      var more := WriteItems(items[1..]);
      var next := JoinTexts(more) + tail;
      JoinMore(head, more, tail);
      WrittenReads(items[0], [COMMA] + next);
      NextItem(head + ([COMMA] + next), items[0], next, acc);
      ItemsRead(items[1..], rest, acc + [items[0]]);
      Associate(JoinTexts(more), [CLOSE_LIST], rest);
      assert acc + [items[0]] + items[1..] == acc + items;
    }
  }

  lemma WriteItemsParts(items: seq<Json>)
    requires |items| > 0
    ensures |items| == 1 ==> WriteItems(items) == [Write(items[0])]
    ensures |items| > 1 ==> WriteItems(items) == [Write(items[0])] + WriteItems(items[1..])
  {
    hide Write;
  }

  lemma LastItem(s: Text, v: Json, rest: Text, acc: seq<Json>)
    requires ReadValue(s) == Some((v, [CLOSE_LIST] + rest))
    ensures ReadItems(s, acc) == Some((Array(acc + [v]), rest))
  {
    hide ReadValue;
    assert ([CLOSE_LIST] + rest)[1..] == rest;
  }

  lemma NextItem(s: Text, v: Json, next: Text, acc: seq<Json>)
    requires ReadValue(s) == Some((v, [COMMA] + next))
    ensures ReadItems(s, acc) == ReadItems(next, acc + [v])
  {
    hide ReadValue;
    assert ([COMMA] + next)[1..] == next;
  }

  lemma {:induction false} ObjectReads(ms: seq<Member>, rest: Text)
    requires Settled(Object(ms)) && Stops(rest)
    ensures ReadValue(Write(Object(ms)) + rest) == Some((Object(ms), rest))
    decreases ms, 2
  {
    hide ReadMembers, ReadNumber, QuoteUnits;
    var t := Write(Object(ms)) + rest;
    if |ms| == 0 {
      assert t[1] == CLOSE_OBJECT && t[2..] == rest;
    } else {
      var inner := JoinTexts(WriteMembers(ms)) + [CLOSE_OBJECT] + rest;
      assert t[1..] == inner;
      assert inner[0] == QUOTE;
      MembersRead(ms, rest, []);
      assert [] + ms == ms;
    }
  }

  lemma {:induction false} MemberReads(m: Member, rest: Text)
    requires Settled(m.value) && Stops(rest)
    ensures ReadMember(MemberText((m.key, Write(m.value))) + rest) == Some((m, rest))
    decreases m, 0
  {
    hide ReadValue, Write, ReadString, QuoteUnits;
    var s := MemberText((m.key, Write(m.value))) + rest;
    var after := [COLON] + (Write(m.value) + rest);
    assert s[1..] == QuoteUnits(m.key) + [QUOTE] + after;
    QuotedReads(m.key, after, []);
    assert [] + m.key == m.key;
    assert after[1..] == Write(m.value) + rest;
    WrittenReads(m.value, rest);
  }

  lemma {:induction false} MembersRead(ms: seq<Member>, rest: Text, acc: seq<Member>)
    requires |ms| > 0 && (forall i :: 0 <= i < |ms| ==> Settled(ms[i].value)) && Stops(rest)
    ensures ReadMembers(JoinTexts(WriteMembers(ms)) + [CLOSE_OBJECT] + rest, acc) == Some((Object(acc + ms), rest))
    decreases ms, 1
  {
    hide ReadMember, Write, MemberText, ReadMembers, JoinTexts, Settled, WriteMembers;
    WriteMembersParts(ms);
    var head := MemberText((ms[0].key, Write(ms[0].value)));
    var tail := [CLOSE_OBJECT] + rest;
    Associate(JoinTexts(WriteMembers(ms)), [CLOSE_OBJECT], rest);
    if |ms| == 1 {
      JoinOne(head, tail);
      MemberReads(ms[0], tail);
      LastMember(head + tail, ms[0], rest, acc);
      assert acc + ms == acc + [ms[0]];
    } else {
      var more := WriteMembers(ms[1..]);
      var next := JoinTexts(more) + tail;
      JoinMore(head, more, tail);
      MemberReads(ms[0], [COMMA] + next);
      NextMember(head + ([COMMA] + next), ms[0], next, acc);
      MembersRead(ms[1..], rest, acc + [ms[0]]);
      Associate(JoinTexts(more), [CLOSE_OBJECT], rest);
      assert acc + [ms[0]] + ms[1..] == acc + ms;
    }
  }

  lemma WriteMembersParts(ms: seq<Member>)
    requires |ms| > 0
    ensures |ms| == 1 ==> WriteMembers(ms) == [MemberText((ms[0].key, Write(ms[0].value)))]
    ensures |ms| > 1 ==> WriteMembers(ms) == [MemberText((ms[0].key, Write(ms[0].value)))] + WriteMembers(ms[1..])
  {
    hide Write, MemberText;
  }

  lemma LastMember(s: Text, m: Member, rest: Text, acc: seq<Member>)
    requires ReadMember(s) == Some((m, [CLOSE_OBJECT] + rest))
    ensures ReadMembers(s, acc) == Some((Object(acc + [m]), rest))
  {
    hide ReadMember;
    assert ([CLOSE_OBJECT] + rest)[1..] == rest;
  }

  lemma NextMember(s: Text, m: Member, next: Text, acc: seq<Member>)
    requires ReadMember(s) == Some((m, [COMMA] + next))
    ensures ReadMembers(s, acc) == ReadMembers(next, acc + [m])
  {
    hide ReadMember;
    assert ([COMMA] + next)[1..] == next;
  }

  lemma {:induction false} NormIsSettled(v: Json)
    ensures Settled(Norm(v))
    decreases v
  {
    match v
    case Array(items) =>
      forall i | 0 <= i < |items| ensures Settled(Norm(items[i])) {
        NormIsSettled(items[i]);
      }
    case Object(ms) =>
      var sorted := Sort(NormEntries(ms));
      forall i | 0 <= i < |sorted| ensures Settled(sorted[i].1) {
        SortHolds(NormEntries(ms), sorted[i]);
        EntriesSettled(ms, sorted[i]);
      }
    case _ =>
  }

  lemma {:induction false} EntriesSettled(ms: seq<Member>, e: Entry<Json>)
    requires e in NormEntries(ms)
    ensures Settled(e.1)
    decreases ms
  {
    if |ms| > 0 {
      if !ms[0].value.Undefined? && e == (ms[0].key, Norm(ms[0].value)) {
        NormIsSettled(ms[0].value);
      } else {
        EntriesSettled(ms[1..], e);
      }
    }
  }

  /** Decoding gives back every value up to what the encoding is meant to forget. */
  lemma DecodeCanonical(v: Json)
    ensures Decode(Canonical(v)) == Some(Norm(v))
  {
    hide Canonical, Norm, ReadValue, Write, Settled;
    CanonicalIsWrittenNorm(v);
    NormIsSettled(v);
    WrittenReads(Norm(v), []);
    assert Write(Norm(v)) + [] == Write(Norm(v));
  }

  /** Two values encode equally exactly when they normalise equally. */
  lemma EncodesEquallyIffNormsEqual(v: Json, w: Json)
    ensures Canonical(v) == Canonical(w) <==> Norm(v) == Norm(w)
  {
    hide Canonical, Norm, Decode;
    DecodeCanonical(v);
    DecodeCanonical(w);
    CanonicalIsWrittenNorm(v);
    CanonicalIsWrittenNorm(w);
  }
}
