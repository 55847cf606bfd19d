/** `canonicalJson` and a decoder for it. */
module CanonicalJson {
  import opened Decimals
  import opened Utf16
  import opened SortedEntries

  /** The integers that JavaScript numbers hold exactly. */
  type SafeInt = n: int | -0x20_0000_0000_0000 < n < 0x20_0000_0000_0000 witness 0

  /** A JavaScript value with integer numbers; an object is its members in insertion order. */
  datatype Json =
    | Undefined
    | Null
    | Bool(b: bool)
    | Number(n: SafeInt)
    | String(s: Text)
    | Array(items: seq<Json>)
    | Object(members: seq<Member>)

  datatype Member = Member(key: Text, value: Json)

  /** An object has each key once. */
  ghost predicate Distinct(v: Json) {
    match v
    case Array(items) => forall i :: 0 <= i < |items| ==> Distinct(items[i])
    case Object(ms) => OwnKeys(ms) && forall i :: 0 <= i < |ms| ==> Distinct(ms[i].value)
    case _ => true
  }

  predicate OwnKeys(ms: seq<Member>) {
    forall i, j :: 0 <= i < j < |ms| ==> ms[i].key != ms[j].key
  }

  const NULL_TEXT: Text := [0x6E, 0x75, 0x6C, 0x6C]
  const TRUE_TEXT: Text := [0x74, 0x72, 0x75, 0x65]
  const FALSE_TEXT: Text := [0x66, 0x61, 0x6C, 0x73, 0x65]
  const COMMA: Unit := 0x2C
  const COLON: Unit := 0x3A
  const MINUS: Unit := 0x2D
  const OPEN_LIST: Unit := 0x5B
  const CLOSE_LIST: Unit := 0x5D
  const OPEN_OBJECT: Unit := 0x7B
  const CLOSE_OBJECT: Unit := 0x7D

  // --- Encoding --------------------------------------------------------------------------------

  function NumberText(n: int): Text {
    if n < 0 then [MINUS] + Ascii(Digits(-n)) else Ascii(Digits(n))
  }

  function JoinTexts(ts: seq<Text>): Text {
    if |ts| == 0 then [] else if |ts| == 1 then ts[0] else ts[0] + [COMMA] + JoinTexts(ts[1..])
  }

  function MemberText(e: Entry<Text>): Text {
    Quote(e.0) + [COLON] + e.1
  }

  function MemberTexts(es: seq<Entry<Text>>): seq<Text> {
    seq(|es|, i requires 0 <= i < |es| => MemberText(es[i]))
  }

  function Canonical(v: Json): Text {
    match v
    case Undefined => NULL_TEXT
    case Null => NULL_TEXT
    case Bool(b) => if b then TRUE_TEXT else FALSE_TEXT
    case Number(n) => NumberText(n)
    case String(s) => Quote(s)
    case Array(items) => [OPEN_LIST] + JoinTexts(CanonicalItems(items)) + [CLOSE_LIST]
    case Object(ms) => [OPEN_OBJECT] + JoinTexts(MemberTexts(Sort(CanonicalEntries(ms)))) + [CLOSE_OBJECT]
  }

  function CanonicalItems(items: seq<Json>): (r: seq<Text>)
    ensures |r| == |items| && forall i :: 0 <= i < |items| ==> r[i] == Canonical(items[i])
  {
    if |items| == 0 then [] else [Canonical(items[0])] + CanonicalItems(items[1..])
  }

  /** The members that are not undefined; their values are encoded here, before the sort. */
  function CanonicalEntries(ms: seq<Member>): seq<Entry<Text>> {
    if |ms| == 0 then []
    else if ms[0].value.Undefined? then CanonicalEntries(ms[1..])
    else [(ms[0].key, Canonical(ms[0].value))] + CanonicalEntries(ms[1..])
  }

  // --- What survives encoding -------------------------------------------------------------------

  /** Undefined read as null, undefined members dropped, keys in order. */
  function Norm(v: Json): (r: Json)
    ensures !r.Undefined?
  {
    match v
    case Undefined => Null
    case Array(items) => Array(NormItems(items))
    case Object(ms) => Object(MembersOf(Sort(NormEntries(ms))))
    case _ => v
  }

  function NormItems(items: seq<Json>): (r: seq<Json>)
    ensures |r| == |items| && forall i :: 0 <= i < |items| ==> r[i] == Norm(items[i])
  {
    if |items| == 0 then [] else [Norm(items[0])] + NormItems(items[1..])
  }

  function NormEntries(ms: seq<Member>): seq<Entry<Json>> {
    if |ms| == 0 then []
    else if ms[0].value.Undefined? then NormEntries(ms[1..])
    else [(ms[0].key, Norm(ms[0].value))] + NormEntries(ms[1..])
  }

  function MembersOf(es: seq<Entry<Json>>): seq<Member> {
    seq(|es|, i requires 0 <= i < |es| => Member(es[i].0, es[i].1))
  }

  /** Plain writing: nothing dropped, nothing sorted. */
  function Write(v: Json): Text {
    match v
    case Undefined => []
    case Null => NULL_TEXT
    case Bool(b) => if b then TRUE_TEXT else FALSE_TEXT
    case Number(n) => NumberText(n)
    case String(s) => Quote(s)
    case Array(items) => [OPEN_LIST] + JoinTexts(WriteItems(items)) + [CLOSE_LIST]
    case Object(ms) => [OPEN_OBJECT] + JoinTexts(WriteMembers(ms)) + [CLOSE_OBJECT]
  }

  function WriteItems(items: seq<Json>): (r: seq<Text>)
    ensures |r| == |items| && forall i :: 0 <= i < |items| ==> r[i] == Write(items[i])
  {
    if |items| == 0 then [] else [Write(items[0])] + WriteItems(items[1..])
  }

  function WriteMembers(ms: seq<Member>): (r: seq<Text>)
    ensures |r| == |ms| && forall i :: 0 <= i < |ms| ==> r[i] == MemberText((ms[i].key, Write(ms[i].value)))
  {
    if |ms| == 0 then [] else [MemberText((ms[0].key, Write(ms[0].value)))] + WriteMembers(ms[1..])
  }

  /** Encoding is normalising, then writing plainly. */
  lemma {:induction false} CanonicalIsWrittenNorm(v: Json)
    ensures Canonical(v) == Write(Norm(v))
    decreases v
  {
    hide NumberText, Quote, JoinTexts, Ascii, MemberText;
    match v
    case Array(items) =>
      forall i | 0 <= i < |items| ensures Canonical(items[i]) == Write(Norm(items[i])) {
        CanonicalIsWrittenNorm(items[i]);
      }
      assert CanonicalItems(items) == WriteItems(NormItems(items));
    case Object(ms) =>
      EntriesWritten(ms);
      SortMaps(NormEntries(ms), CanonicalEntries(ms), x => Write(x));
      assert MemberTexts(Sort(CanonicalEntries(ms))) == WriteMembers(MembersOf(Sort(NormEntries(ms))));
    case _ =>
  }

  lemma {:induction false} EntriesWritten(ms: seq<Member>)
    ensures Mapped(NormEntries(ms), CanonicalEntries(ms), x => Write(x))
    decreases ms
  {
    hide Write, Norm, Canonical;
    if |ms| > 0 {
      CanonicalIsWrittenNorm(ms[0].value);
      EntriesWritten(ms[1..]);
    }
  }
}
