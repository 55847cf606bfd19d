/** Object texts are told apart from their ends: no proper suffix of one is another. */
module JsonScan {
  import opened Decimals
  import opened Utf16
  import opened CanonicalJson
  import opened JsonDecoder

  /** Where a left-to-right scan of JSON stands: outside strings, inside one, after its backslash, or on no JSON. */
  datatype Scan = Out(depth: int) | In(depth: int) | Esc(depth: int) | Bad

  predicate IsEscapeLetter(u: Unit) {
    u == QUOTE || u == BACKSLASH || u == 0x62 || u == 0x66 || u == 0x6E || u == 0x72 || u == 0x74 || u == LOWER_U
  }

  function Next(s: Scan, u: Unit): Scan {
    match s
    case Out(d) =>
      if u == QUOTE then In(d)
      else if u == OPEN_LIST || u == OPEN_OBJECT then Out(d + 1)
      else if u == CLOSE_LIST || u == CLOSE_OBJECT then Out(d - 1)
      else if u == BACKSLASH then Bad
      else Out(d)
    case In(d) => if u == QUOTE then Out(d) else if u == BACKSLASH then Esc(d) else In(d)
    case Esc(d) => if IsEscapeLetter(u) then In(d) else Bad
    case Bad => Bad
  }

  function Run(s: Scan, t: Text): Scan
    decreases |t|
  {
    if |t| == 0 then s else Run(Next(s, t[0]), t[1..])
  }

  lemma {:induction false} RunConcat(s: Scan, a: Text, b: Text)
    ensures Run(s, a + b) == Run(Run(s, a), b)
    decreases |a|
  {
    hide Next;
    if |a| == 0 {
      assert a + b == b;
    } else {
      RunConcat(Next(s, a[0]), a[1..], b);
      assert (a + b)[1..] == a[1..] + b;
    }
  }

  lemma RunOne(s: Scan, u: Unit)
    ensures Run(s, [u]) == Next(s, u)
  {
    assert [u][1..] == [];
  }

  // --- A scan that starts in step --------------------------------------------------------------------

  /** Whatever part of the text has been read, the scan is on JSON and no shallower than `d`. */
  ghost predicate Above(s: Scan, t: Text, d: int) {
    forall n :: 0 <= n <= |t| ==> !Run(s, t[..n]).Bad? && Run(s, t[..n]).depth >= d
  }

  lemma AboveConcat(s: Scan, a: Text, b: Text, d: int)
    requires Above(s, a, d) && Above(Run(s, a), b, d)
    ensures Above(s, a + b, d)
  {
    hide Run;
    forall n | 0 <= n <= |a + b| ensures !Run(s, (a + b)[..n]).Bad? && Run(s, (a + b)[..n]).depth >= d {
      if n <= |a| {
        assert (a + b)[..n] == a[..n];
      } else {
        assert (a + b)[..n] == a + b[..n - |a|];
        RunConcat(s, a, b[..n - |a|]);
      }
    }
  }

  lemma AboveOne(s: Scan, u: Unit, d: int)
    requires !s.Bad? && s.depth >= d && !Next(s, u).Bad? && Next(s, u).depth >= d
    ensures Above(s, [u], d) && Run(s, [u]) == Next(s, u)
  {
    hide Next;
    RunOne(s, u);
    forall n | 0 <= n <= 1 ensures !Run(s, [u][..n]).Bad? && Run(s, [u][..n]).depth >= d {
      assert [u][..n] == if n == 0 then [] else [u];
    }
  }

  /** The scan crosses the text on JSON, at the same state and no shallower on the way. */
  ghost predicate Crosses(s: Scan, t: Text) {
    !s.Bad? && Run(s, t) == s && Above(s, t, s.depth)
  }

  lemma CrossConcat(s: Scan, a: Text, b: Text)
    requires Crosses(s, a) && Crosses(s, b)
    ensures Crosses(s, a + b)
  {
    hide Run, Above;
    RunConcat(s, a, b);
    AboveConcat(s, a, b, s.depth);
  }

  lemma CrossNothing(s: Scan)
    requires !s.Bad?
    ensures Crosses(s, [])
  {
  }

  lemma CrossOne(s: Scan, u: Unit)
    requires !s.Bad? && Next(s, u) == s
    ensures Crosses(s, [u])
  {
    AboveOne(s, u, s.depth);
  }

  /** Two steps that come back. */
  lemma CrossTwo(s: Scan, u: Unit, v: Unit)
    requires !s.Bad? && !Next(s, u).Bad? && Next(s, u).depth == s.depth && Next(Next(s, u), v) == s
    ensures Crosses(s, [u, v])
  {
    hide Next;
    AboveOne(s, u, s.depth);
    AboveOne(Next(s, u), v, s.depth);
    hide Run, Above;
    RunConcat(s, [u], [v]);
    AboveConcat(s, [u], [v], s.depth);
    assert [u] + [v] == [u, v];
  }

  lemma {:induction false} CrossAll(s: Scan, t: Text)
    requires !s.Bad? && forall k :: 0 <= k < |t| ==> Next(s, t[k]) == s
    ensures Crosses(s, t)
  {
    hide Next;
    if |t| == 0 {
      CrossNothing(s);
    } else {
      CrossOne(s, t[0]);
      CrossAll(s, t[1..]);
      CrossConcat(s, [t[0]], t[1..]);
      assert t == [t[0]] + t[1..];
    }
  }

  lemma EscapeCrosses(d: int, u: Unit)
    ensures Crosses(In(d), EscapeUnit(u))
  {
    var t := EscapeUnit(u);
    if ShortEscape(u).Some? {
      CrossTwo(In(d), t[0], t[1]);
    } else if |t| == 6 {
      CrossTwo(In(d), BACKSLASH, LOWER_U);
      CrossAll(In(d), Hex4(u));
      CrossConcat(In(d), [BACKSLASH, LOWER_U], Hex4(u));
    } else {
      CrossOne(In(d), u);
    }
  }

  lemma {:induction false} QuotedCrosses(d: int, s: Text)
    ensures Crosses(In(d), QuoteUnits(s))
    decreases |s|
  {
    hide Crosses, EscapeUnit;
    if |s| == 0 {
      CrossNothing(In(d));
    } else if StartsPair(s) {
      CrossAll(In(d), s[..2]);
      QuotedCrosses(d, s[2..]);
      CrossConcat(In(d), s[..2], QuoteUnits(s[2..]));
    } else {
      EscapeCrosses(d, s[0]);
      QuotedCrosses(d, s[1..]);
      CrossConcat(In(d), EscapeUnit(s[0]), QuoteUnits(s[1..]));
    }
  }

  /** Around a text that is crossed one state away, a pair of units that leads there and back is crossed too. */
  lemma CrossBetween(s: Scan, open: Unit, t: Text, close: Unit)
    requires !s.Bad? && var m := Next(s, open); !m.Bad? && m.depth >= s.depth && Crosses(m, t) && Next(m, close) == s
    ensures Crosses(s, [open] + t + [close])
    ensures Above(Next(s, open), t, Next(s, open).depth)
  {
    hide Next, Run;
    var m := Next(s, open);
    AboveOne(s, open, s.depth);
    AboveOne(m, close, s.depth);
    RunConcat(s, [open], t);
    RunConcat(s, [open] + t, [close]);
    assert Above(m, t, s.depth);
    AboveConcat(s, [open], t, s.depth);
    AboveConcat(s, [open] + t, [close], s.depth);
  }

  lemma QuoteCrosses(d: int, s: Text)
    ensures Crosses(Out(d), Quote(s))
  {
    hide Crosses, QuoteUnits;
    QuotedCrosses(d, s);
    CrossBetween(Out(d), QUOTE, QuoteUnits(s), QUOTE);
  }

  lemma {:induction false} JoinCrosses(d: int, ts: seq<Text>)
    requires forall i :: 0 <= i < |ts| ==> Crosses(Out(d), ts[i])
    ensures Crosses(Out(d), JoinTexts(ts))
  {
    hide Crosses;
    if |ts| == 0 {
      CrossNothing(Out(d));
    } else if |ts| > 1 {
      JoinCrosses(d, ts[1..]);
      CrossOne(Out(d), COMMA);
      CrossConcat(Out(d), ts[0], [COMMA]);
      CrossConcat(Out(d), ts[0] + [COMMA], JoinTexts(ts[1..]));
    }
  }

  lemma {:induction false} WriteCrosses(d: int, v: Json)
    requires Settled(v)
    ensures Crosses(Out(d), Write(v))
    decreases v, 0
  {
    hide Crosses, JoinTexts, Quote, MemberText, Digits;
    match v
    case String(s) => QuoteCrosses(d, s);
    case Array(items) =>
      forall i | 0 <= i < |items| ensures Crosses(Out(d + 1), WriteItems(items)[i]) {
        WriteCrosses(d + 1, items[i]);
      }
      JoinCrosses(d + 1, WriteItems(items));
      CrossBetween(Out(d), OPEN_LIST, JoinTexts(WriteItems(items)), CLOSE_LIST);
    case Object(ms) =>
      MembersCross(d + 1, ms);
      CrossBetween(Out(d), OPEN_OBJECT, JoinTexts(WriteMembers(ms)), CLOSE_OBJECT);
    case _ => CrossAll(Out(d), Write(v));
  }

  lemma {:induction false} MembersCross(d: int, ms: seq<Member>)
    requires forall i :: 0 <= i < |ms| ==> Settled(ms[i].value)
    ensures Crosses(Out(d), JoinTexts(WriteMembers(ms)))
    decreases ms, 1
  {
    hide Crosses, JoinTexts, Quote, Write, Settled;
    forall i | 0 <= i < |ms| ensures Crosses(Out(d), WriteMembers(ms)[i]) {
      WriteCrosses(d, ms[i].value);
      QuoteCrosses(d, ms[i].key);
      CrossOne(Out(d), COLON);
      CrossConcat(Out(d), Quote(ms[i].key), [COLON]);
      CrossConcat(Out(d), Quote(ms[i].key) + [COLON], Write(ms[i].value));
    }
    JoinCrosses(d, WriteMembers(ms));
  }

  /** Inside an object, past its first unit and before its last, the scan is deeper than before it. */
  lemma ObjectDepth(ms: seq<Member>, n: nat)
    requires Settled(Object(ms)) && 0 < n < |Write(Object(ms))|
    ensures var s := Run(Out(0), Write(Object(ms))[..n]); !s.Bad? && s.depth >= 1
  {
    hide Crosses, JoinTexts, WriteMembers, Run, Next;
    MembersCross(1, ms);
    var t := JoinTexts(WriteMembers(ms));
    CrossesAbove(Out(1), t);
    assert Write(Object(ms))[..n] == [OPEN_OBJECT] + t[..n - 1];
    RunConcat(Out(0), [OPEN_OBJECT], t[..n - 1]);
    RunOne(Out(0), OPEN_OBJECT);
    OpensDeeper();
  }

  lemma OpensDeeper()
    ensures Next(Out(0), OPEN_OBJECT) == Out(1)
  {
  }

  lemma CrossesAbove(s: Scan, t: Text)
    requires Crosses(s, t)
    ensures Run(s, t) == s && Above(s, t, s.depth)
  {
  }

  // --- A scan that starts out of step ----------------------------------------------------------------

  /** Inside a string, or off JSON. */
  predicate Shut(s: Scan) {
    s.In? || s.Bad?
  }

  lemma {:induction false} BadStays(t: Text)
    ensures Run(Bad, t) == Bad
  {
    if |t| > 0 {
      BadStays(t[1..]);
    }
  }

  predicate OpenOrBad(s: Scan) {
    s.Out? || s.Bad?
  }

  /** The inside of a quoted string, read from outside, never opens a string: its quotes come after backslashes. */
  lemma {:induction false} QuotedStaysOut(s: Text, from: Scan)
    requires OpenOrBad(from)
    ensures OpenOrBad(Run(from, QuoteUnits(s)))
    decreases |s|
  {
    if |s| > 0 {
      if StartsPair(s) {
        var t := QuoteUnits(s[2..]);
        assert QuoteUnits(s) == [s[0]] + ([s[1]] + t);
        RunConcat(from, [s[0]], [s[1]] + t);
        RunConcat(Next(from, s[0]), [s[1]], t);
        RunOne(from, s[0]);
        RunOne(Next(from, s[0]), s[1]);
        QuotedStaysOut(s[2..], Next(Next(from, s[0]), s[1]));
      } else {
        EscapeStaysOut(s[0], from);
        RunConcat(from, EscapeUnit(s[0]), QuoteUnits(s[1..]));
        QuotedStaysOut(s[1..], Run(from, EscapeUnit(s[0])));
      }
    }
  }

  lemma EscapeStaysOut(u: Unit, from: Scan)
    requires OpenOrBad(from)
    ensures OpenOrBad(Run(from, EscapeUnit(u)))
  {
    var t := EscapeUnit(u);
    if t[0] == BACKSLASH {
      BadStays(t[1..]);
    } else {
      RunOne(from, u);
    }
  }

  lemma {:induction false} PlainStaysShut(t: Text, from: Scan)
    requires Shut(from) && forall k :: 0 <= k < |t| ==> t[k] != QUOTE && t[k] != BACKSLASH
    ensures Shut(Run(from, t))
    decreases |t|
  {
    if |t| > 0 {
      PlainStaysShut(t[1..], Next(from, t[0]));
    }
  }

  lemma QuoteStaysShut(s: Text, from: Scan)
    requires Shut(from)
    ensures Shut(Run(from, Quote(s)))
  {
    hide QuoteUnits;
    RunConcat(from, [QUOTE], QuoteUnits(s));
    RunConcat(from, [QUOTE] + QuoteUnits(s), [QUOTE]);
    RunOne(from, QUOTE);
    QuotedStaysOut(s, Next(from, QUOTE));
    RunOne(Run(from, [QUOTE] + QuoteUnits(s)), QUOTE);
  }

  lemma {:induction false} JoinStaysShut(ts: seq<Text>, from: Scan)
    requires Shut(from) && forall i, s :: 0 <= i < |ts| && Shut(s) ==> Shut(Run(s, ts[i]))
    ensures Shut(Run(from, JoinTexts(ts)))
    decreases |ts|
  {
    hide Shut;
    if |ts| > 1 {
      var mid := Run(from, ts[0]);
      PlainStaysShut([COMMA], mid);
      forall i, s | 0 <= i < |ts[1..]| && Shut(s) ensures Shut(Run(s, ts[1..][i])) {
        assert ts[1..][i] == ts[i + 1];
      }
      JoinStaysShut(ts[1..], Run(mid, [COMMA]));
      RunConcat(from, ts[0], [COMMA]);
      RunConcat(from, ts[0] + [COMMA], JoinTexts(ts[1..]));
    }
  }

  lemma BracketStaysShut(open: Unit, t: Text, close: Unit, from: Scan)
    requires Shut(from) && open != QUOTE && open != BACKSLASH && close != QUOTE && close != BACKSLASH
    requires forall s :: Shut(s) ==> Shut(Run(s, t))
    ensures Shut(Run(from, [open] + t + [close]))
  {
    hide Shut, Run;
    PlainStaysShut([open], from);
    RunConcat(from, [open], t);
    RunConcat(from, [open] + t, [close]);
    PlainStaysShut([close], Run(from, [open] + t));
  }

  lemma {:induction false} WriteStaysShut(v: Json, from: Scan)
    requires Settled(v) && Shut(from)
    ensures Shut(Run(from, Write(v)))
    decreases v, 0
  {
    hide Run, JoinTexts, Quote, MemberText, Digits, Shut;
    match v
    case String(s) => QuoteStaysShut(s, from);
    case Array(items) =>
      forall s | Shut(s) ensures Shut(Run(s, JoinTexts(WriteItems(items)))) {
        forall i, s | 0 <= i < |items| && Shut(s) ensures Shut(Run(s, WriteItems(items)[i])) {
          WriteStaysShut(items[i], s);
        }
        JoinStaysShut(WriteItems(items), s);
      }
      BracketStaysShut(OPEN_LIST, JoinTexts(WriteItems(items)), CLOSE_LIST, from);
    case Object(ms) =>
      forall s | Shut(s) ensures Shut(Run(s, JoinTexts(WriteMembers(ms)))) {
        MembersStayShut(ms, s);
      }
      BracketStaysShut(OPEN_OBJECT, JoinTexts(WriteMembers(ms)), CLOSE_OBJECT, from);
    case _ => PlainStaysShut(Write(v), from);
  }

  lemma {:induction false} MembersStayShut(ms: seq<Member>, from: Scan)
    requires Shut(from) && forall i :: 0 <= i < |ms| ==> Settled(ms[i].value)
    ensures Shut(Run(from, JoinTexts(WriteMembers(ms))))
    decreases ms, 1
  {
    hide Run, JoinTexts, Quote, Write, Shut, Settled;
    forall i, s | 0 <= i < |ms| && Shut(s) ensures Shut(Run(s, WriteMembers(ms)[i])) {
      var q := Quote(ms[i].key);
      QuoteStaysShut(ms[i].key, s);
      PlainStaysShut([COLON], Run(s, q));
      RunConcat(s, q, [COLON]);
      WriteStaysShut(ms[i].value, Run(s, q + [COLON]));
      RunConcat(s, q + [COLON], Write(ms[i].value));
    }
    JoinStaysShut(WriteMembers(ms), from);
  }

  // --- One way to split ----------------------------------------------------------------------------------

  /** No proper suffix of an object text is an object text. */
  lemma NoObjectSuffix(a: seq<Member>, b: seq<Member>, n: nat)
    requires Settled(Object(a)) && Settled(Object(b)) && n < |Write(Object(a))|
    requires Write(Object(a))[n..] == Write(Object(b))
    ensures n == 0
  {
    hide Run, Write, Next, Crosses;
    var t, u := Write(Object(a)), Write(Object(b));
    WriteCrosses(0, Object(a));
    CrossesAbove(Out(0), t);
    assert t[..n] + t[n..] == t;
    RunConcat(Out(0), t[..n], u);
    var s := Run(Out(0), t[..n]);
    if n > 0 {
      ObjectDepth(a, n);
      match s {
        case Out(d) =>
          WriteCrosses(d, Object(b));
          CrossesAbove(s, u);
        case In(_) => WriteStaysShut(Object(b), s);
        case Esc(_) => BraceAfterBackslash(b, s);
        case Bad =>
      }
    }
  }

  lemma BraceAfterBackslash(ms: seq<Member>, s: Scan)
    requires s.Esc?
    ensures Run(s, Write(Object(ms))) == Bad
  {
    hide JoinTexts, WriteMembers;
    var t := Write(Object(ms));
    assert t[0] == OPEN_OBJECT;
    BadStays(t[1..]);
  }

  /** A text followed by an object text can be split in one way only. */
  lemma SplitsOneWay(p: Text, a: seq<Member>, q: Text, b: seq<Member>)
    requires Settled(Object(a)) && Settled(Object(b)) && p + Write(Object(a)) == q + Write(Object(b))
    ensures p == q && Write(Object(a)) == Write(Object(b))
  {
    hide Write;
    var s, t, u := p + Write(Object(a)), Write(Object(a)), Write(Object(b));
    ObjectNotEmpty(a);
    ObjectNotEmpty(b);
    if |p| < |q| {
      assert t[|q| - |p|..] == s[|q|..] == u;
      NoObjectSuffix(a, b, |q| - |p|);
    } else if |q| < |p| {
      assert u[|p| - |q|..] == s[|p|..] == t;
      NoObjectSuffix(b, a, |p| - |q|);
    }
    assert p == s[..|p|] && q == s[..|q|] && t == s[|p|..] && u == s[|q|..];
  }

  lemma ObjectNotEmpty(ms: seq<Member>)
    ensures |Write(Object(ms))| > 0
  {
  }
}
