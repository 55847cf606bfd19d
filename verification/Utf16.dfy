/** JavaScript strings as sequences of UTF-16 code units, and the JSON quoting of them. */
module Utf16 {
  import opened Prelude

  type Unit = u: int | 0 <= u < 0x1_0000

  type Text = seq<Unit>

  const QUOTE: Unit := 0x22
  const BACKSLASH: Unit := 0x5C
  const LOWER_U: Unit := 0x75

  /** A text of ASCII characters. */
  function Ascii(s: string): (t: Text)
    requires forall k :: 0 <= k < |s| ==> s[k] < 128 as char
    ensures |t| == |s| && forall k :: 0 <= k < |s| ==> t[k] == s[k] as int
  {
    seq(|s|, i requires 0 <= i < |s| => s[i] as int)
  }

  predicate IsHigh(u: Unit) {
    0xD800 <= u < 0xDC00
  }

  predicate IsLow(u: Unit) {
    0xDC00 <= u < 0xE000
  }

  predicate StartsPair(s: Text) {
    |s| >= 2 && IsHigh(s[0]) && IsLow(s[1])
  }

  /** No surrogate stands alone, so the UTF-8 encoding of the text loses nothing. */
  predicate WellPaired(s: Text) {
    if |s| == 0 then true
    else if StartsPair(s) then WellPaired(s[2..])
    else !IsHigh(s[0]) && !IsLow(s[0]) && WellPaired(s[1..])
  }

  lemma {:induction false} PairedConcat(a: Text, b: Text)
    requires WellPaired(a) && WellPaired(b)
    ensures WellPaired(a + b)
    decreases |a|
  {
    if |a| == 0 {
      assert a + b == b;
    } else if StartsPair(a) {
      PairedConcat(a[2..], b);
      assert (a + b)[2..] == a[2..] + b;
    } else {
      PairedConcat(a[1..], b);
      assert (a + b)[1..] == a[1..] + b;
    }
  }

  lemma {:induction false} PlainIsPaired(s: Text)
    requires forall k :: 0 <= k < |s| ==> !IsHigh(s[k]) && !IsLow(s[k])
    ensures WellPaired(s)
  {
    if |s| > 0 {
      PlainIsPaired(s[1..]);
    }
  }

  // --- Order --------------------------------------------------------------------------------------

  /** `a < b` on strings: by code units. */
  predicate Less(a: Text, b: Text) {
    |b| > 0 && (|a| == 0 || a[0] < b[0] || (a[0] == b[0] && Less(a[1..], b[1..])))
  }

  lemma {:induction false} LessIsTotal(a: Text, b: Text)
    ensures a == b || Less(a, b) || Less(b, a)
    ensures !(Less(a, b) && Less(b, a)) && !Less(a, a)
  {
    if |a| > 0 && |b| > 0 {
      LessIsTotal(a[1..], b[1..]);
      assert a == [a[0]] + a[1..] && b == [b[0]] + b[1..];
    }
    if |a| > 0 {
      LessIsTotal(a[1..], a[1..]);
    }
  }

  lemma {:induction false} LessIsTransitive(a: Text, b: Text, c: Text)
    requires Less(a, b) && Less(b, c)
    ensures Less(a, c)
  {
    if |a| > 0 && a[0] == b[0] == c[0] {
      LessIsTransitive(a[1..], b[1..], c[1..]);
    }
  }

  /** The texts agree on their first `k` units, and there one of them ends or they differ. */
  predicate FirstDifference(a: Text, b: Text, k: nat) {
    k <= |a| && k <= |b| && a[..k] == b[..k] && (|a| == k < |b| || (k < |a| && k < |b| && a[k] < b[k]))
  }

  /** `a` comes before `b`: it is a proper prefix of it, or has the smaller code unit where they first differ. */
  ghost predicate Precedes(a: Text, b: Text) {
    exists k: nat :: FirstDifference(a, b, k)
  }

  lemma {:induction false} LessIsFirstDifference(a: Text, b: Text)
    ensures Less(a, b) <==> Precedes(a, b)
    decreases |a|
  {
    if Less(a, b) {
      if |a| == 0 || a[0] < b[0] {
        assert FirstDifference(a, b, 0);
      } else {
        LessIsFirstDifference(a[1..], b[1..]);
        var k: nat :| FirstDifference(a[1..], b[1..], k);
        assert a[..k + 1] == [a[0]] + a[1..][..k] && b[..k + 1] == [b[0]] + b[1..][..k];
        assert FirstDifference(a, b, k + 1);
      }
    }
    if Precedes(a, b) {
      var k: nat :| FirstDifference(a, b, k);
      if k > 0 {
        assert a[0] == a[..k][0] == b[..k][0] == b[0];
        assert a[1..][..k - 1] == a[..k][1..] && b[1..][..k - 1] == b[..k][1..];
        assert FirstDifference(a[1..], b[1..], k - 1);
        LessIsFirstDifference(a[1..], b[1..]);
      }
    }
  }

  // --- Characters as code units --------------------------------------------------------------------

  /** One unit, or the surrogate pair of a supplementary character. */
  function UnitsOf(c: char): (t: Text)
    ensures 1 <= |t| <= 2 && (|t| == 2 <==> IsHigh(t[0])) && (|t| == 2 ==> IsLow(t[1]))
  {
    var u := c as int;
    if u < 0x1_0000 then [u] else
    assert u < 0x11_0000;
    var v := u - 0x1_0000;
    [0xD800 + v / 0x400, 0xDC00 + v % 0x400]
  }

  /** The value of a character in terms of its units. */
  lemma UnitsValue(c: char)
    ensures var t := UnitsOf(c);
            c as int == if |t| == 1 then t[0] as int else 0x1_0000 + 0x400 * (t[0] as int - 0xD800) + (t[1] as int - 0xDC00)
  {
    var v := c as int - 0x1_0000;
    assert v == 0x400 * (v / 0x400) + v % 0x400;
  }

  function Units(s: string): Text {
    if |s| == 0 then [] else UnitsOf(s[0]) + Units(s[1..])
  }

  lemma UnitsOfInjective(c: char, d: char)
    requires UnitsOf(c) == UnitsOf(d)
    ensures c == d
  {
    var t := UnitsOf(c);
    if |t| == 2 {
      var v, w := c as int - 0x1_0000, d as int - 0x1_0000;
      assert v == 0x400 * (v / 0x400) + v % 0x400 && w == 0x400 * (w / 0x400) + w % 0x400;
    }
  }

  lemma {:induction false} UnitsInjective(a: string, b: string)
    requires Units(a) == Units(b)
    ensures a == b
  {
    hide UnitsOf;
    if |a| > 0 && |b| > 0 {
      var x, y := UnitsOf(a[0]), UnitsOf(b[0]);
      assert Units(a)[0] == x[0] && Units(b)[0] == y[0];
      assert Units(a)[..|x|] == x && Units(b)[..|y|] == y;
      assert Units(a)[|x|..] == Units(a[1..]) && Units(b)[|y|..] == Units(b[1..]);
      UnitsOfInjective(a[0], b[0]);
      UnitsInjective(a[1..], b[1..]);
      assert a == [a[0]] + a[1..] && b == [b[0]] + b[1..];
    }
  }

  // --- QuoteJSONString (section 25.5.2.2 of ECMA-262) ------------------------------------------

  /** The letter of a two-character escape. */
  function ShortEscape(u: Unit): Option<Unit> {
    if u == 0x08 then Some(0x62)
    else if u == 0x09 then Some(0x74)
    else if u == 0x0A then Some(0x6E)
    else if u == 0x0C then Some(0x66)
    else if u == 0x0D then Some(0x72)
    else if u == QUOTE || u == BACKSLASH then Some(u)
    else None
  }

  function HexDigit(d: nat): (u: Unit)
    requires d < 16
    ensures IsHexDigit(u) && HexDigitValue(u) == d
  {
    if d < 10 then 0x30 + d else 0x61 + d - 10
  }

  predicate IsHexDigit(u: Unit) {
    0x30 <= u < 0x3A || 0x61 <= u < 0x67
  }

  function HexDigitValue(u: Unit): (d: nat)
    requires IsHexDigit(u)
    ensures d < 16
  {
    if u < 0x3A then u - 0x30 else u - 0x61 + 10
  }

  function Hex4(u: Unit): (t: Text)
    ensures |t| == 4 && forall k :: 0 <= k < 4 ==> IsHexDigit(t[k])
  {
    [HexDigit(u / 4096), HexDigit(u / 256 % 16), HexDigit(u / 16 % 16), HexDigit(u % 16)]
  }

  function Hex4Value(t: Text): (n: Unit)
    requires |t| == 4 && forall k :: 0 <= k < 4 ==> IsHexDigit(t[k])
  {
    4096 * HexDigitValue(t[0]) + 256 * HexDigitValue(t[1]) + 16 * HexDigitValue(t[2]) + HexDigitValue(t[3])
  }

  lemma Hex4RoundTrip(u: Unit)
    ensures Hex4Value(Hex4(u)) == u
  {
    var a, b, c := u / 16, u / 256, u / 4096;
    Divide256(u);
    Divide4096(u);
    assert u == 16 * a + u % 16 && a == 16 * b + a % 16 && b == 16 * c + b % 16;
    assert c < 16;
  }

  lemma Divide256(u: nat)
    ensures u / 256 == u / 16 / 16
  {
  }

  lemma Divide4096(u: nat)
    ensures u / 4096 == u / 256 / 16
  {
  }

  function EscapeUnit(u: Unit): Text {
    if ShortEscape(u).Some? then [BACKSLASH, ShortEscape(u).value]
    else if u < 0x20 || IsHigh(u) || IsLow(u) then [BACKSLASH, LOWER_U] + Hex4(u)
    else [u]
  }

  /** The inside of a JSON string: surrogate pairs stay as they are, lone surrogates are escaped. */
  function QuoteUnits(s: Text): Text {
    if |s| == 0 then []
    else if StartsPair(s) then s[..2] + QuoteUnits(s[2..])
    else EscapeUnit(s[0]) + QuoteUnits(s[1..])
  }

  function Quote(s: Text): Text {
    [QUOTE] + QuoteUnits(s) + [QUOTE]
  }

  /** How one unit is written inside quotes: section 25.5.2.2 of ECMA-262 as a table. */
  lemma EscapesAreWritten(u: Unit)
    ensures var hex := Ascii("0123456789abcdef");
            QuoteUnits([u]) ==
            if u == '\"' as int then Ascii("\\\"")
            else if u == '\\' as int then Ascii("\\\\")
            else if u == 8 then Ascii("\\b")
            else if u == 9 then Ascii("\\t")
            else if u == 10 then Ascii("\\n")
            else if u == 12 then Ascii("\\f")
            else if u == 13 then Ascii("\\r")
            else if u < 32 then Ascii("\\u00") + [hex[u / 16], hex[u % 16]]
            else if 0xD800 <= u < 0xE000 then Ascii("\\ud") + [hex[u / 256 % 16], hex[u / 16 % 16], hex[u % 16]]
            else [u]
  {
    HexDigits(u);
    assert QuoteUnits([u]) == EscapeUnit(u);
  }

  lemma HexDigits(u: Unit)
    ensures forall d :: 0 <= d < 16 ==> HexDigit(d) == Ascii("0123456789abcdef")[d]
    ensures u < 32 ==> Hex4(u) == [0x30, 0x30, HexDigit(u / 16), HexDigit(u % 16)]
    ensures 0xD800 <= u < 0xE000 ==> Hex4(u) == [0x64, HexDigit(u / 256 % 16), HexDigit(u / 16 % 16), HexDigit(u % 16)]
  {
  }

  lemma {:induction false} QuotedIsPaired(s: Text)
    ensures WellPaired(QuoteUnits(s))
  {
    if |s| > 0 {
      if StartsPair(s) {
        QuotedIsPaired(s[2..]);
        var t := QuoteUnits(s);
        assert t[0] == s[0] && t[1] == s[1] && t[2..] == QuoteUnits(s[2..]);
      } else {
        QuotedIsPaired(s[1..]);
        PlainIsPaired(EscapeUnit(s[0]));
        PairedConcat(EscapeUnit(s[0]), QuoteUnits(s[1..]));
      }
    }
  }

  // --- The reader -----------------------------------------------------------------------------------

  function LongEscape(letter: Unit): Option<Unit> {
    if letter == 0x62 then Some(0x08)
    else if letter == 0x74 then Some(0x09)
    else if letter == 0x6E then Some(0x0A)
    else if letter == 0x66 then Some(0x0C)
    else if letter == 0x72 then Some(0x0D)
    else if letter == QUOTE || letter == BACKSLASH then Some(letter)
    else None
  }

  /** One unit of a string, escaped or not, and the text after it. */
  function ReadUnit(s: Text): (r: Option<(Unit, Text)>)
    ensures r.Some? ==> |r.value.1| < |s|
  {
    if |s| == 0 || s[0] == QUOTE then None
    else if s[0] != BACKSLASH then Some((s[0], s[1..]))
    else if |s| < 2 then None
    else if s[1] != LOWER_U then if LongEscape(s[1]).Some? then Some((LongEscape(s[1]).value, s[2..])) else None
    else if |s| < 6 || !(forall k :: 2 <= k < 6 ==> IsHexDigit(s[k])) then None
    else Some((Hex4Value(s[2..6]), s[6..]))
  }

  /** The string up to its closing quote, after `acc`, and the text after the quote. */
  function ReadString(s: Text, acc: Text): (r: Option<(Text, Text)>)
    ensures r.Some? ==> |r.value.1| < |s|
    decreases |s|
  {
    if |s| > 0 && s[0] == QUOTE then Some((acc, s[1..])) else
    match ReadUnit(s)
    case None => None
    case Some((u, rest)) => ReadString(rest, acc + [u])
  }

  lemma EscapeReads(u: Unit, rest: Text)
    ensures ReadUnit(EscapeUnit(u) + rest) == Some((u, rest))
  {
    var s := EscapeUnit(u) + rest;
    if ShortEscape(u).Some? {
      assert s[2..] == rest;
    } else if u < 0x20 || IsHigh(u) || IsLow(u) {
      Hex4RoundTrip(u);
      assert s[2..6] == Hex4(u) && s[6..] == rest;
      assert forall k :: 2 <= k < 6 ==> s[k] == s[2..6][k - 2];
    } else {
      assert s[1..] == rest;
    }
  }

  lemma {:induction false} QuotedReads(s: Text, rest: Text, acc: Text)
    ensures ReadString(QuoteUnits(s) + [QUOTE] + rest, acc) == Some((acc + s, rest))
    decreases |s|
  {
    hide ReadUnit, EscapeUnit;
    var t := QuoteUnits(s) + [QUOTE] + rest;
    if |s| == 0 {
      assert t[1..] == rest && acc + s == acc;
    } else if StartsPair(s) {
      var t2 := QuoteUnits(s[2..]) + [QUOTE] + rest;
      assert t == [s[0]] + ([s[1]] + t2);
      PlainReads(s[0], [s[1]] + t2, acc);
      PlainReads(s[1], t2, acc + [s[0]]);
      QuotedReads(s[2..], rest, acc + [s[0]] + [s[1]]);
      assert acc + [s[0]] + [s[1]] + s[2..] == acc + s;
    } else {
      var t1 := QuoteUnits(s[1..]) + [QUOTE] + rest;
      assert t == EscapeUnit(s[0]) + t1;
      EscapedReads(s[0], t1, acc);
      QuotedReads(s[1..], rest, acc + [s[0]]);
      assert acc + [s[0]] + s[1..] == acc + s;
    }
  }

  lemma PlainReads(u: Unit, rest: Text, acc: Text)
    requires u != QUOTE && u != BACKSLASH
    ensures ReadString([u] + rest, acc) == ReadString(rest, acc + [u])
  {
    assert ([u] + rest)[1..] == rest;
  }

  lemma EscapedReads(u: Unit, rest: Text, acc: Text)
    ensures ReadString(EscapeUnit(u) + rest, acc) == ReadString(rest, acc + [u])
  {
    hide ReadUnit;
    EscapeReads(u, rest);
  }
}
