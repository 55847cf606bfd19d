/** Writing tokens and trees as text, and reading the text back. */
module ExpressionText {
  import opened Syntax
  import opened Identifiers
  import opened ExpressionParser
  import opened ExpressionPrinter
  import opened Precedence
  import opened Lexer
  import opened Whitespace

  /** A backslash before every backslash and every quote. */
  function Escape(s: string, quote: char): string {
    if |s| == 0 then ""
    else if s[0] == '\\' || s[0] == quote then ['\\', s[0]] + Escape(s[1..], quote)
    else [s[0]] + Escape(s[1..], quote)
  }

  function Quoted(s: string, quote: char): string {
    [quote] + Escape(s, quote) + [quote]
  }

  function OpText(op: BinOp): string {
    match op
    case EqOp => "=="
    case NeqOp => "!="
    case LtOp => "<"
    case LteOp => "<="
    case GtOp => ">"
    case GteOp => ">="
    case AddOp => "+"
    case SubOp => "-"
    case MulOp => "*"
    case DivOp => "/"
    case ModOp => "%"
  }

  function TokenText(t: Token): string {
    match t
    case NumTok(text) => text
    case StrTok(v) => Quoted(v, '"')
    case BoolTok(b) => if b then "true" else "false"
    case NullTok => "null"
    case Ident(name) => name
    case Dot => "."
    case LBracket => "["
    case RBracket => "]"
    case LParen => "("
    case RParen => ")"
    case Comma => ","
    case OpTok(op) => OpText(op)
    case OrTok => "or"
    case AndTok => "and"
    case NotTok => "not"
  }

  /** The tokens that text can spell. */
  predicate Writable(t: Token) {
    match t
    case NumTok(text) => |text| > 0 && IsDigitChar(text[0]) && forall k :: 0 <= k < |text| ==> IsNumberChar(text[k])
    case Ident(name) => IsName(name)
    case _ => true
  }

  function Write(ts: seq<Token>): string {
    if |ts| == 0 then "" else TokenText(ts[0]) + " " + Write(ts[1..])
  }

  /** A quoted string reads back to itself, whatever it holds. */
  lemma {:induction false} QuotedLexes(s: string, quote: char, rest: string, acc: string)
    requires quote == '"' || quote == '\''
    ensures LexString(Escape(s, quote) + [quote] + rest, quote, acc) == Good((acc + s, rest))
    decreases |s|
  {
    var e := Escape(s, quote) + [quote] + rest;
    if |s| == 0 {
      assert e == [quote] + rest;
      assert e[1..] == rest;
      assert acc + s == acc;
    } else {
      var tail := Escape(s[1..], quote) + [quote] + rest;
      QuotedLexes(s[1..], quote, rest, acc + [s[0]]);
      assert acc + [s[0]] + s[1..] == acc + s;
      if s[0] == '\\' || s[0] == quote {
        assert e == ['\\', s[0]] + tail;
        assert e[2..] == tail;
      } else {
        assert e == [s[0]] + tail;
        assert e[1..] == tail;
      }
    }
  }

  /** Any string in either kind of quotes is one string token with that value. */
  lemma QuotedIsOneToken(s: string, quote: char)
    requires quote == '"' || quote == '\''
    ensures Lex(Quoted(s, quote), []) == Good([StrTok(s)])
  {
    var q := Quoted(s, quote);
    QuotedLexes(s, quote, "", "");
    assert q[1..] == Escape(s, quote) + [quote] + "";
    assert "" + s == s;
    assert NextToken(q) == Good((StrTok(s), ""));
    assert [] + [StrTok(s)] == [StrTok(s)];
  }

  lemma {:induction false} RunOf(w: string, rest: string, number: bool)
    requires forall k :: 0 <= k < |w| ==> if number then IsNumberChar(w[k]) else IsNameChar(w[k])
    ensures RunLength(w + " " + rest, number) == |w|
  {
    var s := w + " " + rest;
    var n := RunLength(s, number);
    assert forall k :: 0 <= k < |w| ==> s[k] == w[k];
    assert s[|w|] == ' ';
  }

  lemma KeywordRun(w: string, rest: string)
    requires w in KEYWORDS
    ensures NextToken(w + " " + rest) == Good((Word(w), " " + rest))
  {
    hide LexString, RunLength, Word, TwoCharOp, OneCharOp;
    RunOf(w, rest, false);
    var s := w + " " + rest;
    assert s[0] == w[0] && s[..|w|] == w && s[|w|..] == " " + rest;
  }

  lemma LowerKeyword(w: string)
    requires w in KEYWORDS
    ensures Lower(w) == w
  {
  }

  ghost predicate Leads(w: string, t: Token, rest: string) {
    var s := w + " " + rest;
    |w| > 0 && !IsSpace(s[0]) && NextToken(s) == Good((t, " " + rest))
  }

  lemma StringLexes(v: string, rest: string)
    ensures Leads(Quoted(v, '"'), StrTok(v), rest)
  {
    var s := Quoted(v, '"') + " " + rest;
    QuotedLexes(v, '"', " " + rest, "");
    assert s[1..] == Escape(v, '"') + ['"'] + (" " + rest);
    assert "" + v == v;
  }

  lemma RunLexes(w: string, t: Token, rest: string)
    requires Writable(t) && TokenText(t) == w && (t.NumTok? || t.Ident?)
    ensures Leads(w, t, rest)
  {
    var s := w + " " + rest;
    RunOf(w, rest, t.NumTok?);
    assert s[0] == w[0] && s[..|w|] == w && s[|w|..] == " " + rest;
    if t.Ident? {
      assert Lower(w) !in KEYWORDS;
    }
  }

  lemma MarkLexes(t: Token, rest: string)
    requires t.Dot? || t.LBracket? || t.RBracket? || t.LParen? || t.RParen? || t.Comma?
    ensures Leads(TokenText(t), t, rest)
  {
    var s := TokenText(t) + " " + rest;
    assert s[1..] == " " + rest;
    assert s[1] == ' ';
  }

  /** Each token's text, followed by a space, reads back as that token. */
  lemma TokenLexes(t: Token, rest: string)
    requires Writable(t)
    ensures Leads(TokenText(t), t, rest)
  {
    match t {
      case StrTok(v) => StringLexes(v, rest);
      case NumTok(_) => RunLexes(TokenText(t), t, rest);
      case Ident(_) => RunLexes(TokenText(t), t, rest);
      case BoolTok(b) => WordLexes(TokenText(t), t, rest);
      case NullTok => WordLexes("null", t, rest);
      case OrTok => WordLexes("or", t, rest);
      case AndTok => WordLexes("and", t, rest);
      case NotTok => WordLexes("not", t, rest);
      case OpTok(op) => OpLexes(op, rest);
      case _ => MarkLexes(t, rest);
    }
  }

  lemma WordLexes(w: string, t: Token, rest: string)
    requires w in KEYWORDS && w == TokenText(t) && (t.BoolTok? || t.NullTok? || t.OrTok? || t.AndTok? || t.NotTok?)
    ensures Leads(w, t, rest)
  {
    KeywordRun(w, rest);
    LowerKeyword(w);
  }

  lemma OpLexes(op: BinOp, rest: string)
    ensures Leads(OpText(op), OpTok(op), rest)
  {
    var w := OpText(op);
    var s := w + " " + rest;
    assert s[|w|..] == " " + rest;
    assert s[|w|] == ' ';
  }

  /** Written tokens read back. */
  lemma {:induction false} WrittenLexes(ts: seq<Token>, acc: seq<Token>)
    requires forall k :: 0 <= k < |ts| ==> Writable(ts[k])
    ensures Lex(Write(ts), acc) == Good(acc + ts)
    decreases |ts|
  {
    hide Lex, TokenText, Leads, Writable;
    if |ts| == 0 {
      LexEmpty(acc);
      assert acc + ts == acc;
    } else {
      var rest := Write(ts[1..]);
      TokenLexes(ts[0], rest);
      LexStep(TokenText(ts[0]), ts[0], rest, acc);
      WrittenLexes(ts[1..], acc + [ts[0]]);
      assert acc + [ts[0]] + ts[1..] == acc + ts;
    }
  }

  lemma LexEmpty(acc: seq<Token>)
    ensures Lex("", acc) == Good(acc)
  {
  }

  lemma LexStep(w: string, t: Token, rest: string, acc: seq<Token>)
    requires Leads(w, t, rest)
    ensures Lex(w + " " + rest, acc) == Lex(rest, acc + [t])
  {
    hide NextToken;
    assert (" " + rest)[1..] == rest;
  }

  lemma {:induction false} WriteIsLonger(ts: seq<Token>)
    requires forall k :: 0 <= k < |ts| ==> Writable(ts[k])
    ensures |ts| <= |Write(ts)|
  {
    if |ts| > 0 {
      WriteIsLonger(ts[1..]);
    }
  }

  /** A tree's text. */
  function Text(n: Node): string {
    Write(Print(n, OR))
  }

  /** Parsing undoes printing, on every tree within the nesting and length limits. */
  lemma TextThenParse(n: Node)
    requires Wf(n) && Depth(n, OR) <= MAX_RECURSION
    requires forall k :: 0 <= k < |Print(n, OR)| ==> Writable(Print(n, OR)[k])
    requires |Text(n)| <= MAX_EXPRESSION_LENGTH
    ensures ParseExpression(Text(n)) == Good(n)
  {
    var ts := Print(n, OR);
    WrittenLexes(ts, []);
    assert [] + ts == ts;
    WriteIsLonger(ts);
    FirstToken(n, OR);
    PrintThenParse(n);
  }

  /** So does the text of a tree that needs no parentheses, written without any. */
  lemma FlatTextParses(n: Node)
    requires Grouped(n) && |Write(Flat(n))| <= MAX_EXPRESSION_LENGTH
    requires forall k :: 0 <= k < |Flat(n)| ==> Writable(Flat(n)[k])
    ensures ParseExpression(Write(Flat(n))) == Good(n)
  {
    hide Print, Wf, Depth, Flat, Grouped;
    FlatIsPrinted(n, OR);
    TextThenParse(n);
  }

  // --- Characters ---------------------------------------------------------------------------------------

  const OPERATORS := map["==" := EqOp, "!=" := NeqOp, "<" := LtOp, "<=" := LteOp, ">" := GtOp, ">=" := GteOp,
                         "+" := AddOp, "-" := SubOp, "*" := MulOp, "/" := DivOp, "%" := ModOp]

  const MARKS := map["." := Dot, "[" := LBracket, "]" := RBracket, "(" := LParen, ")" := RParen, "," := Comma]

  const WORDS := map["true" := BoolTok(true), "false" := BoolTok(false), "null" := NullTok, "or" := OrTok, "and" := AndTok, "not" := NotTok]

  lemma OperatorsAreSpelled(t: string, rest: string)
    requires t in OPERATORS
    ensures NextToken(t + " " + rest) == Good((OpTok(OPERATORS[t]), " " + rest))
  {
    hide NextToken, IsSpace;
    OpLexes(OPERATORS[t], rest);
  }

  lemma MarksAreSpelled(t: string, rest: string)
    requires t in MARKS
    ensures NextToken(t + " " + rest) == Good((MARKS[t], " " + rest))
  {
    hide NextToken, IsSpace;
    MarkLexes(MARKS[t], rest);
  }

  /** Keywords are read in any case; every other word is a name as it stands. */
  lemma WordsAreRead(w: string, rest: string)
    requires |w| > 0 && !('0' <= w[0] <= '9')
    requires forall k :: 0 <= k < |w| ==> 'a' <= w[k] <= 'z' || 'A' <= w[k] <= 'Z' || w[k] == '_' || '0' <= w[k] <= '9'
    ensures NextToken(w + " " + rest) == Good((if Lower(w) in WORDS then WORDS[Lower(w)] else Ident(w), " " + rest))
    ensures Lower("TRUE") == "true" && Lower("And") == "and" && Lower("or") == "or"
  {
    hide Lower;
    RunOf(w, rest, false);
    var s := w + " " + rest;
    assert s[0] == w[0] && s[..|w|] == w && s[|w|..] == " " + rest;
    LowerByExample();
  }

  lemma LowerByExample()
    ensures Lower("TRUE") == "true" && Lower("And") == "and" && Lower("or") == "or"
  {
  }

  /** A backslash in a string literal: the three short escapes, and any other character but `u` for itself. */
  lemma EscapesAreRead(quote: char, c: char)
    requires quote in {'"', '\''} && c != 'u'
    ensures Lex([quote, '\\', c, quote], []) ==
            Good([StrTok(if c == 'n' then "\n" else if c == 't' then "\t" else if c == 'r' then "\r" else [c])])
  {
    var s := [quote, '\\', c, quote];
    var v := [EscapeValue(c)];
    assert s[1..] == ['\\', c, quote] && s[1..][2..] == [quote] && [quote][1..] == "";
    assert "" + v == v;
    assert LexString([quote], quote, v) == Good((v, ""));
    assert LexString(s[1..], quote, "") == Good((v, ""));
    assert NextToken(s) == Good((StrTok(v), ""));
    assert [] + [StrTok(v)] == [StrTok(v)];
  }

  const HEX := "0123456789abcdef"
  const UPPER_HEX := "0123456789ABCDEF"

  /** `\u` and four hexadecimal digits, in either case, stand for the character of that number. */
  lemma HexEscapesAreRead(quote: char, a: nat, b: nat, c: nat, d: nat, upper: bool)
    requires quote in {'"', '\''} && a < 16 && b < 16 && c < 16 && d < 16
    ensures var digits := if upper then UPPER_HEX else HEX;
            var v := 4096 * a + 256 * b + 16 * c + d;
            Lex([quote, '\\', 'u', digits[a], digits[b], digits[c], digits[d], quote], []) ==
            if 0xD800 <= v < 0xE000 then Bad(Unparseable) else Good([StrTok([v as char])])
  {
    hide LexString, IsHex, HexValue, HexQuad;
    var digits := if upper then UPPER_HEX else HEX;
    var s := [quote, '\\', 'u', digits[a], digits[b], digits[c], digits[d], quote];
    var v := 4096 * a + 256 * b + 16 * c + d;
    HexLexed(quote, digits[a], digits[b], digits[c], digits[d], a, b, c, d, upper);
    assert s[1..] == ['\\', 'u', digits[a], digits[b], digits[c], digits[d], quote];
    assert forall t: Token :: [] + [t] == [t];
  }

  lemma HexDigitOf(d: nat)
    requires d < 16
    ensures IsHex(HEX[d]) && HexValue(HEX[d]) == d && IsHex(UPPER_HEX[d]) && HexValue(UPPER_HEX[d]) == d
  {
  }

  lemma HexLexed(quote: char, w: char, x: char, y: char, z: char, a: nat, b: nat, c: nat, d: nat, upper: bool)
    requires quote in {'"', '\''} && a < 16 && b < 16 && c < 16 && d < 16
    requires var digits := if upper then UPPER_HEX else HEX; [w, x, y, z] == [digits[a], digits[b], digits[c], digits[d]]
    ensures var v := 4096 * a + 256 * b + 16 * c + d;
            LexString(['\\', 'u', w, x, y, z, quote], quote, "") ==
            if 0xD800 <= v < 0xE000 then Bad(Unparseable) else Good(([v as char], ""))
  {
    hide IsHex, HexValue;
    HexDigitOf(a);
    HexDigitOf(b);
    HexDigitOf(c);
    HexDigitOf(d);
    assert [w, x, y, z][0] == w && [w, x, y, z][1] == x && [w, x, y, z][2] == y && [w, x, y, z][3] == z;
    var s := ['\\', 'u', w, x, y, z, quote];
    var q := s[2..6];
    assert q[0] == w && q[1] == x && q[2] == y && q[3] == z;
    assert s[6..] == [quote] && [quote][1..] == "";
    var v := HexQuad(q);
    if !(0xD800 <= v < 0xE000) {
      assert "" + [v as char] == [v as char];
      assert LexString([quote], quote, [v as char]) == Good(([v as char], ""));
    }
  }

  /** A text of more than 500 characters is not looked at; any other is its tokens, if there are any and all are read. */
  lemma TextIsTokens(expr: string)
    ensures |expr| > 500 ==> ParseExpression(expr) == Bad(TooLong)
    ensures |expr| <= 500 ==>
              ParseExpression(expr) == if Lex(expr, []).Bad? || Lex(expr, []).value == [] then
                                         (if Lex(expr, []).Bad? then Bad(Lex(expr, []).error) else Bad(Unparseable))
                                       else ParseTokens(Lex(expr, []).value)
  {
    hide Lex, ParseTokens;
  }

  /** A numeral is a digit and any digits and points behind it. */
  lemma NumeralsAreRead(w: string, rest: string)
    requires |w| > 0 && '0' <= w[0] <= '9' && forall k :: 0 <= k < |w| ==> '0' <= w[k] <= '9' || w[k] == '.'
    ensures NextToken(w + " " + rest) == Good((NumTok(w), " " + rest))
  {
    hide NextToken;
    RunLexes(w, NumTok(w), rest);
  }

  /** A string literal that is not closed is rejected. */
  lemma UnclosedIsRejected(quote: char, s: string)
    requires quote in {'"', '\''} && forall k :: 0 <= k < |s| ==> s[k] != quote && s[k] != '\\'
    ensures Lex([quote] + s, []) == Bad(Unparseable)
  {
    hide LexString;
    var t := [quote] + s;
    assert t[1..] == s;
    NeverClosed(s, quote, "");
  }

  lemma {:induction false} NeverClosed(s: string, quote: char, acc: string)
    requires forall k :: 0 <= k < |s| ==> s[k] != quote && s[k] != '\\'
    ensures LexString(s, quote, acc) == Bad(Unparseable)
    decreases |s|
  {
    if |s| > 0 {
      NeverClosed(s[1..], quote, acc + [s[0]]);
    }
  }

  /** So is a character that starts nothing: braces, and an equals sign or an exclamation mark on its own. */
  lemma StrayCharacterIsRejected(c: char, rest: string, acc: seq<Token>)
    requires !IsSpace(c) && c !in "\"'_.[](),+-*/%<>" && !('a' <= c <= 'z' || 'A' <= c <= 'Z' || '0' <= c <= '9')
    requires c in "=!" ==> |rest| == 0 || rest[0] != '='
    ensures Lex([c] + rest, acc) == Bad(Unparseable)
  {
    hide LexString, RunLength, Word;
    var s := [c] + rest;
    assert NextToken(s).Bad?;
  }
}
