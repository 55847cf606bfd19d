/** The tokenizer and `parseExpression`. */
module Lexer {
  import opened Prelude
  import opened Syntax
  import opened Identifiers
  import opened ExpressionParser
  import opened ParserObject
  import opened Whitespace

  predicate IsNumberChar(c: char) {
    IsDigitChar(c) || c == '.'
  }

  predicate IsHex(c: char) {
    IsDigitChar(c) || 'a' <= c <= 'f' || 'A' <= c <= 'F'
  }

  function HexValue(c: char): (v: nat)
    requires IsHex(c)
    ensures v < 16
  {
    if IsDigitChar(c) then c as int - '0' as int
    else if 'a' <= c <= 'f' then c as int - 'a' as int + 10
    else c as int - 'A' as int + 10
  }

  /** The value of four hexadecimal digits. */
  function HexQuad(s: string): (v: nat)
    requires |s| == 4 && forall k :: 0 <= k < 4 ==> IsHex(s[k])
    ensures v < 0x10000
  {
    4096 * HexValue(s[0]) + 256 * HexValue(s[1]) + 16 * HexValue(s[2]) + HexValue(s[3])
  }

  function EscapeValue(c: char): char {
    if c == 'n' then '\n' else if c == 't' then '\t' else if c == 'r' then '\r' else c
  }

  /** The rest of a string literal, after its opening quote; a surrogate escape is rejected here. */
  function LexString(s: string, quote: char, acc: string): (r: Parsed<(string, string)>)
    ensures r.Good? ==> |r.value.1| < |s|
  {
    if |s| == 0 then Bad(Unparseable)
    else if s[0] == quote then Good((acc, s[1..]))
    else if s[0] != '\\' then LexString(s[1..], quote, acc + [s[0]])
    else if |s| == 1 then Bad(Unparseable)
    else if s[1] != 'u' then LexString(s[2..], quote, acc + [EscapeValue(s[1])])
    else if |s| < 6 || !(forall k :: 2 <= k < 6 ==> IsHex(s[k])) then Bad(Unparseable)
    else
      var v := HexQuad(s[2..6]);
      if 0xD800 <= v < 0xE000 then Bad(Unparseable) else LexString(s[6..], quote, acc + [v as char])
  }

  /** How many leading characters belong to a number or a name. */
  function RunLength(s: string, number: bool): (n: nat)
    ensures n <= |s|
    ensures forall k :: 0 <= k < n ==> if number then IsNumberChar(s[k]) else IsNameChar(s[k])
    ensures n < |s| ==> if number then !IsNumberChar(s[n]) else !IsNameChar(s[n])
  {
    if |s| > 0 && (if number then IsNumberChar(s[0]) else IsNameChar(s[0])) then 1 + RunLength(s[1..], number) else 0
  }

  function Word(id: string): Token {
    var lower := Lower(id);
    if lower == "true" then BoolTok(true)
    else if lower == "false" then BoolTok(false)
    else if lower == "null" then NullTok
    else if lower == "or" then OrTok
    else if lower == "and" then AndTok
    else if lower == "not" then NotTok
    else Ident(id)
  }

  function TwoCharOp(s: string): Option<Token> {
    if |s| < 2 || s[1] != '=' then None
    else if s[0] == '=' then Some(OpTok(EqOp))
    else if s[0] == '!' then Some(OpTok(NeqOp))
    else if s[0] == '<' then Some(OpTok(LteOp))
    else if s[0] == '>' then Some(OpTok(GteOp))
    else None
  }

  function OneCharOp(c: char): Option<Token> {
    match c
    case '.' => Some(Dot)
    case '[' => Some(LBracket)
    case ']' => Some(RBracket)
    case '(' => Some(LParen)
    case ')' => Some(RParen)
    case ',' => Some(Comma)
    case '+' => Some(OpTok(AddOp))
    case '-' => Some(OpTok(SubOp))
    case '*' => Some(OpTok(MulOp))
    case '/' => Some(OpTok(DivOp))
    case '%' => Some(OpTok(ModOp))
    case '<' => Some(OpTok(LtOp))
    case '>' => Some(OpTok(GtOp))
    case _ => None
  }

  /** The first token of text that starts with no space, and the text after it. */
  function NextToken(s: string): (r: Parsed<(Token, string)>)
    requires |s| > 0
    ensures r.Good? ==> |r.value.1| < |s|
  {
    if s[0] == '"' || s[0] == '\'' then
      match LexString(s[1..], s[0], "")
      case Bad(e) => Bad(e)
      case Good((v, rest)) => Good((StrTok(v), rest))
    else if IsDigitChar(s[0]) then
      var n := RunLength(s, true);
      Good((NumTok(s[..n]), s[n..]))
    else if IsNameStart(s[0]) then
      var n := RunLength(s, false);
      Good((Word(s[..n]), s[n..]))
    else if TwoCharOp(s).Some? then Good((TwoCharOp(s).value, s[2..]))
    else if OneCharOp(s[0]).Some? then Good((OneCharOp(s[0]).value, s[1..]))
    else Bad(Unparseable)
  }

  /** `tokenize`; tokens never outnumber characters. */
  function Lex(s: string, acc: seq<Token>): (r: Parsed<seq<Token>>)
    ensures r.Good? ==> |r.value| <= |acc| + |s|
    ensures r != Bad(ParserOpLimit)
    decreases |s|
  {
    if |s| == 0 then Good(acc)
    else if IsSpace(s[0]) then Lex(s[1..], acc)
    else
      match NextToken(s)
      case Bad(e) => Bad(Unparseable)
      case Good((t, rest)) => Lex(rest, acc + [t])
  }

  /** `parseExpression`: its 500 characters can never use up the parser's 10,000 operations. */
  function ParseExpression(expr: string): (r: Parsed<Node>)
    ensures r != Bad(ParserOpLimit)
  {
    if |expr| > MAX_EXPRESSION_LENGTH then Bad(TooLong) else
    match Lex(expr, [])
    case Bad(e) => Bad(e)
    case Good(ts) => if |ts| == 0 then Bad(Unparseable) else ParseTokens(ts)
  }

  // --- The index-driven loops ----------------------------------------------------------------

  method ScanString(input: string, start: nat, quote: char) returns (r: Parsed<string>, next: nat)
    requires start <= |input|
    ensures match LexString(input[start..], quote, "")
            case Bad(e) => r == Bad(e)
            case Good((v, rest)) => r == Good(v) && start < next <= |input| && input[next..] == rest
  {
    hide IsHex, HexQuad, EscapeValue;
    var i := start;
    var str := "";
    next := start;
    while i < |input| && input[i] != quote
      invariant start <= i <= |input|
      invariant LexString(input[start..], quote, "") == LexString(input[i..], quote, str)
    {
      var s := input[i..];
      if input[i] != '\\' {
        assert s[1..] == input[i + 1..];
        str := str + [input[i]];
        i := i + 1;
      } else {
        if i + 1 >= |input| {
          return Bad(Unparseable), i;
        }
        if input[i + 1] != 'u' {
          assert s[2..] == input[i + 2..];
          str := str + [EscapeValue(input[i + 1])];
          i := i + 2;
        } else {
          if i + 6 > |input| || !(forall k :: 2 <= k < 6 ==> IsHex(input[i..][k])) {
            return Bad(Unparseable), i;
          }
          assert s[6..] == input[i + 6..];
          var v := HexQuad(input[i..][2..6]);
          if 0xD800 <= v < 0xE000 {
            return Bad(Unparseable), i;
          }
          str := str + [v as char];
          i := i + 6;
        }
      }
    }
    if i >= |input| {
      return Bad(Unparseable), i;
    }
    assert input[i..][1..] == input[i + 1..];
    return Good(str), i + 1;
  }

  method ScanRun(input: string, start: nat, number: bool) returns (i: nat)
    requires start <= |input|
    ensures i == start + RunLength(input[start..], number)
  {
    i := start;
    while i < |input| && (if number then IsNumberChar(input[i]) else IsNameChar(input[i]))
      invariant start <= i <= |input|
      invariant start + RunLength(input[start..], number) == i + RunLength(input[i..], number)
    {
      assert input[i..][1..] == input[i + 1..];
      i := i + 1;
    }
  }

  /** One token of the scan, at a character that is no space. */
  method ReadToken(input: string, i: nat) returns (r: Parsed<Token>, next: nat)
    requires i < |input|
    ensures match NextToken(input[i..])
            case Bad(e) => r.Bad?
            case Good((t, rest)) => r == Good(t) && i < next <= |input| && input[next..] == rest
  {
    hide LexString, RunLength, Word;
    var ch := input[i];
    next := i;
    ghost var s := input[i..];
    if ch == '"' || ch == '\'' {
      assert s[1..] == input[i + 1..];
      var str, end := ScanString(input, i + 1, ch);
      if str.Bad? {
        return Bad(Unparseable), i;
      }
      return Good(StrTok(str.value)), end;
    }
    if IsDigitChar(ch) {
      var end := ScanRun(input, i, true);
      assert s[..end - i] == input[i..end] && s[end - i..] == input[end..];
      return Good(NumTok(input[i..end])), end;
    }
    if IsNameStart(ch) {
      var end := ScanRun(input, i, false);
      assert s[..end - i] == input[i..end] && s[end - i..] == input[end..];
      return Good(Word(input[i..end])), end;
    }
    var two := TwoCharOp(input[i..]);
    if two.Some? {
      assert s[2..] == input[i + 2..];
      return Good(two.value), i + 2;
    }
    var one := OneCharOp(ch);
    if one.None? {
      return Bad(Unparseable), i;
    }
    assert s[1..] == input[i + 1..];
    return Good(one.value), i + 1;
  }

  method Tokenize(input: string) returns (r: Parsed<seq<Token>>)
    ensures r == Lex(input, [])
  {
    hide NextToken, IsSpace;
    var tokens: seq<Token> := [];
    var i := 0;
    assert input[0..] == input;
    while i < |input|
      invariant 0 <= i <= |input|
      invariant Lex(input, []) == Lex(input[i..], tokens)
    {
      if IsSpace(input[i]) {
        assert input[i..][1..] == input[i + 1..];
        i := i + 1;
      } else {
        var t, next := ReadToken(input, i);
        if t.Bad? {
          return Bad(Unparseable);
        }
        tokens := tokens + [t.value];
        i := next;
      }
    }
    r := Good(tokens);
  }

  method ParseText(expr: string) returns (r: Parsed<Node>)
    ensures r == ParseExpression(expr)
  {
    if |expr| > MAX_EXPRESSION_LENGTH {
      return Bad(TooLong);
    }
    var tokens := Tokenize(expr);
    if tokens.Bad? {
      return Bad(tokens.error);
    }
    if |tokens.value| == 0 {
      return Bad(Unparseable);
    }
    var parser := new Parser(tokens.value);
    r := parser.Parse();
  }
}
