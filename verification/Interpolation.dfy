/** `{{ }}` interpolation and its `\{{` escape. */
module Interpolation {
  import opened Prelude
  import opened Values
  import opened Whitespace

  const UNPARSEABLE := "unparseable_expression"

  /** The text starts with `{{`. */
  predicate Opens(s: string) {
    |s| >= 2 && s[0] == '{' && s[1] == '{'
  }

  /** The text starts with `}}`. */
  predicate Closes(s: string) {
    |s| >= 2 && s[0] == '}' && s[1] == '}'
  }

  /** The text starts with the escape `\\{{`. */
  predicate Escapes(s: string) {
    |s| >= 3 && s[0] == '\\' && s[1] == '{' && s[2] == '{'
  }

  /** Position of the first `}}`, or the end of the text. */
  function CloseAt(s: string): (n: nat)
    ensures n <= |s|
    ensures n < |s| ==> Closes(s[n..])
  {
    if |s| == 0 || Closes(s) then 0 else 1 + CloseAt(s[1..])
  }

  lemma {:induction false} CloseIsFirst(s: string, k: nat)
    requires k < CloseAt(s)
    ensures !Closes(s[k..])
  {
    if k > 0 {
      CloseIsFirst(s[1..], k - 1);
      assert s[k..] == s[1..][k - 1..];
    } else {
      assert s[0..] == s;
    }
  }

  /** One block, from after its `{{`: the value of the expression and the text after the `}}`. */
  function ReadBlock(s: string, eval: string -> Result<Value>): (r: Result<(Value, string)>)
    ensures r.Ok? ==> |r.value.1| <= |s|
  {
    var body := TrimStart(s);
    var n := CloseAt(body);
    if n >= |body| then Err(UNPARSEABLE) else
    match eval(Trim(body[..n]))
    case Err(code) => Err(code)
    case Ok(v) => Ok((v, body[n + 2..]))
  }

  /** `resolveInterpolation`; `eval` evaluates an expression in the context and `show` is `stringifyValue`. */
  function Resolve(s: string, eval: string -> Result<Value>, show: Value -> string, acc: string): Result<string>
    decreases |s|
  {
    if |s| == 0 then Ok(acc)
    else if Escapes(s) then Resolve(s[3..], eval, show, acc + "{{")
    else if Opens(s) then
      match ReadBlock(s[2..], eval)
      case Err(code) => Err(code)
      case Ok((v, rest)) => Resolve(rest, eval, show, acc + show(v))
    else Resolve(s[1..], eval, show, acc + [s[0]])
  }

  method ResolveInterpolation(str: string, eval: string -> Result<Value>, show: Value -> string) returns (r: Result<string>)
    ensures r == Resolve(str, eval, show, "")
  {
    hide ReadBlock;
    var result := "";
    var i := 0;
    assert str[0..] == str;
    while i < |str|
      invariant 0 <= i <= |str|
      invariant Resolve(str, eval, show, "") == Resolve(str[i..], eval, show, result)
    {
      if Escapes(str[i..]) {
        assert str[i..][3..] == str[i + 3..];
        result := result + "{{";
        i := i + 3;
      } else if Opens(str[i..]) {
        assert str[i..][2..] == str[i + 2..];
        var val, next := EvaluateBlock(str, i + 2, eval);
        if val.Err? {
          return Err(val.code);
        }
        result := result + show(val.value);
        i := next;
      } else {
        assert str[i..][1..] == str[i + 1..];
        result := result + [str[i]];
        i := i + 1;
      }
    }
    r := Ok(result);
  }

  method EvaluateBlock(str: string, at: nat, eval: string -> Result<Value>) returns (val: Result<Value>, next: nat)
    requires at <= |str|
    ensures match ReadBlock(str[at..], eval)
            case Err(code) => val == Err(code)
            case Ok((v, rest)) => val == Ok(v) && at < next <= |str| && str[next..] == rest
  {
    hide TrimStart, CloseAt, Trim;
    var start := SkipSpaces(str, at);
    var end := FindClose(str, start);
    next := end;
    if end >= |str| {
      return Err(UNPARSEABLE), end;
    }
    ghost var body := str[start..];
    assert body[..end - start] == str[start..end];
    assert body[end - start + 2..] == str[end + 2..];
    val := eval(Trim(str[start..end]));
    next := end + 2;
  }

  method SkipSpaces(str: string, start: nat) returns (i: nat)
    requires start <= |str|
    ensures start <= i <= |str| && str[i..] == TrimStart(str[start..])
  {
    i := start;
    while i < |str| && IsSpace(str[i])
      invariant start <= i <= |str|
      invariant TrimStart(str[start..]) == TrimStart(str[i..])
    {
      assert str[i..][1..] == str[i + 1..];
      i := i + 1;
    }
  }

  method FindClose(str: string, start: nat) returns (i: nat)
    requires start <= |str|
    ensures i == start + CloseAt(str[start..])
  {
    hide Closes;
    i := start;
    while i < |str| && !Closes(str[i..])
      invariant start <= i <= |str|
      invariant start + CloseAt(str[start..]) == i + CloseAt(str[i..])
    {
      assert str[i..][1..] == str[i + 1..];
      i := i + 1;
    }
  }

  // --- Escaping ---------------------------------------------------------------------------

  /** A backslash before each `{{`, left to right. */
  function EscapeBraces(s: string): string {
    if |s| == 0 then ""
    else if Opens(s) then "\\{{" + EscapeBraces(s[2..])
    else [s[0]] + EscapeBraces(s[1..])
  }

  /** The left-to-right pairing leaves a backslash or a brace as the last character on its own. */
  predicate EndsLoose(s: string) {
    if |s| == 0 then false
    else if Opens(s) then EndsLoose(s[2..])
    else if |s| == 1 then s[0] == '\\' || s[0] == '{'
    else EndsLoose(s[1..])
  }

  /** What follows an escaped text cannot be drawn into it. */
  predicate Apart(s: string, rest: string) {
    rest == "" || rest[0] != '{' || !EndsLoose(s)
  }

  lemma TightIsApart(s: string, rest: string)
    requires !EndsLoose(s)
    ensures Apart(s, rest)
  {
  }

  lemma ResolveCopies(s: string, eval: string -> Result<Value>, show: Value -> string, acc: string)
    requires |s| > 0 && !Escapes(s) && !Opens(s)
    ensures Resolve(s, eval, show, acc) == Resolve(s[1..], eval, show, acc + [s[0]])
  {
    hide ReadBlock;
  }

  lemma ResolveEscape(s: string, eval: string -> Result<Value>, show: Value -> string, acc: string)
    requires Escapes(s)
    ensures Resolve(s, eval, show, acc) == Resolve(s[3..], eval, show, acc + "{{")
  {
    hide ReadBlock;
  }

  lemma ResolveBlock(s: string, eval: string -> Result<Value>, show: Value -> string, acc: string)
    requires Opens(s) && ReadBlock(s[2..], eval).Ok?
    ensures var block := ReadBlock(s[2..], eval).value;
            Resolve(s, eval, show, acc) == Resolve(block.1, eval, show, acc + show(block.0))
  {
    hide ReadBlock;
  }

  lemma EscapedHead(s: string)
    requires |s| > 0
    ensures |EscapeBraces(s)| > 0 && EscapeBraces(s)[0] == if Opens(s) then '\\' else s[0]
  {
  }

  /** Escaped text never opens a block, whatever follows it. */
  lemma EscapedNeverOpens(s: string, rest: string)
    requires |s| > 0 && Apart(s, rest)
    ensures !Opens(EscapeBraces(s) + rest)
  {
    EscapedHead(s);
    if !Opens(s) && |s| > 1 {
      assert EscapeBraces(s) == [s[0]] + EscapeBraces(s[1..]);
      EscapedHead(s[1..]);
    }
  }

  lemma CopiedParts(s: string)
    requires |s| > 0 && !Opens(s)
    ensures EscapeBraces(s) == [s[0]] + EscapeBraces(s[1..])
    ensures if |s| == 1 then EscapeBraces(s[1..]) == "" && (EndsLoose(s) <==> s[0] == '\\' || s[0] == '{') else EndsLoose(s) == EndsLoose(s[1..])
  {
  }

  /** A character that is copied starts neither an escape nor a block. */
  lemma PlainHead(s: string, rest: string)
    requires |s| > 0 && !Opens(s) && Apart(s, rest)
    ensures !Escapes(EscapeBraces(s) + rest)
  {
    hide EscapeBraces, EndsLoose;
    CopiedParts(s);
    var tail := EscapeBraces(s[1..]) + rest;
    assert EscapeBraces(s) + rest == [s[0]] + tail;
    if |s| > 1 {
      EscapedNeverOpens(s[1..], rest);
    }
  }

  /** After an escaped text the scan stands at what follows it, with the text itself appended. */
  lemma {:induction false} EscapedResolves(s: string, rest: string, eval: string -> Result<Value>, show: Value -> string, acc: string)
    requires Apart(s, rest)
    ensures Resolve(EscapeBraces(s) + rest, eval, show, acc) == Resolve(rest, eval, show, acc + s)
    decreases |s|
  {
    hide Resolve;
    var e := EscapeBraces(s) + rest;
    if |s| == 0 {
      assert e == rest && acc + s == acc;
    } else if Opens(s) {
      assert e[3..] == EscapeBraces(s[2..]) + rest;
      ResolveEscape(e, eval, show, acc);
      EscapedResolves(s[2..], rest, eval, show, acc + "{{");
      assert acc + "{{" + s[2..] == acc + s;
    } else {
      assert e[0] == s[0] && e[1..] == EscapeBraces(s[1..]) + rest;
      PlainHead(s, rest);
      EscapedNeverOpens(s, rest);
      ResolveCopies(e, eval, show, acc);
      EscapedResolves(s[1..], rest, eval, show, acc + [s[0]]);
      assert acc + [s[0]] + s[1..] == acc + s;
    }
  }

  /** Interpolation undoes escaping on every string. */
  lemma EscapeIsUndone(s: string, eval: string -> Result<Value>, show: Value -> string)
    ensures Resolve(EscapeBraces(s), eval, show, "") == Ok(s)
  {
    hide *;
    EscapedToTheEnd(s, eval, show, "");
    assert "" + s == s;
  }

  lemma EscapedToTheEnd(s: string, eval: string -> Result<Value>, show: Value -> string, acc: string)
    ensures Resolve(EscapeBraces(s), eval, show, acc) == Ok(acc + s)
  {
    hide EscapeBraces;
    EscapedResolves(s, "", eval, show, acc);
    assert EscapeBraces(s) + "" == EscapeBraces(s);
  }

  ghost predicate AllSpaces(s: string) {
    forall k :: 0 <= k < |s| ==> IsSpace(s[k])
  }

  /** What stands between the braces of a block: an expression, spaces around it, and no `}}` before the one that closes it. */
  ghost predicate IsBlock(left: string, e: string, right: string) {
    var x := left + e + right + "}";
    && AllSpaces(left) && AllSpaces(right) && |e| > 0 && !IsSpace(e[0]) && !IsSpace(e[|e| - 1])
    && forall k :: 0 <= k < |x| - 1 ==> x[k] != '}' || x[k + 1] != '}'
  }

  /** Between escaped texts a block is replaced by the value of its expression, without the spaces around it. */
  lemma BlockIsReplaced(a: string, left: string, e: string, right: string, b: string, eval: string -> Result<Value>,
                        show: Value -> string, v: Value)
    requires !EndsLoose(a) && IsBlock(left, e, right) && eval(e) == Ok(v)
    ensures Resolve(EscapeBraces(a) + ("{{" + (left + e + right) + "}}" + EscapeBraces(b)), eval, show, "") == Ok(a + show(v) + b)
  {
    hide *;
    var tail := EscapeBraces(b);
    var block := "{{" + (left + e + right) + "}}" + tail;
    TightIsApart(a, block);
    EscapedResolves(a, block, eval, show, "");
    assert "" + a == a;
    BlockThen(left, e, right, tail, eval, show, a);
    EscapedToTheEnd(b, eval, show, a + show(v));
  }

  lemma BlockThen(left: string, e: string, right: string, rest: string, eval: string -> Result<Value>, show: Value -> string,
                  acc: string)
    requires IsBlock(left, e, right) && eval(e).Ok?
    ensures Resolve("{{" + (left + e + right) + "}}" + rest, eval, show, acc) == Resolve(rest, eval, show, acc + show(eval(e).value))
  {
    hide Trim, Resolve, CloseAt, ReadBlock, IsBlock;
    var s := "{{" + (left + e + right) + "}}" + rest;
    BlockReads(left, e, right, rest, eval);
    assert s[2..] == left + e + right + "}}" + rest;
    ResolveBlock(s, eval, show, acc);
  }

  lemma BlockReads(left: string, e: string, right: string, rest: string, eval: string -> Result<Value>)
    requires IsBlock(left, e, right) && eval(e).Ok?
    ensures ReadBlock(left + e + right + "}}" + rest, eval) == Ok((eval(e).value, rest))
  {
    hide TrimStart, TrimEnd, CloseAt, AllSpaces;
    var s := left + e + right + "}}" + rest;
    var inner := e + right;
    var body := inner + "}}" + rest;
    assert s == left + body && body[0] == e[0] && inner[0] == e[0];
    LeftTrimmed(left, body);
    LeftTrimmed("", inner);
    assert "" + inner == inner;
    RightTrimmed(e, right);
    assert left + inner + "}" == left + e + right + "}";
    ClosesAtEnd(left, inner);
    CloseFound(inner, rest);
    assert body[..|inner|] == inner && body[|inner| + 2..] == rest;
  }

  lemma {:induction false} LeftTrimmed(left: string, s: string)
    requires AllSpaces(left) && |s| > 0 && !IsSpace(s[0])
    ensures TrimStart(left + s) == s
    decreases |left|
  {
    if |left| == 0 {
      assert left + s == s;
    } else {
      assert (left + s)[1..] == left[1..] + s;
      LeftTrimmed(left[1..], s);
    }
  }

  lemma {:induction false} RightTrimmed(e: string, right: string)
    requires AllSpaces(right) && |e| > 0 && !IsSpace(e[|e| - 1])
    ensures TrimEnd(e + right) == e
    decreases |right|
  {
    if |right| == 0 {
      assert e + right == e;
    } else {
      var s := e + right;
      assert s[..|s| - 1] == e + right[..|right| - 1];
      RightTrimmed(e, right[..|right| - 1]);
    }
  }

  /** With no `}}` inside, and none made with the brace that follows, the block closes at its end. */
  lemma {:induction false} ClosesAtEnd(left: string, inner: string)
    requires var x := left + inner + "}"; forall k :: 0 <= k < |x| - 1 ==> x[k] != '}' || x[k + 1] != '}'
    ensures CloseAt(inner + "}}") == |inner|
    decreases |inner|
  {
    var x := left + inner + "}";
    if |inner| > 0 {
      var s := inner + "}}";
      assert x[|left|] == s[0] && x[|left| + 1] == s[1];
      assert s[1..] == inner[1..] + "}}";
      assert left + [inner[0]] + inner[1..] + "}" == x;
      ClosesAtEnd(left + [inner[0]], inner[1..]);
    }
  }

  lemma {:induction false} CloseFound(e: string, rest: string)
    requires CloseAt(e + "}}") == |e|
    ensures CloseAt(e + "}}" + rest) == |e|
    decreases |e|
  {
    if |e| > 0 {
      assert (e + "}}")[1..] == e[1..] + "}}" && (e + "}}" + rest)[1..] == e[1..] + "}}" + rest;
      CloseFound(e[1..], rest);
    }
  }

  // --- A loose end spoils the block that follows ---------------------------------------------------

  /** A loose end is the last character, escaped as it stands; before a loose brace only a backslash can be loose. */
  lemma {:induction false} LooseSplit(a: string)
    requires EndsLoose(a)
    ensures |a| > 0
    ensures var head, last := a[..|a| - 1], a[|a| - 1];
            && (last == '\\' || last == '{') && EscapeBraces(a) == EscapeBraces(head) + [last]
            && (last == '{' && EndsLoose(head) ==> |head| > 0 && head[|head| - 1] == '\\')
    decreases |a|
  {
    var head := a[..|a| - 1];
    if Opens(a) {
      LooseSplit(a[2..]);
      assert a[2..][..|a| - 3] == head[2..];
    } else if |a| == 1 {
      assert head == "" && a[1..] == "";
    } else {
      LooseSplit(a[1..]);
      assert a[1..][..|a| - 2] == head[1..];
    }
  }

  /** The result only ever grows. */
  lemma {:induction false} ResolveExtends(s: string, eval: string -> Result<Value>, show: Value -> string, acc: string)
    ensures Resolve(s, eval, show, acc).Ok? ==> acc <= Resolve(s, eval, show, acc).value
    decreases |s|
  {
    hide ReadBlock;
    if |s| == 0 {
    } else if Escapes(s) {
      ResolveExtends(s[3..], eval, show, acc + "{{");
    } else if Opens(s) {
      if ReadBlock(s[2..], eval).Ok? {
        var (v, rest) := ReadBlock(s[2..], eval).value;
        ResolveExtends(rest, eval, show, acc + show(v));
      }
    } else {
      ResolveExtends(s[1..], eval, show, acc + [s[0]]);
    }
  }

  lemma {:induction false} TrimEndKeepsHead(s: string)
    requires |s| > 0 && !IsSpace(s[0])
    ensures |TrimEnd(s)| > 0 && TrimEnd(s)[0] == s[0]
    decreases |s|
  {
    if IsSpace(s[|s| - 1]) {
      TrimEndKeepsHead(s[..|s| - 1]);
    }
  }

  /** An escape after `x` cannot lead to a result that has a backslash there. */
  lemma EscapeNotBackslash(x: string, rest: string, want: string, eval: string -> Result<Value>, show: Value -> string)
    requires Escapes(rest) && |want| > |x| && want[|x|] == '\\'
    ensures Resolve(EscapeBraces(x) + rest, eval, show, "") != Ok(want)
  {
    hide Resolve, EscapeBraces, EndsLoose;
    EscapedResolves(x, rest, eval, show, "");
    assert "" + x == x;
    ResolveEscape(rest, eval, show, x);
    ResolveExtends(rest[3..], eval, show, x + "{{");
    assert (x + "{{")[|x|] == '{';
  }

  /** The tokenizer knows no brace: no text that starts with one evaluates. */
  ghost predicate RejectsBraces(eval: string -> Result<Value>) {
    forall t :: |t| > 0 && t[0] == '{' ==> eval(t).Err?
  }

  /** A third brace before a block becomes part of its expression, which then does not evaluate. */
  lemma ThreeBraces(x: string, e: string, tail: string, want: string, eval: string -> Result<Value>, show: Value -> string)
    requires !EndsLoose(x) && RejectsBraces(eval) && CloseAt(e + "}}") == |e|
    ensures Resolve(EscapeBraces(x) + ("{{{" + e + "}}" + tail), eval, show, "") != Ok(want)
  {
    hide EscapeBraces, EndsLoose, Trim, CloseAt, ReadBlock, RejectsBraces;
    var rest := "{{{" + e + "}}" + tail;
    TightIsApart(x, rest);
    EscapedResolves(x, rest, eval, show, "");
    assert rest[2..] == "{" + e + "}}" + tail;
    BraceNotRead(e, tail, eval);
  }

  lemma BraceNotRead(e: string, tail: string, eval: string -> Result<Value>)
    requires RejectsBraces(eval) && CloseAt(e + "}}") == |e|
    ensures ReadBlock("{" + e + "}}" + tail, eval).Err?
  {
    hide Trim, CloseAt, TrimStart;
    var inner := "{" + e;
    var body := inner + "}}" + tail;
    BraceCloses(e);
    CloseFound(inner, tail);
    BraceTrimmed(e);
    NoSpaceTrimmed(body);
    assert body[..|inner|] == inner;
  }

  lemma NoSpaceTrimmed(s: string)
    requires |s| > 0 && !IsSpace(s[0])
    ensures TrimStart(s) == s
  {
  }

  lemma BraceCloses(e: string)
    requires CloseAt(e + "}}") == |e|
    ensures CloseAt("{" + e + "}}") == |e| + 1
  {
    assert ("{" + e + "}}")[1..] == e + "}}";
  }

  lemma BraceTrimmed(e: string)
    ensures var t := Trim("{" + e); |t| > 0 && t[0] == '{'
  {
    TrimEndKeepsHead("{" + e);
  }

  /**
   * Between escaped texts a block is replaced by its value exactly when the text before it has no loose end: after a
   * loose backslash the block is taken for an escape, after a loose brace the expression starts one brace early.
   */
  lemma BlockIsReplacedIff(a: string, left: string, e: string, right: string, b: string, eval: string -> Result<Value>,
                           show: Value -> string, v: Value)
    requires RejectsBraces(eval) && IsBlock(left, e, right) && eval(e) == Ok(v)
    ensures Resolve(EscapeBraces(a) + ("{{" + (left + e + right) + "}}" + EscapeBraces(b)), eval, show, "") == Ok(a + show(v) + b)
            <==> !EndsLoose(a)
  {
    hide *;
    if !EndsLoose(a) {
      BlockIsReplaced(a, left, e, right, b, eval, show, v);
    } else {
      BlockClosesAtEnd(left, e, right);
      LooseEndSpoils(a, left + e + right, EscapeBraces(b), a + show(v) + b, eval, show);
    }
  }

  lemma BlockClosesAtEnd(left: string, e: string, right: string)
    requires IsBlock(left, e, right)
    ensures CloseAt(left + e + right + "}}") == |left + e + right|
  {
    hide CloseAt, AllSpaces;
    assert "" + (left + e + right) + "}" == left + e + right + "}";
    ClosesAtEnd("", left + e + right);
  }

  lemma LooseEndSpoils(a: string, e: string, tail: string, want: string, eval: string -> Result<Value>, show: Value -> string)
    requires EndsLoose(a) && RejectsBraces(eval) && CloseAt(e + "}}") == |e| && a <= want
    ensures Resolve(EscapeBraces(a) + ("{{" + e + "}}" + tail), eval, show, "") != Ok(want)
  {
    hide EscapeBraces, EndsLoose, Resolve, CloseAt, RejectsBraces;
    LooseSplit(a);
    var block := "{{" + e + "}}" + tail;
    var head, last := a[..|a| - 1], a[|a| - 1];
    assert EscapeBraces(a) + block == EscapeBraces(head) + ([last] + block);
    if last == '\\' {
      EscapeNotBackslash(head, [last] + block, want, eval, show);
    } else if EndsLoose(head) {
      LooseSplit(head);
      var x := head[..|head| - 1];
      assert EscapeBraces(a) + block == EscapeBraces(x) + ("\\{" + block);
      EscapeNotBackslash(x, "\\{" + block, want, eval, show);
    } else {
      assert [last] + block == "{{{" + e + "}}" + tail;
      ThreeBraces(head, e, tail, want, eval, show);
    }
  }
}
