/** The trees the parser returns are exactly the printable ones: printing and parsing again changes nothing. */
module ParserImage {
  import opened Syntax
  import opened Identifiers
  import opened ExpressionParser
  import opened ExpressionPrinter
  import opened Lexer
  import opened Whitespace

  ghost predicate NamesOk(ts: seq<Token>) {
    forall k :: 0 <= k < |ts| && ts[k].Ident? ==> IsName(ts[k].name)
  }

  /** The tree fits the nesting limit from here, and prints to no more tokens than were read. */
  ghost predicate Compact(n: Node, l: nat, depth: nat, tokens: int) {
    Wf(n) && depth + Depth(n, l) <= MAX_RECURSION && |Print(n, l)| <= tokens
  }

  lemma Looser(n: Node, l: nat, depth: nat, tokens: int)
    requires Compact(n, l + 1, depth, tokens)
    ensures Compact(n, l, depth, tokens)
  {
  }

  lemma JoinCompact(l: nat, t: Token, a: Node, b: Node, depth: nat, ta: int, tb: int)
    requires IsChain(l) && Continues(l, t) && Compact(a, l, depth, ta) && Compact(b, l + 1, depth, tb)
    ensures Compact(Join(t, a, b), l, depth, ta + 1 + tb)
  {
    var n := Join(t, a, b);
    assert Level(n) == l;
    ChainParts(n, l);
    assert Print(n, l) == Bare(n) && Depth(n, l) == BareDepth(n);
    assert |Bare(n)| == |Print(a, l)| + 1 + |Print(b, l + 1)|;
  }

  lemma CompareCompact(t: Token, a: Node, b: Node, depth: nat, ta: int, tb: int)
    requires Continues(CMP, t) && Compact(a, ADD, depth, ta) && Compact(b, ADD, depth, tb)
    ensures Compact(Join(t, a, b), CMP, depth, ta + 1 + tb)
  {
    var n := Join(t, a, b);
    assert Level(n) == CMP;
    ComparisonParts(n);
    assert Print(n, CMP) == Bare(n) && Depth(n, CMP) == BareDepth(n);
    assert |Bare(n)| == |Print(a, ADD)| + 1 + |Print(b, ADD)|;
  }

  lemma PrefixCompact(n: Node, l: nat, depth: nat, tokens: int)
    requires (n.Not? && l == NOT) || (n.Negate? && l == UNARY)
    requires Compact(n.operand, l, depth, tokens)
    ensures Compact(n, l, depth, tokens + 1)
  {
    PrefixParts(n, l);
  }

  lemma ParensCompact(n: Node, depth: nat, tokens: int)
    requires Compact(n, OR, depth + 1, tokens)
    ensures Compact(n, PRIMARY, depth, tokens + 2)
  {
    assert Print(n, OR) == Bare(n);
  }

  lemma {:induction false} ParseCompact(l: nat, ts: seq<Token>, st: Cursor)
    requires l <= PRIMARY && NamesOk(ts)
    ensures var r := Parse(l, ts, st);
            r.Good? ==> Compact(r.value.0, l, st.depth, r.value.1.pos - st.pos)
    decreases if st.pos <= |ts| then |ts| - st.pos else 0, 10 - l
  {
    hide Compact, ParsePrimary, ParseChain, ParseCompared, NamesOk;
    if l == PRIMARY {
      PrimaryCompact(ts, st);
    } else if l == NOT || l == UNARY {
      if At(ts, st.pos, if l == NOT then NotTok else OpTok(SubOp)) {
        var s1 := Step(st);
        if s1.Good? {
          ParseCompact(l, ts, s1.value);
          var r := Parse(l, ts, s1.value);
          if r.Good? {
            PrefixCompact(if l == NOT then Not(r.value.0) else Negate(r.value.0), l, st.depth, r.value.1.pos - st.pos - 1);
          }
        }
      } else {
        ParseCompact(l + 1, ts, st);
        var r := Parse(l + 1, ts, st);
        if r.Good? {
          Looser(r.value.0, l, st.depth, r.value.1.pos - st.pos);
        }
      }
    } else {
      ParseCompact(l + 1, ts, st);
      var r := Parse(l + 1, ts, st);
      if r.Good? {
        if l == CMP {
          ComparedCompact(ts, r.value.0, st, r.value.1);
        } else {
          Looser(r.value.0, l, st.depth, r.value.1.pos - st.pos);
          ChainCompact(l, ts, r.value.0, st.pos, r.value.1);
        }
      }
    }
  }

  lemma {:induction false} ComparedCompact(ts: seq<Token>, left: Node, st0: Cursor, st: Cursor)
    requires NamesOk(ts) && st0.pos < st.pos <= |ts| && st0.depth == st.depth && Compact(left, ADD, st.depth, st.pos - st0.pos)
    ensures var r := ParseCompared(ts, left, st);
            r.Good? ==> Compact(r.value.0, CMP, st0.depth, r.value.1.pos - st0.pos)
    decreases |ts| - st.pos, 1
  {
    hide Compact, Parse, NamesOk;
    Looser(left, CMP, st.depth, st.pos - st0.pos);
    if AtChain(ts, st.pos, CMP) && Step(st).Good? {
      var st1 := Step(st).value;
      ParseCompact(ADD, ts, st1);
      var r := Parse(ADD, ts, st1);
      if r.Good? {
        CompareCompact(ts[st.pos], left, r.value.0, st.depth, st.pos - st0.pos, r.value.1.pos - st1.pos);
      }
    }
  }

  lemma {:induction false} ChainCompact(l: nat, ts: seq<Token>, left: Node, start: nat, st: Cursor)
    requires IsChain(l) && NamesOk(ts) && start <= st.pos <= |ts| && Compact(left, l, st.depth, st.pos - start)
    ensures var r := ParseChain(l, ts, left, st);
            r.Good? ==> Compact(r.value.0, l, st.depth, r.value.1.pos - start)
    decreases |ts| - st.pos, 1
  {
    hide Compact, Parse, NamesOk;
    if AtChain(ts, st.pos, l) && Step(st).Good? {
      var st1 := Step(st).value;
      ParseCompact(l + 1, ts, st1);
      var r := Parse(l + 1, ts, st1);
      if r.Good? {
        JoinCompact(l, ts[st.pos], left, r.value.0, st.depth, st.pos - start, r.value.1.pos - st1.pos);
        ChainCompact(l, ts, Join(ts[st.pos], left, r.value.0), start, r.value.1);
      }
    }
  }

  ghost predicate KeysCompact(keys: seq<Key>, depth: nat, tokens: int) {
    && (forall k :: 0 <= k < |keys| ==> WfKey(keys[k]) && depth + KeyDepth(keys[k]) <= MAX_RECURSION)
    && KeysLength(keys) <= tokens
  }

  function KeysLength(keys: seq<Key>): nat {
    if |keys| == 0 then 0 else KeysLength(keys[..|keys| - 1]) + |PrintKey(keys[|keys| - 1])|
  }

  ghost predicate ArgsCompact(args: seq<Node>, depth: nat, tokens: int) {
    && (forall k :: 0 <= k < |args| ==> Wf(args[k]) && depth + Depth(args[k], OR) <= MAX_RECURSION)
    && ArgsLength(args) <= tokens
  }

  function ArgsLength(args: seq<Node>): nat {
    if |args| == 0 then 0
    else ArgsLength(args[..|args| - 1]) + (if |args| == 1 then 0 else 1) + |Print(args[|args| - 1], OR)|
  }

  lemma KeysCompactAdd(keys: seq<Key>, key: Key, depth: nat, tokens: int, more: int)
    requires KeysCompact(keys, depth, tokens) && WfKey(key) && depth + KeyDepth(key) <= MAX_RECURSION && |PrintKey(key)| <= more
    ensures KeysCompact(keys + [key], depth, tokens + more)
  {
    assert (keys + [key])[..|keys|] == keys;
  }

  lemma ArgsCompactAdd(args: seq<Node>, arg: Node, depth: nat, tokens: int, more: int)
    requires ArgsCompact(args, depth, tokens) && Compact(arg, OR, depth, more)
    ensures ArgsCompact(args + [arg], depth, tokens + (if |args| == 0 then 0 else 1) + more)
  {
    assert (args + [arg])[..|args|] == args;
  }

  lemma IndexCompact(index: Node, depth: nat, tokens: int)
    requires Compact(index, OR, depth, tokens)
    ensures var key := IndexKey(index);
            WfKey(key) && depth + KeyDepth(key) <= MAX_RECURSION && |PrintKey(key)| <= tokens + 2
  {
    assert Print(index, OR) == Bare(index);
  }

  lemma {:induction false} KeysTail(keys: seq<Key>, k: nat)
    requires k <= |keys|
    ensures |PrintKeys(keys, k)| + KeysLength(keys[..k]) == KeysLength(keys)
    decreases |keys| - k
  {
    if k == |keys| {
      assert keys[..k] == keys;
    } else {
      KeysTail(keys, k + 1);
      assert keys[..k + 1][..k] == keys[..k];
    }
  }

  lemma {:induction false} ArgsTail(args: seq<Node>, k: nat)
    requires k <= |args|
    ensures |PrintArgs(args, k)| + ArgsLength(args[..k]) == ArgsLength(args)
    decreases |args| - k
  {
    if k == |args| {
      assert args[..k] == args;
    } else {
      ArgsTail(args, k + 1);
      assert args[..k + 1][..k] == args[..k];
    }
  }

  lemma {:induction false} KeysDepthBound(keys: seq<Key>, k: nat, depth: nat)
    requires k <= |keys| && depth <= MAX_RECURSION
    requires forall j :: 0 <= j < |keys| ==> depth + KeyDepth(keys[j]) <= MAX_RECURSION
    ensures depth + KeysDepth(keys, k) <= MAX_RECURSION
    decreases |keys| - k
  {
    if k < |keys| {
      KeysDepthBound(keys, k + 1, depth);
    }
  }

  lemma {:induction false} ArgsDepthBound(args: seq<Node>, k: nat, depth: nat)
    requires k <= |args| && depth <= MAX_RECURSION
    requires forall j :: 0 <= j < |args| ==> depth + Depth(args[j], OR) <= MAX_RECURSION
    ensures depth + ArgsDepth(args, k) <= MAX_RECURSION
    decreases |args| - k
  {
    if k < |args| {
      ArgsDepthBound(args, k + 1, depth);
    }
  }

  lemma PropertyCompact(root: string, keys: seq<Key>, depth: nat, tokens: int)
    requires KeysCompact(keys, depth + 1, tokens) && depth + 1 <= MAX_RECURSION
    ensures Compact(Property(root, keys), PRIMARY, depth, tokens + 1)
  {
    KeysTail(keys, 0);
    KeysDepthBound(keys, 0, depth + 1);
    assert keys[..0] == [];
    assert Print(Property(root, keys), PRIMARY) == [Ident(root)] + PrintKeys(keys, 0);
  }

  lemma CallCompact(name: string, args: seq<Node>, depth: nat, tokens: int)
    requires ArgsCompact(args, depth + 1, tokens) && depth + 1 <= MAX_RECURSION
    ensures Compact(Call(name, args), PRIMARY, depth, tokens + 3)
  {
    ArgsTail(args, 0);
    ArgsDepthBound(args, 0, depth + 1);
    assert args[..0] == [];
    assert Print(Call(name, args), PRIMARY) == [Ident(name), LParen] + PrintArgs(args, 0) + [RParen];
  }

  lemma LiteralCompact(lit: Literal, depth: nat)
    requires depth + 1 <= MAX_RECURSION
    ensures Compact(Lit(lit), PRIMARY, depth, 1)
  {
  }

  lemma {:induction false} PrimaryCompact(ts: seq<Token>, st: Cursor)
    requires NamesOk(ts)
    ensures var r := ParsePrimary(ts, st);
            r.Good? ==> Compact(r.value.0, PRIMARY, st.depth, r.value.1.pos - st.pos)
    decreases if st.pos <= |ts| then |ts| - st.pos else 0, 2
  {
    hide Compact, NamesOk, Parse, ParseKeys, ParseArgs, KeysCompact, ArgsCompact;
    if st.depth + 1 <= MAX_RECURSION && st.pos < |ts| {
      var t := ts[st.pos];
      var st1 := Cursor(st.pos + 1, st.ops, st.depth + 1);
      if t.NumTok? || t.StrTok? || t.BoolTok? || t.NullTok? {
        LiteralCompact(TokenLiteral(t), st.depth);
      } else if t.LParen? {
        ParseCompact(OR, ts, st1);
        var r := Parse(OR, ts, st1);
        if r.Good? {
          ParensCompact(r.value.0, st.depth, r.value.1.pos - st1.pos);
        }
      } else if t.Ident? {
        if At(ts, st1.pos, LParen) {
          ArgsParseCompact(ts, Skip(st1));
          var r := ParseArgs(ts, Skip(st1));
          if r.Good? {
            CallCompact(t.name, r.value.0, st.depth, r.value.1.pos - st1.pos - 1);
          }
        } else {
          NoKeys(st1.depth);
          KeysParseCompact(ts, [], st1.pos, st1);
          var r := ParseKeys(ts, [], st1);
          if r.Good? {
            PropertyCompact(t.name, r.value.0, st.depth, r.value.1.pos - st1.pos);
          }
        }
      }
    }
  }

  lemma NoKeys(depth: nat)
    ensures KeysCompact([], depth, 0) && ArgsCompact([], depth, 0)
  {
  }

  lemma {:induction false} KeysParseCompact(ts: seq<Token>, keys: seq<Key>, start: nat, st: Cursor)
    requires NamesOk(ts) && start <= st.pos <= |ts| && st.depth <= MAX_RECURSION && KeysCompact(keys, st.depth, st.pos - start)
    ensures var r := ParseKeys(ts, keys, st);
            r.Good? ==> KeysCompact(r.value.0, st.depth, r.value.1.pos - start)
    decreases |ts| - st.pos, 1
  {
    hide Compact, Parse, KeysCompact;
    if (At(ts, st.pos, Dot) || At(ts, st.pos, LBracket)) && Step(st).Good? {
      var st1 := Step(st).value;
      if At(ts, st.pos, Dot) {
        if st1.pos < |ts| && ts[st1.pos].Ident? && ts[st1.pos].name !in FORBIDDEN_PROPS {
          var key := Fixed(StrLit(ts[st1.pos].name));
          assert Dotted(key);
          KeysCompactAdd(keys, key, st.depth, st.pos - start, 2);
          KeysParseCompact(ts, keys + [key], start, Skip(st1));
        }
      } else {
        ParseCompact(OR, ts, st1);
        var r := Parse(OR, ts, st1);
        if r.Good? && At(ts, r.value.1.pos, RBracket) {
          IndexCompact(r.value.0, st.depth, r.value.1.pos - st1.pos);
          KeysCompactAdd(keys, IndexKey(r.value.0), st.depth, st.pos - start, r.value.1.pos - st1.pos + 2);
          KeysParseCompact(ts, keys + [IndexKey(r.value.0)], start, Skip(r.value.1));
        }
      }
    }
  }

  lemma {:induction false} ArgsParseCompact(ts: seq<Token>, st: Cursor)
    requires NamesOk(ts) && st.pos <= |ts|
    ensures var r := ParseArgs(ts, st);
            r.Good? ==> ArgsCompact(r.value.0, st.depth, r.value.1.pos - st.pos)
    decreases |ts| - st.pos, 20
  {
    hide Compact, Parse, ArgsCompact, NamesOk, ParseMoreArgs;
    NoKeys(st.depth);
    if !At(ts, st.pos, RParen) {
      ParseCompact(OR, ts, st);
      var r := Parse(OR, ts, st);
      if r.Good? {
        ArgsCompactAdd([], r.value.0, st.depth, 0, r.value.1.pos - st.pos);
        assert [] + [r.value.0] == [r.value.0];
        MoreArgsCompact(ts, [r.value.0], st.pos, r.value.1);
      }
    }
  }

  lemma {:induction false} MoreArgsCompact(ts: seq<Token>, args: seq<Node>, start: nat, st: Cursor)
    requires NamesOk(ts) && |args| > 0 && start <= st.pos <= |ts| && ArgsCompact(args, st.depth, st.pos - start)
    ensures var r := ParseMoreArgs(ts, args, st);
            r.Good? ==> ArgsCompact(r.value.0, st.depth, r.value.1.pos - start)
    decreases |ts| - st.pos, 1
  {
    hide Compact, Parse, ArgsCompact, NamesOk;
    if At(ts, st.pos, Comma) {
      ParseCompact(OR, ts, Skip(st));
      var r := Parse(OR, ts, Skip(st));
      if r.Good? {
        ArgsCompactAdd(args, r.value.0, st.depth, st.pos - start, r.value.1.pos - st.pos - 1);
        MoreArgsCompact(ts, args + [r.value.0], start, r.value.1);
      }
    }
  }

  // --- Identifier tokens come from the tokenizer -----------------------------------------------

  lemma NamesAdd(ts: seq<Token>, t: Token)
    requires NamesOk(ts) && (t.Ident? ==> IsName(t.name))
    ensures NamesOk(ts + [t])
  {
  }

  lemma NextName(s: string)
    requires |s| > 0
    ensures var r := NextToken(s);
            r.Good? && r.value.0.Ident? ==> IsName(r.value.0.name)
  {
    var n := RunLength(s, false);
    if IsNameStart(s[0]) {
      assert n > 0 && s[..n][0] == s[0];
    }
  }

  lemma {:induction false} LexNames(s: string, acc: seq<Token>)
    requires NamesOk(acc)
    ensures Lex(s, acc).Good? ==> NamesOk(Lex(s, acc).value)
    decreases |s|
  {
    hide NextToken, NamesOk;
    if |s| > 0 {
      if IsSpace(s[0]) {
        LexNames(s[1..], acc);
      } else {
        NextName(s);
        var r := NextToken(s);
        if r.Good? {
          NamesAdd(acc, r.value.0);
          LexNames(r.value.1, acc + [r.value.0]);
        }
      }
    }
  }

  /**
   * Every tree the engine accepts is within the printer's limits: printed with the fewest parentheses it needs no
   * more tokens than were written, and it parses to itself.
   */
  lemma AcceptedIsPrintable(expr: string)
    requires ParseExpression(expr).Good?
    ensures var n := ParseExpression(expr).value;
            && Wf(n) && Depth(n, OR) <= MAX_RECURSION && |Print(n, OR)| <= |expr|
            && ParseTokens(Print(n, OR)) == Good(n)
  {
    var ts := Lex(expr, []).value;
    LexNames(expr, []);
    ParseCompact(OR, ts, START);
    PrintThenParse(ParseExpression(expr).value);
  }
}
