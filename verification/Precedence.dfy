/** How operators group: an independent table of binding strengths, and the trees the parser builds without parentheses. */
module Precedence {
  import opened Syntax
  import opened Identifiers
  import opened ExpressionParser
  import opened ExpressionPrinter

  /** How tightly the outermost operator of a tree binds; an operand binds tightest. */
  function Strength(n: Node): nat {
    match n
    case Logical(isOr, _, _) => if isOr then 0 else 1
    case Not(_) => 2
    case Binary(op, _, _) => if op in {AddOp, SubOp} then 4 else if op in {MulOp, DivOp, ModOp} then 5 else 3
    case Negate(_) => 6
    case _ => 7
  }

  /** A literal, or a path of names and literal indices. */
  predicate Operand(n: Node) {
    n.Lit? || (n.Property? && forall k :: 0 <= k < |n.keys| ==> n.keys[k].Fixed?)
  }

  /**
   * A tree that needs no parentheses: what stands left of an operator binds at least as tightly as it, what stands right
   * of it more tightly, and a comparison has two operands that bind more tightly.
   */
  predicate Grouped(n: Node) {
    match n
    case Logical(_, a, b) => Grouped(a) && Grouped(b) && Strength(a) >= Strength(n) && Strength(b) > Strength(n)
    case Binary(_, a, b) =>
      Grouped(a) && Grouped(b) && Strength(b) > Strength(n) && (if Strength(n) == 3 then Strength(a) > 3 else Strength(a) >= Strength(n))
    case Not(e) => Grouped(e) && Strength(e) >= 2
    case Negate(e) => Grouped(e) && Strength(e) >= 6
    case _ => Operand(n)
  }

  /** The token of a literal. */
  function Spelled(lit: Literal): Token {
    match lit
    case NumLit(text) => NumTok(text)
    case StrLit(v) => StrTok(v)
    case BoolLit(b) => BoolTok(b)
    case NullLit => NullTok
  }

  /** The tokens of a path after its root: a name behind a dot, any other key in brackets. */
  function KeyTokens(keys: seq<Key>): seq<Token>
    requires forall k :: 0 <= k < |keys| ==> keys[k].Fixed?
  {
    if |keys| == 0 then [] else
    var lit := keys[0].lit;
    var dotted := lit.StrLit? && IsName(lit.value) && lit.value !in FORBIDDEN_PROPS;
    (if dotted then [Dot, Ident(lit.value)] else [LBracket, Spelled(lit), RBracket]) + KeyTokens(keys[1..])
  }

  /** The tokens of a tree from left to right, with no parentheses at all. */
  function Flat(n: Node): seq<Token>
    requires Grouped(n)
  {
    match n
    case Logical(isOr, a, b) => Flat(a) + [if isOr then OrTok else AndTok] + Flat(b)
    case Binary(op, a, b) => Flat(a) + [OpTok(op)] + Flat(b)
    case Not(e) => [NotTok] + Flat(e)
    case Negate(e) => [OpTok(SubOp)] + Flat(e)
    case Lit(lit) => [Spelled(lit)]
    case Property(root, keys) => [Ident(root)] + KeyTokens(keys)
  }

  lemma SameStrength(n: Node)
    ensures Level(n) == Strength(n)
  {
  }

  lemma {:induction false} KeysPrinted(keys: seq<Key>, k: nat)
    requires k <= |keys| && forall j :: 0 <= j < |keys| ==> keys[j].Fixed?
    ensures PrintKeys(keys, k) == KeyTokens(keys[k..]) && KeysDepth(keys, k) <= 1
    decreases |keys| - k
  {
    if k < |keys| {
      KeysPrinted(keys, k + 1);
      assert keys[k..][0] == keys[k] && keys[k..][1..] == keys[k + 1..];
    }
  }

  /** Such a tree is printed as it stands, and nests no deeper than one index. */
  lemma {:induction false} FlatIsPrinted(n: Node, l: nat)
    requires Grouped(n) && l <= Strength(n)
    ensures Wf(n) && Print(n, l) == Flat(n) && Depth(n, l) <= 2
    decreases n
  {
    SameStrength(n);
    match n
    case Logical(isOr, a, b) =>
      FlatIsPrinted(a, if isOr then OR else AND);
      FlatIsPrinted(b, if isOr then AND else NOT);
    case Binary(op, a, b) =>
      FlatIsPrinted(a, if OpLevel(op) == CMP then ADD else OpLevel(op));
      FlatIsPrinted(b, OpLevel(op) + 1);
    case Not(e) => FlatIsPrinted(e, NOT);
    case Negate(e) => FlatIsPrinted(e, UNARY);
    case Property(_, keys) =>
      KeysPrinted(keys, 0);
      assert keys[0..] == keys;
    case _ =>
  }

  /** Any number of operators without parentheses is read as the one tree that groups them by strength and from the left. */
  lemma FlatParses(n: Node)
    requires Grouped(n) && |Flat(n)| <= MAX_OPERATIONS
    ensures ParseTokens(Flat(n)) == Good(n)
  {
    hide Print, Depth, Wf, Flat, Grouped, ParseTokens;
    FlatIsPrinted(n, OR);
    PrintThenParse(n);
  }

  /** So two such trees with the same tokens are one. */
  lemma OneGrouping(m: Node, n: Node)
    requires Grouped(m) && Grouped(n) && Flat(m) == Flat(n) && |Flat(m)| <= MAX_OPERATIONS
    ensures m == n
  {
    hide Flat, Grouped, ParseTokens;
    FlatParses(m);
    FlatParses(n);
  }

  // --- Operator by operator --------------------------------------------------------------------------

  /** The tokens of an operand. */
  function Tokens(n: Node): seq<Token>
    requires Operand(n)
  {
    if n.Lit? then [Spelled(n.lit)] else [Ident(n.root)] + KeyTokens(n.keys)
  }

  ghost predicate Short(a: Node, b: Node, c: Node) {
    Operand(a) && Operand(b) && Operand(c) && |Tokens(a)| + |Tokens(b)| + |Tokens(c)| + 4 <= MAX_OPERATIONS
  }

  lemma OperandIsGrouped(n: Node)
    requires Operand(n)
    ensures Grouped(n) && Flat(n) == Tokens(n) && Strength(n) == 7
  {
  }

  lemma Flattened(a: Node, t: Token, b: Node, u: Token, c: Node)
    requires Short(a, b, c)
    ensures |Tokens(a) + [t] + Tokens(b) + [u] + Tokens(c)| <= MAX_OPERATIONS
    ensures Tokens(a) + [t] + (Tokens(b) + [u] + Tokens(c)) == Tokens(a) + [t] + Tokens(b) + [u] + Tokens(c)
    ensures Grouped(a) && Grouped(b) && Grouped(c) && Strength(a) == 7 && Strength(b) == 7 && Strength(c) == 7
    ensures Flat(a) == Tokens(a) && Flat(b) == Tokens(b) && Flat(c) == Tokens(c)
  {
    hide Tokens, Flat, Grouped;
    OperandIsGrouped(a);
    OperandIsGrouped(b);
    OperandIsGrouped(c);
  }

  /** Products bind tighter than sums, on either side of them. */
  lemma ProductsBeforeSums(a: Node, b: Node, c: Node, sum: BinOp, product: BinOp)
    requires Short(a, b, c) && sum in {AddOp, SubOp} && product in {MulOp, DivOp, ModOp}
    ensures ParseTokens(Tokens(a) + [OpTok(sum)] + Tokens(b) + [OpTok(product)] + Tokens(c)) ==
            Good(Binary(sum, a, Binary(product, b, c)))
    ensures ParseTokens(Tokens(a) + [OpTok(product)] + Tokens(b) + [OpTok(sum)] + Tokens(c)) ==
            Good(Binary(sum, Binary(product, a, b), c))
  {
    hide Tokens, ParseTokens, Operand;
    Flattened(a, OpTok(sum), b, OpTok(product), c);
    Flattened(a, OpTok(product), b, OpTok(sum), c);
    FlatParses(Binary(sum, a, Binary(product, b, c)));
    FlatParses(Binary(sum, Binary(product, a, b), c));
  }

  /** Sums, and products, group from the left. */
  lemma ArithmeticFromTheLeft(a: Node, b: Node, c: Node, op: BinOp, op': BinOp)
    requires Short(a, b, c)
    requires (op in {AddOp, SubOp} && op' in {AddOp, SubOp}) || (op in {MulOp, DivOp, ModOp} && op' in {MulOp, DivOp, ModOp})
    ensures ParseTokens(Tokens(a) + [OpTok(op)] + Tokens(b) + [OpTok(op')] + Tokens(c)) == Good(Binary(op', Binary(op, a, b), c))
  {
    hide Tokens, ParseTokens, Operand;
    Flattened(a, OpTok(op), b, OpTok(op'), c);
    FlatParses(Binary(op', Binary(op, a, b), c));
  }

  /** Comparisons bind more loosely than sums and products. */
  lemma ArithmeticBeforeComparison(a: Node, b: Node, c: Node, op: BinOp, comparison: BinOp)
    requires Short(a, b, c) && op in {AddOp, SubOp, MulOp, DivOp, ModOp} && comparison in {EqOp, NeqOp, LtOp, LteOp, GtOp, GteOp}
    ensures ParseTokens(Tokens(a) + [OpTok(op)] + Tokens(b) + [OpTok(comparison)] + Tokens(c)) ==
            Good(Binary(comparison, Binary(op, a, b), c))
    ensures ParseTokens(Tokens(a) + [OpTok(comparison)] + Tokens(b) + [OpTok(op)] + Tokens(c)) ==
            Good(Binary(comparison, a, Binary(op, b, c)))
  {
    hide Tokens, ParseTokens, Operand;
    Flattened(a, OpTok(op), b, OpTok(comparison), c);
    Flattened(a, OpTok(comparison), b, OpTok(op), c);
    FlatParses(Binary(comparison, Binary(op, a, b), c));
    FlatParses(Binary(comparison, a, Binary(op, b, c)));
  }

  /** `not` takes a whole comparison, and a minus sign only the operand behind it. */
  lemma PrefixesBind(a: Node, b: Node, comparison: BinOp, op: BinOp)
    requires Short(a, b, b) && comparison in {EqOp, NeqOp, LtOp, LteOp, GtOp, GteOp}
    ensures ParseTokens([NotTok] + (Tokens(a) + [OpTok(comparison)] + Tokens(b))) == Good(Not(Binary(comparison, a, b)))
    ensures ParseTokens([OpTok(SubOp)] + Tokens(a) + [OpTok(op)] + Tokens(b)) == Good(Binary(op, Negate(a), b))
    ensures ParseTokens(Tokens(a) + [OpTok(op)] + ([OpTok(SubOp)] + Tokens(b))) == Good(Binary(op, a, Negate(b)))
  {
    hide Tokens, ParseTokens, Operand;
    Flattened(a, OpTok(comparison), b, OpTok(op), b);
    FlatParses(Not(Binary(comparison, a, b)));
    FlatParses(Binary(op, Negate(a), b));
    FlatParses(Binary(op, a, Negate(b)));
  }

  /** `not` binds tighter than `and`, and `and` tighter than `or`; both group from the left. */
  lemma ConnectivesBind(a: Node, b: Node, c: Node)
    requires Short(a, b, c)
    ensures ParseTokens([NotTok] + Tokens(a) + [AndTok] + Tokens(b)) == Good(Logical(false, Not(a), b))
    ensures ParseTokens(Tokens(a) + [OrTok] + Tokens(b) + [AndTok] + Tokens(c)) == Good(Logical(true, a, Logical(false, b, c)))
    ensures ParseTokens(Tokens(a) + [AndTok] + Tokens(b) + [OrTok] + Tokens(c)) == Good(Logical(true, Logical(false, a, b), c))
    ensures ParseTokens(Tokens(a) + [AndTok] + Tokens(b) + [AndTok] + Tokens(c)) == Good(Logical(false, Logical(false, a, b), c))
    ensures ParseTokens(Tokens(a) + [OrTok] + Tokens(b) + [OrTok] + Tokens(c)) == Good(Logical(true, Logical(true, a, b), c))
  {
    hide Tokens, ParseTokens, Operand;
    Flattened(a, OrTok, b, AndTok, c);
    Flattened(a, AndTok, b, OrTok, c);
    Flattened(a, AndTok, b, AndTok, c);
    Flattened(a, OrTok, b, OrTok, c);
    FlatParses(Logical(false, Not(a), b));
    FlatParses(Logical(true, a, Logical(false, b, c)));
    FlatParses(Logical(true, Logical(false, a, b), c));
    FlatParses(Logical(false, Logical(false, a, b), c));
    FlatParses(Logical(true, Logical(true, a, b), c));
  }

  /** Parentheses undo all that: what stands between them is one operand. */
  lemma ParenthesesGroup(a: Node, b: Node, c: Node, op: BinOp, op': BinOp)
    requires Short(a, b, c) && op in {AddOp, SubOp} && op' in {MulOp, DivOp, ModOp}
    ensures ParseTokens([LParen] + (Tokens(a) + [OpTok(op)] + Tokens(b)) + [RParen] + [OpTok(op')] + Tokens(c)) ==
            Good(Binary(op', Binary(op, a, b), c))
    ensures ParseTokens(Tokens(a) + [OpTok(op')] + ([LParen] + (Tokens(b) + [OpTok(op)] + Tokens(c)) + [RParen])) ==
            Good(Binary(op', a, Binary(op, b, c)))
  {
    hide Tokens, ParseTokens, Operand, Print, Depth, Wf, Flat, Grouped;
    Wrapped(a, b, op);
    Wrapped(b, c, op);
    Flattened(a, OpTok(op), b, OpTok(op'), c);
    FlatIsPrinted(a, MUL);
    FlatIsPrinted(c, UNARY);
    ProductPrinted(op', Binary(op, a, b), c);
    ProductPrinted(op', a, Binary(op, b, c));
    PrintThenParse(Binary(op', Binary(op, a, b), c));
    PrintThenParse(Binary(op', a, Binary(op, b, c)));
  }

  lemma Wrapped(a: Node, b: Node, op: BinOp)
    requires Operand(a) && Operand(b) && op in {AddOp, SubOp}
    ensures var n, ts := Binary(op, a, b), [LParen] + (Tokens(a) + [OpTok(op)] + Tokens(b)) + [RParen];
            Wf(n) && Print(n, MUL) == ts && Print(n, UNARY) == ts && Depth(n, MUL) <= 3 && Depth(n, UNARY) <= 3
  {
    hide Tokens, Operand;
    OperandIsGrouped(a);
    OperandIsGrouped(b);
    FlatIsPrinted(a, ADD);
    FlatIsPrinted(b, MUL);
  }

  lemma ProductPrinted(op: BinOp, a: Node, b: Node)
    requires op in {MulOp, DivOp, ModOp} && Wf(a) && Wf(b)
    ensures Wf(Binary(op, a, b)) && Print(Binary(op, a, b), OR) == Print(a, MUL) + [OpTok(op)] + Print(b, UNARY)
    ensures Depth(Binary(op, a, b), OR) == Max(Depth(a, MUL), Depth(b, UNARY))
  {
  }

  /** A second comparison is not accepted, whatever follows it. */
  lemma ComparisonsDoNotChain(a: Node, b: Node, op: BinOp, op': BinOp, rest: seq<Token>)
    requires Short(a, b, b) && op in {EqOp, NeqOp, LtOp, LteOp, GtOp, GteOp} && op' in {EqOp, NeqOp, LtOp, LteOp, GtOp, GteOp}
    ensures ParseTokens(Tokens(a) + [OpTok(op)] + Tokens(b) + [OpTok(op')] + rest) == Bad(Unparseable)
  {
    hide Tokens, Operand, Print, Depth, Wf, Flat, Grouped, Parse, Advanced, HonestError;
    var ts := Tokens(a) + [OpTok(op)] + Tokens(b) + [OpTok(op')] + rest;
    var st := ReadsComparisonAlone(a, b, op, op', rest);
    var n := Binary(op, a, b);
    OperandIsGrouped(a);
    FlatIsPrinted(a, ADD);
    FirstToken(a, ADD);
    assert ts[0] == Tokens(a)[0];
    PrefixSkip(NOT, ts, START);
    LevelTurn(AND, ts, START, n, st);
    StopsAt(AND, ts, n, st);
    LevelTurn(OR, ts, START, n, st);
    StopsAt(OR, ts, n, st);
  }

  lemma ReadsComparisonAlone(a: Node, b: Node, op: BinOp, op': BinOp, rest: seq<Token>) returns (st: Cursor)
    requires Short(a, b, b) && op in {EqOp, NeqOp, LtOp, LteOp, GtOp, GteOp} && op' in {EqOp, NeqOp, LtOp, LteOp, GtOp, GteOp}
    ensures var ts := Tokens(a) + [OpTok(op)] + Tokens(b) + [OpTok(op')] + rest;
            && Parse(CMP, ts, START) == Good((Binary(op, a, b), st)) && st.pos < |ts| && ts[st.pos] == OpTok(op')
  {
    hide Tokens, Operand, Print, Depth, Wf, Flat, Grouped, Ends;
    hide Parse, ParsePrimary, ParseCompared, ParseChain, Advanced, AdvancedOrNot, HonestError;
    var ts := Tokens(a) + [OpTok(op)] + Tokens(b) + [OpTok(op')] + rest;
    var i := |Tokens(a)|;
    var j := i + 1 + |Tokens(b)|;
    Flattened(a, OpTok(op), b, OpTok(op'), b);
    FlatIsPrinted(a, ADD);
    FlatIsPrinted(b, ADD);
    assert ts[0..i] == Tokens(a) && ts[i + 1..j] == Tokens(b);
    EndsAt(ADD, ts, i);
    EndsAt(ADD, ts, j);
    var st1 := Reads(a, ADD, ts, START);
    var st2 := Cursor(st1.pos + 1, st1.ops + 1, st1.depth);
    st := Reads(b, ADD, ts, st2);
    ComparedTurn(ts, a, b, st1, st2, st);
    LevelTurn(CMP, ts, START, a, st1);
  }

  lemma StopsAt(l: nat, ts: seq<Token>, n: Node, st: Cursor)
    requires IsChain(l) && !AtChain(ts, st.pos, l)
    ensures ParseChain(l, ts, n, st) == Good((n, st))
  {
  }

  // --- Calls and forbidden names -----------------------------------------------------------------------

  /** The arguments of a call are read in order. */
  lemma CallTakesArguments(name: string, a: Node, b: Node)
    requires Short(a, b, b)
    ensures ParseTokens([Ident(name), LParen, RParen]) == Good(Call(name, []))
    ensures ParseTokens([Ident(name), LParen] + (Tokens(a) + [Comma] + Tokens(b)) + [RParen]) == Good(Call(name, [a, b]))
  {
    hide Tokens, Operand, ParseTokens, Flat, Grouped, Wf, Print, Depth, PrintArgs, ArgsDepth;
    Flattened(a, Comma, b, Comma, b);
    FlatIsPrinted(a, OR);
    FlatIsPrinted(b, OR);
    NoArgsPrinted(name);
    TwoArgsPrinted(name, a, b);
    PrintThenParse(Call(name, []));
    PrintThenParse(Call(name, [a, b]));
  }

  lemma NoArgsPrinted(name: string)
    ensures Wf(Call(name, [])) && Depth(Call(name, []), OR) == 1 && Print(Call(name, []), OR) == [Ident(name), LParen, RParen]
  {
    hide Print, Depth;
    CallPrinted(Call(name, []));
    ArgsStepped([], 0);
  }

  lemma TwoArgsPrinted(name: string, a: Node, b: Node)
    requires Wf(a) && Wf(b) && Depth(a, OR) <= 2 && Depth(b, OR) <= 2
    ensures var n := Call(name, [a, b]);
            Wf(n) && Depth(n, OR) <= 3 && Print(n, OR) == [Ident(name), LParen] + (Print(a, OR) + [Comma] + Print(b, OR)) + [RParen]
  {
    hide Print, Depth;
    var n := Call(name, [a, b]);
    CallPrinted(n);
    ArgsStepped(n.args, 0);
    ArgsStepped(n.args, 1);
    ArgsStepped(n.args, 2);
  }

  lemma CallPrinted(n: Node)
    requires n.Call?
    ensures Print(n, OR) == [Ident(n.name), LParen] + PrintArgs(n.args, 0) + [RParen] && Depth(n, OR) == 1 + ArgsDepth(n.args, 0)
  {
  }

  lemma ArgsStepped(args: seq<Node>, k: nat)
    requires k <= |args|
    ensures PrintArgs(args, k) ==
            if k == |args| then [] else (if k == 0 then [] else [Comma]) + Print(args[k], OR) + PrintArgs(args, k + 1)
    ensures ArgsDepth(args, k) == if k == |args| then 0 else Max(Depth(args[k], OR), ArgsDepth(args, k + 1))
  {
    hide Print, Depth;
  }

  /** A forbidden name behind a dot is rejected as such, whatever follows it. */
  lemma ForbiddenNameIsRejected(root: string, name: string, rest: seq<Token>)
    requires name in {"__proto__", "constructor", "prototype"}
    ensures ParseTokens([Ident(root), Dot, Ident(name)] + rest) == Bad(ForbiddenProperty)
  {
    hide Parse, Advanced, HonestError;
    var ts := [Ident(root), Dot, Ident(name)] + rest;
    KeyIsForbidden(root, name, rest);
    PrimaryTurn(ts, START);
    ErrorClimbs(ts, OR);
  }

  lemma KeyIsForbidden(root: string, name: string, rest: seq<Token>)
    requires name in {"__proto__", "constructor", "prototype"}
    ensures ParsePrimary([Ident(root), Dot, Ident(name)] + rest, START) == Bad(ForbiddenProperty)
  {
    hide Parse, Advanced, AdvancedOrNot, HonestError;
  }

  lemma {:induction false} ErrorClimbs(ts: seq<Token>, l: nat)
    requires l <= PRIMARY && |ts| > 0 && ts[0].Ident? && Parse(PRIMARY, ts, START).Bad?
    ensures Parse(l, ts, START) == Bad(Parse(PRIMARY, ts, START).error)
    decreases PRIMARY - l
  {
    hide ParsePrimary, ParseCompared, ParseChain, Advanced, AdvancedOrNot, HonestError;
    if l < PRIMARY {
      ErrorClimbs(ts, l + 1);
    }
  }

  // --- How deep parentheses nest ----------------------------------------------------------------------------

  /** A literal in `n` pairs of parentheses. */
  function Nested(n: nat, lit: Literal): seq<Token> {
    if n == 0 then [Spelled(lit)] else [LParen] + Nested(n - 1, lit) + [RParen]
  }

  lemma {:induction false} NestedParts(n: nat, lit: Literal, i: nat)
    requires i <= n
    ensures var ts := Nested(n, lit);
            |ts| == 2 * n + 1 && ts[i] == (if i < n then LParen else Spelled(lit)) && (i < n ==> ts[2 * n - i] == RParen)
    decreases n
  {
    if n > 0 && i > 0 {
      NestedParts(n - 1, lit, i - 1);
    } else if n > 0 {
      NestedParts(n - 1, lit, 0);
    }
  }

  /** A primary that is followed by nothing or by a closing parenthesis is the whole of any looser level. */
  lemma {:induction false} PrimaryAlone(ts: seq<Token>, l: nat, st: Cursor)
    requires l <= PRIMARY && st.pos < |ts| && ts[st.pos] != NotTok && ts[st.pos] != OpTok(SubOp)
    requires var r := ParsePrimary(ts, st); r.Good? ==> r.value.1.pos == |ts| || At(ts, r.value.1.pos, RParen)
    ensures Parse(l, ts, st) == ParsePrimary(ts, st)
    decreases PRIMARY - l
  {
    hide ParsePrimary, Advanced, AdvancedOrNot, HonestError;
    if l < PRIMARY {
      PrimaryAlone(ts, l + 1, st);
    }
  }

  /** Inside the first `i` parentheses. */
  lemma {:induction false} NestedReads(n: nat, lit: Literal, i: nat)
    requires i <= n
    ensures Parse(OR, Nested(n, lit), Cursor(i, 0, i)) ==
            if n < 50 then Good((Lit(lit), Cursor(2 * n - i + 1, 0, i))) else Bad(ParserDepthLimit)
    decreases n - i
  {
    hide Parse, ParsePrimary, Advanced, AdvancedOrNot, HonestError, Nested;
    var ts, st := Nested(n, lit), Cursor(i, 0, i);
    NestedParts(n, lit, i);
    if i > 0 {
      NestedParts(n, lit, i - 1);
    }
    if i >= 50 {
      TooDeep(ts, st);
    } else if i == n {
      LiteralTurn(lit, ts, st);
    } else {
      NestedReads(n, lit, i + 1);
      ParenthesisTurn(ts, st);
    }
    PrimaryAlone(ts, OR, st);
  }

  lemma TooDeep(ts: seq<Token>, st: Cursor)
    requires st.depth >= 50
    ensures ParsePrimary(ts, st) == Bad(ParserDepthLimit)
  {
    hide Parse, Advanced, HonestError;
  }

  lemma ParenthesisTurn(ts: seq<Token>, st: Cursor)
    requires At(ts, st.pos, LParen) && st.depth < 50
    ensures var inner := Parse(OR, ts, Cursor(st.pos + 1, st.ops, st.depth + 1));
            && (inner.Bad? ==> ParsePrimary(ts, st) == Bad(inner.error))
            && (inner.Good? && At(ts, inner.value.1.pos, RParen) ==>
                  ParsePrimary(ts, st) == Good((inner.value.0, Cursor(inner.value.1.pos + 1, inner.value.1.ops, st.depth))))
  {
    hide Parse, Advanced, HonestError;
  }

  /** Forty-nine pairs of parentheses are accepted around a literal, and no more. */
  lemma NestingLimit(n: nat, lit: Literal)
    ensures ParseTokens(Nested(n, lit)) == if n < 50 then Good(Lit(lit)) else Bad(ParserDepthLimit)
  {
    hide Parse, Nested, Advanced, HonestError;
    NestedReads(n, lit, 0);
    NestedParts(n, lit, 0);
  }
}
