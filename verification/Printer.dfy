/** Printing a syntax tree to tokens with the fewest parentheses, and reading it back. */
module ExpressionPrinter {
  import opened Syntax
  import opened ExpressionParser
  import opened Identifiers

  /** The grammar level of the production that builds the node. */
  function Level(n: Node): (l: nat)
    ensures l <= PRIMARY
  {
    match n
    case Logical(isOr, _, _) => if isOr then OR else AND
    case Not(_) => NOT
    case Binary(op, _, _) => OpLevel(op)
    case Negate(_) => UNARY
    case _ => PRIMARY
  }

  function LiteralToken(lit: Literal): Token {
    match lit
    case NumLit(text) => NumTok(text)
    case StrLit(v) => StrTok(v)
    case BoolLit(b) => BoolTok(b)
    case NullLit => NullTok
  }

  predicate Dotted(k: Key) {
    k.Fixed? && k.lit.StrLit? && IsName(k.lit.value) && k.lit.value !in FORBIDDEN_PROPS
  }

  /** The node where level `l` is expected: in parentheses when it binds more loosely. */
  function Print(n: Node, l: nat): seq<Token>
    decreases n, 1
  {
    if Level(n) < l then [LParen] + Bare(n) + [RParen] else Bare(n)
  }

  function Bare(n: Node): seq<Token>
    decreases n, 0
  {
    match n
    case Lit(lit) => [LiteralToken(lit)]
    case Property(root, keys) => [Ident(root)] + PrintKeys(keys, 0)
    case Call(name, args) => [Ident(name), LParen] + PrintArgs(args, 0) + [RParen]
    case Not(e) => [NotTok] + Print(e, NOT)
    case Negate(e) => [OpTok(SubOp)] + Print(e, UNARY)
    case Logical(isOr, a, b) =>
      Print(a, if isOr then OR else AND) + [if isOr then OrTok else AndTok] + Print(b, if isOr then AND else NOT)
    case Binary(op, a, b) =>
      var l := OpLevel(op);
      Print(a, if l == CMP then ADD else l) + [OpTok(op)] + Print(b, l + 1)
  }

  function PrintKeys(keys: seq<Key>, k: nat): seq<Token>
    requires k <= |keys|
    decreases keys, |keys| - k
  {
    if k == |keys| then [] else PrintKey(keys[k]) + PrintKeys(keys, k + 1)
  }

  function PrintKey(k: Key): (ts: seq<Token>)
    ensures |ts| > 0 && (ts[0] == Dot || ts[0] == LBracket)
    decreases k, 0
  {
    match k
    case Fixed(lit) => if Dotted(k) then [Dot, Ident(lit.value)] else [LBracket, LiteralToken(lit), RBracket]
    case Dynamic(n) => [LBracket] + Print(n, OR) + [RBracket]
  }

  function PrintArgs(args: seq<Node>, k: nat): seq<Token>
    requires k <= |args|
    decreases args, |args| - k
  {
    if k == |args| then [] else
    (if k == 0 then [] else [Comma]) + Print(args[k], OR) + PrintArgs(args, k + 1)
  }

  // --- Trees the grammar can build, and how deep the parser nests on them -------------------

  /** A dynamic index is never a bare literal, since the parser stores that as its value. */
  predicate Wf(n: Node)
    decreases n, 0
  {
    match n
    case Lit(_) => true
    case Property(_, keys) => forall k :: 0 <= k < |keys| ==> WfKey(keys[k])
    case Call(_, args) => forall k :: 0 <= k < |args| ==> Wf(args[k])
    case Not(e) => Wf(e)
    case Negate(e) => Wf(e)
    case Logical(_, a, b) => Wf(a) && Wf(b)
    case Binary(_, a, b) => Wf(a) && Wf(b)
  }

  predicate WfKey(k: Key)
    decreases k, 0
  {
    k.Dynamic? ==> !k.index.Lit? && Wf(k.index)
  }

  function Max(a: nat, b: nat): nat {
    if a < b then b else a
  }

  /** Nested `parsePrimary` activations needed to read the print back. */
  function Depth(n: Node, l: nat): nat
    decreases n, 1
  {
    (if Level(n) < l then 1 else 0) + BareDepth(n)
  }

  function BareDepth(n: Node): (d: nat)
    ensures d >= 1
    decreases n, 0
  {
    match n
    case Lit(_) => 1
    case Property(_, keys) => 1 + KeysDepth(keys, 0)
    case Call(_, args) => 1 + ArgsDepth(args, 0)
    case Not(e) => Depth(e, NOT)
    case Negate(e) => Depth(e, UNARY)
    case Logical(isOr, a, b) => Max(Depth(a, if isOr then OR else AND), Depth(b, if isOr then AND else NOT))
    case Binary(op, a, b) => Max(Depth(a, if OpLevel(op) == CMP then ADD else OpLevel(op)), Depth(b, OpLevel(op) + 1))
  }

  function KeysDepth(keys: seq<Key>, k: nat): nat
    requires k <= |keys|
    decreases keys, |keys| - k
  {
    if k == |keys| then 0 else Max(KeyDepth(keys[k]), KeysDepth(keys, k + 1))
  }

  function KeyDepth(k: Key): nat
    decreases k, 0
  {
    match k
    case Fixed(_) => if Dotted(k) then 0 else 1
    case Dynamic(n) => Depth(n, OR)
  }

  function ArgsDepth(args: seq<Node>, k: nat): nat
    requires k <= |args|
    decreases args, |args| - k
  {
    if k == |args| then 0 else Max(Depth(args[k], OR), ArgsDepth(args, k + 1))
  }

  // --- Reading back ------------------------------------------------------------------------

  ghost predicate Here(ts: seq<Token>, pos: nat, p: seq<Token>) {
    pos + |p| <= |ts| && ts[pos..pos + |p|] == p
  }

  lemma HereSplit(ts: seq<Token>, pos: nat, a: seq<Token>, b: seq<Token>)
    requires Here(ts, pos, a + b)
    ensures Here(ts, pos, a) && Here(ts, pos + |a|, b)
  {
    var whole := ts[pos..pos + |a + b|];
    assert ts[pos..pos + |a|] == whole[..|a|] == a;
    assert ts[pos + |a|..pos + |a| + |b|] == whole[|a|..] == b;
  }

  lemma HereOne(ts: seq<Token>, pos: nat, t: Token)
    requires Here(ts, pos, [t])
    ensures pos < |ts| && ts[pos] == t
  {
    assert ts[pos..pos + 1][0] == t;
  }

  /** What follows does not continue any chain of level `l` or tighter. */
  ghost predicate Ends(l: nat, ts: seq<Token>, pos: nat) {
    pos >= |ts| || forall j {:trigger Continues(j, ts[pos])} :: l <= j <= PRIMARY ==> !Continues(j, ts[pos])
  }

  lemma EndsAt(l: nat, ts: seq<Token>, pos: nat)
    requires pos < |ts|
    requires match ts[pos]
             case RParen => true
             case RBracket => true
             case Comma => true
             case OrTok => l > OR
             case AndTok => l > AND
             case OpTok(op) => l > OpLevel(op)
             case _ => false
    ensures Ends(l, ts, pos)
  {
  }

  lemma EndsTighter(l: nat, l': nat, ts: seq<Token>, pos: nat)
    requires Ends(l, ts, pos) && l <= l'
    ensures Ends(l', ts, pos)
  {
  }

  function IsParens(n: Node, l: nat): nat {
    if Level(n) < l then 1 else 0
  }

  /** Room for reading the print of `n` at `st`. */
  ghost predicate Fits(n: Node, l: nat, ts: seq<Token>, st: Cursor) {
    && Wf(n) && l <= PRIMARY
    && Here(ts, st.pos, Print(n, l))
    && st.depth + Depth(n, l) <= MAX_RECURSION
    && st.ops + |Print(n, l)| <= MAX_OPERATIONS
  }

  /** A print at level 3 or tighter does not start with `not`, one at level 7 not with a minus. */
  lemma {:induction false} FirstToken(n: Node, l: nat)
    ensures |Print(n, l)| > 0
    ensures l >= CMP ==> Print(n, l)[0] != NotTok
    ensures l >= PRIMARY ==> Print(n, l)[0] != OpTok(SubOp)
    decreases n
  {
    if Level(n) >= l {
      match n
      case Logical(isOr, a, _) => FirstToken(a, if isOr then OR else AND);
      case Binary(op, a, _) => FirstToken(a, if OpLevel(op) == CMP then ADD else OpLevel(op));
      case _ =>
    }
  }

  /** Without parentheses the print is bare. */
  lemma Unwrapped(n: Node, l: nat, ts: seq<Token>, st: Cursor)
    requires Fits(n, l, ts, st) && Level(n) >= l
    ensures Print(n, l) == Bare(n) && Here(ts, st.pos, Bare(n))
    ensures st.depth + BareDepth(n) <= MAX_RECURSION && st.ops + |Bare(n)| <= MAX_OPERATIONS
  {
  }

  /** The two operands of a binary node, with the token between them. */
  lemma Operands(la: nat, lb: nat, a: Node, b: Node, t: Token, ts: seq<Token>, st: Cursor)
    requires Here(ts, st.pos, Print(a, la) + [t] + Print(b, lb)) && st.depth + Max(Depth(a, la), Depth(b, lb)) <= MAX_RECURSION
    requires st.ops + |Print(a, la) + [t] + Print(b, lb)| <= MAX_OPERATIONS
    requires Wf(a) && Wf(b) && la <= PRIMARY && lb <= PRIMARY
    ensures Fits(a, la, ts, st)
    ensures var mid := st.pos + |Print(a, la)|;
            && mid < |ts| && ts[mid] == t
            && |Print(a, la) + [t] + Print(b, lb)| == |Print(a, la)| + 1 + |Print(b, lb)|
            && Here(ts, mid + 1, Print(b, lb)) && st.depth + Depth(b, lb) <= MAX_RECURSION
  {
    hide Print, Depth, Here, Wf;
    var pa, pb := Print(a, la), Print(b, lb);
    HereSplit(ts, st.pos, pa + [t], pb);
    HereSplit(ts, st.pos, pa, [t]);
    HereOne(ts, st.pos + |pa|, t);
    assert |pa + [t]| == |pa| + 1;
  }

  lemma ChainParts(n: Node, l: nat)
    requires IsChain(l) && Level(n) == l && Wf(n)
    ensures (n.Logical? || n.Binary?) && Wf(n.left) && Wf(n.right)
    ensures var t := if n.Binary? then OpTok(n.op) else if n.isOr then OrTok else AndTok;
            && Bare(n) == Print(n.left, l) + [t] + Print(n.right, l + 1)
            && BareDepth(n) == Max(Depth(n.left, l), Depth(n.right, l + 1))
            && Continues(l, t) && Join(t, n.left, n.right) == n
  {
  }

  lemma ComparisonParts(n: Node)
    requires Level(n) == CMP && Wf(n)
    ensures n.Binary? && Wf(n.left) && Wf(n.right) && Continues(CMP, OpTok(n.op))
    ensures Bare(n) == Print(n.left, ADD) + [OpTok(n.op)] + Print(n.right, ADD)
    ensures BareDepth(n) == Max(Depth(n.left, ADD), Depth(n.right, ADD))
  {
  }

  lemma SamePrint(n: Node, l: nat)
    requires Level(n) != l
    ensures Print(n, l + 1) == Print(n, l) && Depth(n, l + 1) == Depth(n, l) && IsParens(n, l + 1) == IsParens(n, l)
  {
  }

  // --- One unfolding of each parser routine -----------------------------------------------------

  lemma LevelTurn(l: nat, ts: seq<Token>, st: Cursor, left: Node, st1: Cursor)
    requires (IsChain(l) || l == CMP) && Parse(l + 1, ts, st) == Good((left, st1))
    ensures Parse(l, ts, st) == if l == CMP then ParseCompared(ts, left, st1) else ParseChain(l, ts, left, st1)
  {
    hide ParseCompared, ParseChain, ParsePrimary, Advanced, AdvancedOrNot, HonestError;
  }

  lemma PrefixTurn(l: nat, ts: seq<Token>, st: Cursor, st1: Cursor, operand: Node, st2: Cursor)
    requires (l == NOT || l == UNARY) && At(ts, st.pos, if l == NOT then NotTok else OpTok(SubOp))
    requires Step(st) == Good(st1) && Parse(l, ts, st1) == Good((operand, st2))
    ensures Parse(l, ts, st) == Good((if l == NOT then Not(operand) else Negate(operand), st2))
  {
    hide ParseCompared, ParseChain, ParsePrimary, Advanced, AdvancedOrNot, HonestError;
  }

  lemma PrefixSkip(l: nat, ts: seq<Token>, st: Cursor)
    requires (l == NOT || l == UNARY) && !At(ts, st.pos, if l == NOT then NotTok else OpTok(SubOp))
    ensures Parse(l, ts, st) == Parse(l + 1, ts, st)
  {
    hide ParseCompared, ParseChain, ParsePrimary, Advanced, AdvancedOrNot, HonestError;
  }

  lemma PrimaryTurn(ts: seq<Token>, st: Cursor)
    ensures Parse(PRIMARY, ts, st) == ParsePrimary(ts, st)
  {
    hide ParseCompared, ParseChain, ParsePrimary, Advanced, AdvancedOrNot, HonestError;
  }

  lemma LiteralTurn(lit: Literal, ts: seq<Token>, st: Cursor)
    requires At(ts, st.pos, LiteralToken(lit)) && st.depth + 1 <= MAX_RECURSION
    ensures ParsePrimary(ts, st) == Good((Lit(lit), Skip(st)))
  {
    hide Parse, ParseArgs, ParseKeys, Advanced, AdvancedOrNot, HonestError;
  }

  lemma ParenTurn(ts: seq<Token>, st: Cursor, node: Node, st2: Cursor)
    requires At(ts, st.pos, LParen) && st.depth + 1 <= MAX_RECURSION
    requires Parse(OR, ts, Cursor(st.pos + 1, st.ops, st.depth + 1)) == Good((node, st2)) && At(ts, st2.pos, RParen)
    ensures ParsePrimary(ts, st) == Good((node, Skip(st2).(depth := st.depth)))
  {
    hide Parse, ParseArgs, ParseKeys, Advanced, AdvancedOrNot, HonestError;
  }

  lemma CallTurn(ts: seq<Token>, st: Cursor, name: string, args: seq<Node>, st2: Cursor)
    requires At(ts, st.pos, Ident(name)) && At(ts, st.pos + 1, LParen) && st.depth + 1 <= MAX_RECURSION
    requires ParseArgs(ts, Cursor(st.pos + 2, st.ops, st.depth + 1)) == Good((args, st2)) && At(ts, st2.pos, RParen)
    ensures ParsePrimary(ts, st) == Good((Call(name, args), Skip(st2).(depth := st.depth)))
  {
    hide Parse, ParseArgs, ParseKeys, Advanced, AdvancedOrNot, HonestError;
  }

  lemma PropertyTurn(ts: seq<Token>, st: Cursor, root: string, keys: seq<Key>, st2: Cursor)
    requires At(ts, st.pos, Ident(root)) && !At(ts, st.pos + 1, LParen) && st.depth + 1 <= MAX_RECURSION
    requires ParseKeys(ts, [], Cursor(st.pos + 1, st.ops, st.depth + 1)) == Good((keys, st2))
    ensures ParsePrimary(ts, st) == Good((Property(root, keys), st2.(depth := st.depth)))
  {
    hide Parse, ParseArgs, ParseKeys, Advanced, AdvancedOrNot, HonestError;
  }

  lemma FirstArg(ts: seq<Token>, st: Cursor, arg: Node, st1: Cursor)
    requires !At(ts, st.pos, RParen) && Parse(OR, ts, st) == Good((arg, st1))
    ensures ParseArgs(ts, st) == ParseMoreArgs(ts, [arg], st1)
  {
    hide Parse, ParseMoreArgs, Advanced, AdvancedOrNot, HonestError;
  }

  lemma NoArgs(ts: seq<Token>, st: Cursor)
    requires At(ts, st.pos, RParen)
    ensures ParseArgs(ts, st) == Good(([], st))
  {
    hide Parse, ParseMoreArgs, Advanced, AdvancedOrNot, HonestError;
  }

  lemma ComparedStops(ts: seq<Token>, n: Node, st: Cursor)
    requires Ends(CMP, ts, st.pos)
    ensures ParseCompared(ts, n, st) == Good((n, st))
  {
    hide Parse, Advanced, AdvancedOrNot, HonestError;
    if st.pos < |ts| {
      assert !Continues(CMP, ts[st.pos]);
    }
  }

  /** A chain level reaches its loop with the whole node on the left. */
  lemma {:induction false} ReachesChain(n: Node, l: nat, ts: seq<Token>, st: Cursor) returns (st': Cursor)
    requires IsChain(l) && Fits(n, l, ts, st) && Ends(l + 1, ts, st.pos + |Print(n, l)|)
    ensures Parse(l, ts, st) == ParseChain(l, ts, n, st')
    ensures st'.pos == st.pos + |Print(n, l)| && st'.depth == st.depth && st'.ops <= st.ops + |Print(n, l)|
    decreases n, IsParens(n, l), 10 - l, 0
  {
    hide Print, Depth, Here, Wf, Bare, BareDepth, Ends, Parse, ParsePrimary, ParseChain, ParseCompared, ParseArgs, ParseMoreArgs, ParseKeys, Advanced, AdvancedOrNot, HonestError;
    if Level(n) == l {
      ChainParts(n, l);
      Unwrapped(n, l, ts, st);
      var a, b, t := n.left, n.right, if n.Binary? then OpTok(n.op) else if n.isOr then OrTok else AndTok;
      Operands(l, l + 1, a, b, t, ts, st);
      EndsAt(l + 1, ts, st.pos + |Print(a, l)|);
      var st1 := ReachesChain(a, l, ts, st);
      var st2 := Cursor(st1.pos + 1, st1.ops + 1, st1.depth);
      st' := Reads(b, l + 1, ts, st2);
      ChainTurn(l, ts, a, b, st1, st2, st');
    } else {
      SamePrint(n, l);
      st' := Reads(n, l + 1, ts, st);
      LevelTurn(l, ts, st, n, st');
    }
  }

  /** One turn of the loop of a chain. */
  lemma ChainTurn(l: nat, ts: seq<Token>, a: Node, b: Node, st1: Cursor, st2: Cursor, st3: Cursor)
    requires IsChain(l) && AtChain(ts, st1.pos, l) && Step(st1) == Good(st2) && Parse(l + 1, ts, st2) == Good((b, st3))
    ensures ParseChain(l, ts, a, st1) == ParseChain(l, ts, Join(ts[st1.pos], a, b), st3)
  {
    hide Parse, Advanced, AdvancedOrNot, HonestError;
  }

  lemma ChainStops(l: nat, ts: seq<Token>, n: Node, st: Cursor)
    requires IsChain(l) && Ends(l, ts, st.pos)
    ensures ParseChain(l, ts, n, st) == Good((n, st))
  {
  }

  /** Reading the print of a node at any level gives the node back. */
  lemma {:induction false} Reads(n: Node, l: nat, ts: seq<Token>, st: Cursor) returns (st': Cursor)
    requires Fits(n, l, ts, st) && Ends(l, ts, st.pos + |Print(n, l)|)
    ensures Parse(l, ts, st) == Good((n, st'))
    ensures st'.pos == st.pos + |Print(n, l)| && st'.depth == st.depth && st'.ops <= st.ops + |Print(n, l)|
    decreases n, IsParens(n, l), 10 - l, 1
  {
    assert l <= PRIMARY;
    hide Print, Depth, Here, Wf, Bare, BareDepth, Ends, Fits, Parse, ParsePrimary, ParseChain, ParseCompared, ParseArgs, ParseMoreArgs, ParseKeys, Advanced, AdvancedOrNot, HonestError;
    if IsChain(l) {
      EndsTighter(l, l + 1, ts, st.pos + |Print(n, l)|);
      st' := ReachesChain(n, l, ts, st);
      ChainStops(l, ts, n, st');
    } else if l == PRIMARY {
      st' := ReadsPrimary(n, ts, st);
      PrimaryTurn(ts, st);
    } else if l == CMP {
      st' := ReadsComparison(n, ts, st);
    } else {
      st' := ReadsPrefix(n, l, ts, st);
    }
  }

  lemma {:induction false} ReadsComparison(n: Node, ts: seq<Token>, st: Cursor) returns (st': Cursor)
    requires Fits(n, CMP, ts, st) && Ends(CMP, ts, st.pos + |Print(n, CMP)|)
    ensures Parse(CMP, ts, st) == Good((n, st'))
    ensures st'.pos == st.pos + |Print(n, CMP)| && st'.depth == st.depth && st'.ops <= st.ops + |Print(n, CMP)|
    decreases n, IsParens(n, CMP), 10 - CMP, 0
  {
    hide Print, Depth, Here, Wf, Bare, BareDepth, Ends, Parse, ParsePrimary, ParseChain, ParseCompared, ParseArgs, ParseMoreArgs, ParseKeys, Advanced, AdvancedOrNot, HonestError;
    EndsTighter(CMP, ADD, ts, st.pos + |Print(n, CMP)|);
    if Level(n) == CMP {
      ComparisonParts(n);
      Unwrapped(n, CMP, ts, st);
      Operands(ADD, ADD, n.left, n.right, OpTok(n.op), ts, st);
      EndsAt(ADD, ts, st.pos + |Print(n.left, ADD)|);
      var st1 := Reads(n.left, ADD, ts, st);
      var st2 := Cursor(st1.pos + 1, st1.ops + 1, st1.depth);
      st' := Reads(n.right, ADD, ts, st2);
      ComparedTurn(ts, n.left, n.right, st1, st2, st');
      LevelTurn(CMP, ts, st, n.left, st1);
    } else {
      SamePrint(n, CMP);
      st' := Reads(n, ADD, ts, st);
      LevelTurn(CMP, ts, st, n, st');
      ComparedStops(ts, n, st');
    }
  }

  lemma ComparedTurn(ts: seq<Token>, a: Node, b: Node, st1: Cursor, st2: Cursor, st3: Cursor)
    requires AtChain(ts, st1.pos, CMP) && Step(st1) == Good(st2) && Parse(ADD, ts, st2) == Good((b, st3))
    ensures ParseCompared(ts, a, st1) == Good((Join(ts[st1.pos], a, b), st3))
  {
    hide Parse, Advanced, AdvancedOrNot, HonestError;
  }

  lemma PrefixParts(n: Node, l: nat)
    requires (l == NOT || l == UNARY) && Level(n) == l && Wf(n)
    ensures (if l == NOT then n.Not? else n.Negate?) && Wf(n.operand)
    ensures Bare(n) == [if l == NOT then NotTok else OpTok(SubOp)] + Print(n.operand, l)
    ensures BareDepth(n) == Depth(n.operand, l)
  {
  }

  lemma {:induction false} ReadsPrefix(n: Node, l: nat, ts: seq<Token>, st: Cursor) returns (st': Cursor)
    requires (l == NOT || l == UNARY) && Fits(n, l, ts, st) && Ends(l, ts, st.pos + |Print(n, l)|)
    ensures Parse(l, ts, st) == Good((n, st'))
    ensures st'.pos == st.pos + |Print(n, l)| && st'.depth == st.depth && st'.ops <= st.ops + |Print(n, l)|
    decreases n, IsParens(n, l), 10 - l, 0
  {
    hide Print, Depth, Here, Wf, Bare, BareDepth, Ends, Parse, ParsePrimary, ParseChain, ParseCompared, ParseArgs, ParseMoreArgs, ParseKeys, Advanced, AdvancedOrNot, HonestError;
    var t := if l == NOT then NotTok else OpTok(SubOp);
    if Level(n) == l {
      PrefixParts(n, l);
      Unwrapped(n, l, ts, st);
      HereSplit(ts, st.pos, [t], Print(n.operand, l));
      HereOne(ts, st.pos, t);
      var st1 := Cursor(st.pos + 1, st.ops + 1, st.depth);
      st' := Reads(n.operand, l, ts, st1);
      PrefixTurn(l, ts, st, st1, n.operand, st');
    } else {
      SamePrint(n, l);
      FirstToken(n, l + 1);
      HereFirst(ts, st.pos, Print(n, l));
      EndsTighter(l, l + 1, ts, st.pos + |Print(n, l)|);
      st' := Reads(n, l + 1, ts, st);
      PrefixSkip(l, ts, st);
    }
  }

  lemma HereFirst(ts: seq<Token>, pos: nat, p: seq<Token>)
    requires Here(ts, pos, p) && |p| > 0
    ensures pos < |ts| && ts[pos] == p[0]
  {
    assert ts[pos..pos + |p|][0] == ts[pos];
  }

  /** A single literal token reads as the literal, at every level. */
  lemma {:induction false} ReadsLiteral(lit: Literal, l: nat, ts: seq<Token>, st: Cursor)
    requires l <= PRIMARY && At(ts, st.pos, LiteralToken(lit)) && Ends(l, ts, st.pos + 1) && st.depth + 1 <= MAX_RECURSION
    ensures Parse(l, ts, st) == Good((Lit(lit), Skip(st)))
    decreases 10 - l
  {
    hide Ends, Parse, ParsePrimary, ParseChain, ParseCompared, ParseArgs, ParseMoreArgs, ParseKeys, Advanced, AdvancedOrNot, HonestError;
    if l < PRIMARY {
      EndsTighter(l, l + 1, ts, st.pos + 1);
      ReadsLiteral(lit, l + 1, ts, st);
      if l == NOT || l == UNARY {
        PrefixSkip(l, ts, st);
      } else {
        LevelTurn(l, ts, st, Lit(lit), Skip(st));
        if l == CMP {
          ComparedStops(ts, Lit(lit), Skip(st));
        } else {
          ChainStops(l, ts, Lit(lit), Skip(st));
        }
      }
    } else {
      PrimaryTurn(ts, st);
      LiteralTurn(lit, ts, st);
    }
  }

  lemma {:induction false} ReadsPrimary(n: Node, ts: seq<Token>, st: Cursor) returns (st': Cursor)
    requires Fits(n, PRIMARY, ts, st) && Ends(PRIMARY, ts, st.pos + |Print(n, PRIMARY)|)
    ensures ParsePrimary(ts, st) == Good((n, st'))
    ensures st'.pos == st.pos + |Print(n, PRIMARY)| && st'.depth == st.depth && st'.ops <= st.ops + |Print(n, PRIMARY)|
    decreases n, IsParens(n, PRIMARY), 10 - PRIMARY, 0
  {
    hide Depth, Here, Wf, BareDepth, Ends, Parse, ParsePrimary, ParseChain, ParseCompared, ParseArgs, ParseMoreArgs, ParseKeys, Advanced, AdvancedOrNot, HonestError;
    if Level(n) < PRIMARY {
      st' := ReadsParens(n, ts, st);
    } else if n.Lit? {
      Unwrapped(n, PRIMARY, ts, st);
      HereOne(ts, st.pos, LiteralToken(n.lit));
      LiteralTurn(n.lit, ts, st);
      st' := Skip(st);
    } else if n.Property? {
      st' := ReadsProperty(n, ts, st);
    } else {
      st' := ReadsCall(n, ts, st);
    }
  }

  /** In parentheses the bare print stands between them, one level deeper. */
  lemma ParensParts(n: Node)
    requires Level(n) < PRIMARY
    ensures Print(n, PRIMARY) == ([LParen] + Bare(n)) + [RParen] && Print(n, OR) == Bare(n)
    ensures Depth(n, PRIMARY) == 1 + Depth(n, OR)
  {
  }

  lemma {:induction false} ReadsParens(n: Node, ts: seq<Token>, st: Cursor) returns (st': Cursor)
    requires Level(n) < PRIMARY && Fits(n, PRIMARY, ts, st)
    ensures ParsePrimary(ts, st) == Good((n, st'))
    ensures st'.pos == st.pos + |Print(n, PRIMARY)| && st'.depth == st.depth && st'.ops <= st.ops + |Print(n, PRIMARY)|
    decreases n, 1, 0, 0
  {
    hide Print, Depth, Here, Wf, Bare, BareDepth, Ends, Parse, ParsePrimary, ParseChain, ParseCompared, ParseArgs, ParseMoreArgs, ParseKeys, Advanced, AdvancedOrNot, HonestError;
    var st1 := Cursor(st.pos + 1, st.ops, st.depth + 1);
    var bare := Bare(n);
    ParensParts(n);
    HereSplit(ts, st.pos, [LParen] + bare, [RParen]);
    HereSplit(ts, st.pos, [LParen], bare);
    HereOne(ts, st.pos, LParen);
    HereOne(ts, st.pos + 1 + |bare|, RParen);
    EndsAt(OR, ts, st.pos + 1 + |bare|);
    var st2 := Reads(n, OR, ts, st1);
    ParenTurn(ts, st, n, st2);
    st' := Skip(st2).(depth := st.depth);
  }

  lemma PropertyParts(n: Node)
    requires n.Property?
    ensures Print(n, PRIMARY) == [Ident(n.root)] + PrintKeys(n.keys, 0) && Depth(n, PRIMARY) == 1 + KeysDepth(n.keys, 0)
  {
  }

  lemma CallParts(n: Node)
    requires n.Call?
    ensures Print(n, PRIMARY) == [Ident(n.name)] + ([LParen] + (PrintArgs(n.args, 0) + [RParen]))
    ensures Depth(n, PRIMARY) == 1 + ArgsDepth(n.args, 0)
  {
  }

  lemma {:induction false} ReadsProperty(n: Node, ts: seq<Token>, st: Cursor) returns (st': Cursor)
    requires n.Property? && Fits(n, PRIMARY, ts, st) && Ends(PRIMARY, ts, st.pos + |Print(n, PRIMARY)|)
    ensures ParsePrimary(ts, st) == Good((n, st'))
    ensures st'.pos == st.pos + |Print(n, PRIMARY)| && st'.depth == st.depth && st'.ops <= st.ops + |Print(n, PRIMARY)|
    decreases n, 0, 1, 0
  {
    var st1 := Cursor(st.pos + 1, st.ops, st.depth + 1);
    hide Print, Depth, Here, Wf, Bare, BareDepth, Ends, PrintKeys, KeysDepth, Parse, ParsePrimary, ParseChain, ParseCompared, ParseArgs, ParseMoreArgs, ParseKeys, Advanced, AdvancedOrNot, HonestError;
    var keys := PrintKeys(n.keys, 0);
    PropertyParts(n);
    HereSplit(ts, st.pos, [Ident(n.root)], keys);
    HereOne(ts, st.pos, Ident(n.root));
    NotCall(n.keys, ts, st1.pos);
    var st2 := ReadsKeys(n, 0, ts, st1);
    assert n.keys[..0] == [];
    PropertyTurn(ts, st, n.root, n.keys, st2);
    st' := st2.(depth := st.depth);
  }

  /** A property is not followed by a parenthesis, so it is not read as a call. */
  lemma NotCall(keys: seq<Key>, ts: seq<Token>, pos: nat)
    requires Here(ts, pos, PrintKeys(keys, 0)) && Ends(PRIMARY, ts, pos + |PrintKeys(keys, 0)|)
    ensures !At(ts, pos, LParen)
  {
    if |keys| > 0 {
      HereSplit(ts, pos, PrintKey(keys[0]), PrintKeys(keys, 1));
      assert ts[pos] == ts[pos..pos + |PrintKey(keys[0])|][0];
    } else if pos < |ts| {
      assert !Continues(PRIMARY, ts[pos]);
    }
  }

  lemma {:induction false} ReadsKeys(n: Node, k: nat, ts: seq<Token>, st: Cursor) returns (st': Cursor)
    requires n.Property? && k <= |n.keys| && Wf(n)
    requires Here(ts, st.pos, PrintKeys(n.keys, k)) && Ends(PRIMARY, ts, st.pos + |PrintKeys(n.keys, k)|)
    requires st.depth + KeysDepth(n.keys, k) <= MAX_RECURSION
    requires st.ops + |PrintKeys(n.keys, k)| <= MAX_OPERATIONS
    ensures ParseKeys(ts, n.keys[..k], st) == Good((n.keys, st'))
    ensures st'.pos == st.pos + |PrintKeys(n.keys, k)| && st'.depth == st.depth && st'.ops <= st.ops + |PrintKeys(n.keys, k)|
    decreases n, 0, 0, |n.keys| + 1 - k
  {
    hide Print, Depth, Here, Wf, KeysDepth, KeyDepth, PrintKeys, PrintKey, Ends, WfKey, Dotted, Parse, ParsePrimary, ParseChain, ParseCompared, ParseArgs, ParseMoreArgs, ParseKeys, Advanced, AdvancedOrNot, HonestError;
    var keys := n.keys;
    if k == |keys| {
      assert keys[..k] == keys;
      NoKeysLeft(keys);
      KeysStop(ts, keys, st);
      st' := st;
    } else {
      var key := keys[k];
      KeysParts(n, k);
      HereSplit(ts, st.pos, PrintKey(key), PrintKeys(keys, k + 1));
      var st1 := Cursor(st.pos + 1, st.ops + 1, st.depth);
      if Dotted(key) {
        DottedTurn(ts, keys[..k], key, st, st1);
        st' := ReadsKeys(n, k + 1, ts, Skip(st1));
      } else {
        var st2 := ReadsIndex(n, k, ts, st);
        IndexTurn(ts, keys[..k], key, if key.Fixed? then Lit(key.lit) else key.index, st, st1, st2);
        st' := ReadsKeys(n, k + 1, ts, Skip(st2));
      }
    }
  }

  lemma NoKeysLeft(keys: seq<Key>)
    ensures |PrintKeys(keys, |keys|)| == 0
  {
  }

  lemma KeysParts(n: Node, k: nat)
    requires n.Property? && Wf(n) && k < |n.keys|
    ensures PrintKeys(n.keys, k) == PrintKey(n.keys[k]) + PrintKeys(n.keys, k + 1)
    ensures KeyDepth(n.keys[k]) <= KeysDepth(n.keys, k) && KeysDepth(n.keys, k + 1) <= KeysDepth(n.keys, k)
    ensures WfKey(n.keys[k]) && n.keys[..k] + [n.keys[k]] == n.keys[..k + 1]
  {
  }

  lemma KeysStop(ts: seq<Token>, keys: seq<Key>, st: Cursor)
    requires Ends(PRIMARY, ts, st.pos)
    ensures ParseKeys(ts, keys, st) == Good((keys, st))
  {
    hide Parse, Advanced, AdvancedOrNot, HonestError;
    if st.pos < |ts| {
      assert !Continues(PRIMARY, ts[st.pos]);
    }
  }

  lemma DottedTurn(ts: seq<Token>, keys: seq<Key>, key: Key, st: Cursor, st1: Cursor)
    requires Dotted(key) && Here(ts, st.pos, PrintKey(key)) && Step(st) == Good(st1)
    ensures ParseKeys(ts, keys, st) == ParseKeys(ts, keys + [key], Skip(st1)) && |PrintKey(key)| == 2
  {
    hide Parse, Advanced, AdvancedOrNot, HonestError;
    HereSplit(ts, st.pos, [Dot], [Ident(key.lit.value)]);
    HereOne(ts, st.pos, Dot);
    HereOne(ts, st.pos + 1, Ident(key.lit.value));
  }

  lemma IndexTurn(ts: seq<Token>, keys: seq<Key>, key: Key, index: Node, st: Cursor, st1: Cursor, st2: Cursor)
    requires At(ts, st.pos, LBracket) && Step(st) == Good(st1) && Parse(OR, ts, st1) == Good((index, st2))
    requires IndexKey(index) == key && At(ts, st2.pos, RBracket)
    ensures ParseKeys(ts, keys, st) == ParseKeys(ts, keys + [key], Skip(st2))
  {
    hide Parse, Advanced, AdvancedOrNot, HonestError;
  }

  lemma IndexParts(key: Key)
    requires !Dotted(key) && WfKey(key)
    ensures var index := if key.Fixed? then Lit(key.lit) else key.index;
            && PrintKey(key) == ([LBracket] + Print(index, OR)) + [RBracket] && KeyDepth(key) == Depth(index, OR)
            && Wf(index) && IndexKey(index) == key
            && (key.Fixed? ==> Print(index, OR) == [LiteralToken(key.lit)] && KeyDepth(key) == 1)
  {
  }

  lemma {:induction false} ReadsIndex(n: Node, k: nat, ts: seq<Token>, st: Cursor) returns (st': Cursor)
    requires n.Property? && k < |n.keys| && WfKey(n.keys[k]) && !Dotted(n.keys[k])
    requires Here(ts, st.pos, PrintKey(n.keys[k]))
    requires st.depth + KeyDepth(n.keys[k]) <= MAX_RECURSION
    requires st.ops + |PrintKey(n.keys[k])| <= MAX_OPERATIONS
    ensures var index := if n.keys[k].Fixed? then Lit(n.keys[k].lit) else n.keys[k].index;
            && At(ts, st.pos, LBracket)
            && Parse(OR, ts, Cursor(st.pos + 1, st.ops + 1, st.depth)) == Good((index, st'))
            && IndexKey(index) == n.keys[k]
    ensures At(ts, st'.pos, RBracket)
    ensures st'.pos + 1 == st.pos + |PrintKey(n.keys[k])| && st'.depth == st.depth && st'.ops <= st.ops + |PrintKey(n.keys[k])|
    decreases n, 0, 0, 0
  {
    hide Print, Depth, Here, Wf, PrintKey, KeyDepth, Ends, WfKey, Parse, ParsePrimary, ParseChain, ParseCompared, ParseArgs, ParseMoreArgs, ParseKeys, Advanced, AdvancedOrNot, HonestError;
    var key := n.keys[k];
    var index := if key.Fixed? then Lit(key.lit) else key.index;
    var p := Print(index, OR);
    IndexParts(key);
    HereSplit(ts, st.pos, [LBracket] + p, [RBracket]);
    HereSplit(ts, st.pos, [LBracket], p);
    HereOne(ts, st.pos, LBracket);
    HereOne(ts, st.pos + 1 + |p|, RBracket);
    EndsAt(OR, ts, st.pos + 1 + |p|);
    var st1 := Cursor(st.pos + 1, st.ops + 1, st.depth);
    if key.Fixed? {
      HereOne(ts, st1.pos, LiteralToken(key.lit));
      ReadsLiteral(key.lit, OR, ts, st1);
      st' := Skip(st1);
    } else {
      st' := Reads(index, OR, ts, st1);
    }
  }

  lemma {:induction false} ReadsCall(n: Node, ts: seq<Token>, st: Cursor) returns (st': Cursor)
    requires n.Call? && Fits(n, PRIMARY, ts, st)
    ensures ParsePrimary(ts, st) == Good((n, st'))
    ensures st'.pos == st.pos + |Print(n, PRIMARY)| && st'.depth == st.depth && st'.ops <= st.ops + |Print(n, PRIMARY)|
    decreases n, 0, 1, 0
  {
    hide Print, Depth, Here, Wf, Bare, BareDepth, PrintArgs, ArgsDepth, Parse, ParsePrimary, ParseChain, ParseCompared, ParseArgs, ParseMoreArgs, ParseKeys, Advanced, AdvancedOrNot, HonestError;
    var args := PrintArgs(n.args, 0);
    CallParts(n);
    HereSplit(ts, st.pos, [Ident(n.name)], [LParen] + (args + [RParen]));
    HereSplit(ts, st.pos + 1, [LParen], args + [RParen]);
    HereSplit(ts, st.pos + 2, args, [RParen]);
    HereOne(ts, st.pos, Ident(n.name));
    HereOne(ts, st.pos + 1, LParen);
    HereOne(ts, st.pos + 2 + |args|, RParen);
    var st1 := Cursor(st.pos + 2, st.ops, st.depth + 1);
    var st2 := ReadsArgs(n, ts, st1);
    CallTurn(ts, st, n.name, n.args, st2);
    st' := Skip(st2).(depth := st.depth);
  }

  lemma {:induction false} ReadsArgs(n: Node, ts: seq<Token>, st: Cursor) returns (st': Cursor)
    requires n.Call? && Wf(n) && Here(ts, st.pos, PrintArgs(n.args, 0)) && At(ts, st.pos + |PrintArgs(n.args, 0)|, RParen)
    requires st.depth + ArgsDepth(n.args, 0) <= MAX_RECURSION
    requires st.ops + |PrintArgs(n.args, 0)| <= MAX_OPERATIONS
    ensures ParseArgs(ts, st) == Good((n.args, st'))
    ensures st'.pos == st.pos + |PrintArgs(n.args, 0)| && st'.depth == st.depth && st'.ops <= st.ops + |PrintArgs(n.args, 0)|
    decreases n, 0, 0, |n.args| + 1
  {
    hide Print, Depth, Here, Wf, ArgsDepth, PrintArgs, Ends, Parse, ParsePrimary, ParseChain, ParseCompared, ParseArgs, ParseMoreArgs, ParseKeys, Advanced, AdvancedOrNot, HonestError;
    if |n.args| == 0 {
      NoArgsLeft(n.args);
      NoArgs(ts, st);
      st' := st;
    } else {
      var arg, more := Print(n.args[0], OR), PrintArgs(n.args, 1);
      ArgsParts(n);
      HereSplit(ts, st.pos, arg, more);
      AfterArg(n.args, 1, ts, st.pos + |arg|);
      NotClosing(n.args[0], OR);
      HereFirst(ts, st.pos, arg);
      var st1 := Reads(n.args[0], OR, ts, st);
      FirstArg(ts, st, n.args[0], st1);
      assert [n.args[0]] == n.args[..1];
      st' := ReadsMoreArgs(n, 1, ts, st1);
    }
  }

  lemma NoArgsLeft(args: seq<Node>)
    ensures |PrintArgs(args, |args|)| == 0
  {
  }

  lemma ArgsParts(n: Node)
    requires n.Call? && Wf(n) && |n.args| > 0
    ensures PrintArgs(n.args, 0) == Print(n.args[0], OR) + PrintArgs(n.args, 1) && Wf(n.args[0])
    ensures Depth(n.args[0], OR) <= ArgsDepth(n.args, 0) && ArgsDepth(n.args, 1) <= ArgsDepth(n.args, 0)
  {
  }

  lemma {:induction false} NotClosing(n: Node, l: nat)
    ensures |Print(n, l)| > 0 && Print(n, l)[0] != RParen
    decreases n
  {
    if Level(n) >= l {
      match n
      case Logical(isOr, a, _) => NotClosing(a, if isOr then OR else AND);
      case Binary(op, a, _) => NotClosing(a, if OpLevel(op) == CMP then ADD else OpLevel(op));
      case _ =>
    }
  }

  /** After an argument comes a comma or the closing parenthesis. */
  lemma AfterArg(args: seq<Node>, k: nat, ts: seq<Token>, pos: nat)
    requires 1 <= k <= |args| && Here(ts, pos, PrintArgs(args, k)) && At(ts, pos + |PrintArgs(args, k)|, RParen)
    ensures pos < |ts| && Ends(OR, ts, pos) && (ts[pos] == Comma <==> k < |args|)
  {
    if k < |args| {
      assert PrintArgs(args, k) == [Comma] + (Print(args[k], OR) + PrintArgs(args, k + 1));
      HereSplit(ts, pos, [Comma], Print(args[k], OR) + PrintArgs(args, k + 1));
      HereOne(ts, pos, Comma);
    }
    EndsAt(OR, ts, pos);
  }

  lemma MoreArgsParts(n: Node, k: nat)
    requires n.Call? && Wf(n) && 1 <= k < |n.args|
    ensures PrintArgs(n.args, k) == [Comma] + (Print(n.args[k], OR) + PrintArgs(n.args, k + 1))
    ensures Depth(n.args[k], OR) <= ArgsDepth(n.args, k) && ArgsDepth(n.args, k + 1) <= ArgsDepth(n.args, k)
    ensures Wf(n.args[k]) && n.args[..k] + [n.args[k]] == n.args[..k + 1]
  {
    assert [Comma] + Print(n.args[k], OR) + PrintArgs(n.args, k + 1) == [Comma] + (Print(n.args[k], OR) + PrintArgs(n.args, k + 1));
  }

  lemma ArgsTurn(ts: seq<Token>, args: seq<Node>, arg: Node, st: Cursor, st1: Cursor)
    requires At(ts, st.pos, Comma) && Parse(OR, ts, Skip(st)) == Good((arg, st1))
    ensures ParseMoreArgs(ts, args, st) == ParseMoreArgs(ts, args + [arg], st1)
  {
    hide Parse, Advanced, AdvancedOrNot, HonestError;
  }

  lemma {:induction false} ReadsMoreArgs(n: Node, k: nat, ts: seq<Token>, st: Cursor) returns (st': Cursor)
    requires n.Call? && Wf(n) && 1 <= k <= |n.args|
    requires Here(ts, st.pos, PrintArgs(n.args, k)) && At(ts, st.pos + |PrintArgs(n.args, k)|, RParen)
    requires st.depth + ArgsDepth(n.args, k) <= MAX_RECURSION
    requires st.ops + |PrintArgs(n.args, k)| <= MAX_OPERATIONS
    ensures ParseMoreArgs(ts, n.args[..k], st) == Good((n.args, st'))
    ensures st'.pos == st.pos + |PrintArgs(n.args, k)| && st'.depth == st.depth && st'.ops <= st.ops + |PrintArgs(n.args, k)|
    decreases n, 0, 0, |n.args| - k
  {
    hide Print, Depth, Here, Wf, ArgsDepth, PrintArgs, Ends, Parse, ParsePrimary, ParseChain, ParseCompared, ParseArgs, ParseMoreArgs, ParseKeys, Advanced, AdvancedOrNot, HonestError;
    AfterArg(n.args, k, ts, st.pos);
    if k == |n.args| {
      st' := st;
      ArgsStop(ts, n.args, st);
    } else {
      MoreArgsParts(n, k);
      var arg, more := Print(n.args[k], OR), PrintArgs(n.args, k + 1);
      CommaSplit(ts, st.pos, arg, more);
      AfterArg(n.args, k + 1, ts, st.pos + 1 + |arg|);
      var st1 := Reads(n.args[k], OR, ts, Skip(st));
      ArgsTurn(ts, n.args[..k], n.args[k], st, st1);
      st' := ReadsMoreArgs(n, k + 1, ts, st1);
    }
  }

  lemma ArgsStop(ts: seq<Token>, args: seq<Node>, st: Cursor)
    requires !At(ts, st.pos, Comma)
    ensures ParseMoreArgs(ts, args[..|args|], st) == Good((args, st))
    ensures |PrintArgs(args, |args|)| == 0
  {
    hide Parse, Advanced, AdvancedOrNot, HonestError;
    assert args[..|args|] == args;
  }

  lemma CommaSplit(ts: seq<Token>, pos: nat, arg: seq<Token>, more: seq<Token>)
    requires Here(ts, pos, [Comma] + (arg + more))
    ensures At(ts, pos, Comma) && Here(ts, pos + 1, arg) && Here(ts, pos + 1 + |arg|, more)
  {
    HereSplit(ts, pos, [Comma], arg + more);
    HereSplit(ts, pos + 1, arg, more);
    HereOne(ts, pos, Comma);
  }

  /** The whole token list of a print parses to the tree it was printed from. */
  lemma PrintThenParse(n: Node)
    requires Wf(n) && Depth(n, OR) <= MAX_RECURSION && |Print(n, OR)| <= MAX_OPERATIONS
    ensures ParseTokens(Print(n, OR)) == Good(n)
  {
    var ts := Print(n, OR);
    assert ts[0..|ts|] == ts;
    var st := Reads(n, OR, ts, START);
  }
}
