/** The recursive-descent parser with its operation and depth counters. */
module ExpressionParser {
  import opened Syntax

  /** The parser's mutable fields. */
  datatype Cursor = Cursor(pos: nat, ops: nat, depth: nat)

  // The grammar levels, loosest first. OR, AND, ADD and MUL are left-associative chains.
  const OR := 0
  const AND := 1
  const NOT := 2
  const CMP := 3
  const ADD := 4
  const MUL := 5
  const UNARY := 6
  const PRIMARY := 7

  predicate IsChain(l: nat) {
    l == OR || l == AND || l == ADD || l == MUL
  }

  function OpLevel(op: BinOp): nat {
    match op
    case AddOp => ADD
    case SubOp => ADD
    case MulOp => MUL
    case DivOp => MUL
    case ModOp => MUL
    case _ => CMP
  }

  /** The level whose chain or comparison the token continues. */
  predicate Continues(l: nat, t: Token) {
    match t
    case OrTok => l == OR
    case AndTok => l == AND
    case OpTok(op) => l == OpLevel(op)
    case Dot => l == PRIMARY
    case LBracket => l == PRIMARY
    case LParen => l == PRIMARY
    case _ => false
  }

  predicate At(ts: seq<Token>, pos: nat, t: Token) {
    pos < |ts| && ts[pos] == t
  }

  predicate AtChain(ts: seq<Token>, pos: nat, l: nat) {
    pos < |ts| && Continues(l, ts[pos])
  }

  function Join(t: Token, left: Node, right: Node): Node
    requires t.OrTok? || t.AndTok? || t.OpTok?
  {
    match t
    case OrTok => Logical(true, left, right)
    case AndTok => Logical(false, left, right)
    case OpTok(op) => Binary(op, left, right)
  }

  function TokenLiteral(t: Token): Literal
    requires t.NumTok? || t.StrTok? || t.BoolTok? || t.NullTok?
  {
    match t
    case NumTok(text) => NumLit(text)
    case StrTok(v) => StrLit(v)
    case BoolTok(b) => BoolLit(b)
    case NullTok => NullLit
  }

  /** `countOp` and `next` together: every counted operation consumes the token it is counted for. */
  function Step(st: Cursor): Parsed<Cursor> {
    if st.ops + 1 > MAX_OPERATIONS then Bad(ParserOpLimit) else Good(Cursor(st.pos + 1, st.ops + 1, st.depth))
  }

  function Skip(st: Cursor): Cursor {
    st.(pos := st.pos + 1)
  }

  /** A routine that returned: depth restored, a token consumed, no more operations than tokens. */
  ghost predicate Advanced(ts: seq<Token>, st: Cursor, st': Cursor) {
    && st.pos < st'.pos <= |ts|
    && st'.depth == st.depth
    && st.ops <= st'.ops <= st.ops + (st'.pos - st.pos)
  }

  ghost predicate AdvancedOrNot(ts: seq<Token>, st: Cursor, st': Cursor) {
    st' == st || Advanced(ts, st, st')
  }

  /** An error that leaves the operation counter within the tokens read so far is never the operation limit. */
  ghost predicate HonestError<T>(ts: seq<Token>, st: Cursor, r: Parsed<T>) {
    st.ops <= st.pos && |ts| <= MAX_OPERATIONS ==> r != Bad(ParserOpLimit)
  }

  function Parse(l: nat, ts: seq<Token>, st: Cursor): (r: Parsed<(Node, Cursor)>)
    requires l <= PRIMARY
    ensures r.Good? ==> Advanced(ts, st, r.value.1)
    ensures HonestError(ts, st, r)
    decreases if st.pos <= |ts| then |ts| - st.pos else 0, 10 - l
  {
    if l == PRIMARY then ParsePrimary(ts, st)
    else if l == NOT || l == UNARY then
      if At(ts, st.pos, if l == NOT then NotTok else OpTok(SubOp)) then
        match Step(st)
        case Bad(e) => Bad(e)
        case Good(st1) =>
          match Parse(l, ts, st1)
          case Bad(e) => Bad(e)
          case Good((operand, st2)) => Good((if l == NOT then Not(operand) else Negate(operand), st2))
      else Parse(l + 1, ts, st)
    else
      match Parse(l + 1, ts, st)
      case Bad(e) => Bad(e)
      case Good((left, st1)) => if l == CMP then ParseCompared(ts, left, st1) else ParseChain(l, ts, left, st1)
  }

  /** At most one comparison: it does not associate. */
  function ParseCompared(ts: seq<Token>, left: Node, st: Cursor): (r: Parsed<(Node, Cursor)>)
    ensures r.Good? ==> AdvancedOrNot(ts, st, r.value.1)
    ensures HonestError(ts, st, r)
    decreases if st.pos <= |ts| then |ts| - st.pos else 0, 1
  {
    if !AtChain(ts, st.pos, CMP) then Good((left, st)) else
    match Step(st)
    case Bad(e) => Bad(e)
    case Good(st1) =>
      match Parse(ADD, ts, st1)
      case Bad(e) => Bad(e)
      case Good((right, st2)) => Good((Join(ts[st.pos], left, right), st2))
  }

  function ParseChain(l: nat, ts: seq<Token>, left: Node, st: Cursor): (r: Parsed<(Node, Cursor)>)
    requires IsChain(l)
    ensures r.Good? ==> AdvancedOrNot(ts, st, r.value.1)
    ensures HonestError(ts, st, r)
    decreases if st.pos <= |ts| then |ts| - st.pos else 0, 1
  {
    if !AtChain(ts, st.pos, l) then Good((left, st)) else
    match Step(st)
    case Bad(e) => Bad(e)
    case Good(st1) =>
      match Parse(l + 1, ts, st1)
      case Bad(e) => Bad(e)
      case Good((right, st2)) => ParseChain(l, ts, Join(ts[st.pos], left, right), st2)
  }

  function Consume(ts: seq<Token>, st: Cursor, t: Token): Parsed<Cursor> {
    if At(ts, st.pos, t) then Good(Skip(st)) else Bad(Unparseable)
  }

  function ParsePrimary(ts: seq<Token>, st: Cursor): (r: Parsed<(Node, Cursor)>)
    ensures r.Good? ==> Advanced(ts, st, r.value.1)
    ensures HonestError(ts, st, r)
    decreases if st.pos <= |ts| then |ts| - st.pos else 0, 1
  {
    if st.depth + 1 > MAX_RECURSION then Bad(ParserDepthLimit)
    else if st.pos >= |ts| then Bad(Unparseable)
    else
      var st1 := Cursor(st.pos + 1, st.ops, st.depth + 1);
      match ts[st.pos]
      case NumTok(_) => Good((Lit(TokenLiteral(ts[st.pos])), Skip(st)))
      case StrTok(_) => Good((Lit(TokenLiteral(ts[st.pos])), Skip(st)))
      case BoolTok(_) => Good((Lit(TokenLiteral(ts[st.pos])), Skip(st)))
      case NullTok => Good((Lit(TokenLiteral(ts[st.pos])), Skip(st)))
      case LParen =>
        (match Parse(OR, ts, st1)
         case Bad(e) => Bad(e)
         case Good((node, st2)) =>
           match Consume(ts, st2, RParen)
           case Bad(e) => Bad(e)
           case Good(st3) => Good((node, st3.(depth := st.depth))))
      case Ident(name) =>
        if At(ts, st1.pos, LParen) then
          match ParseArgs(ts, Skip(st1))
          case Bad(e) => Bad(e)
          case Good((args, st2)) =>
            match Consume(ts, st2, RParen)
            case Bad(e) => Bad(e)
            case Good(st3) => Good((Call(name, args), st3.(depth := st.depth)))
        else
          (match ParseKeys(ts, [], st1)
           case Bad(e) => Bad(e)
           case Good((keys, st2)) => Good((Property(name, keys), st2.(depth := st.depth))))
      case _ => Bad(Unparseable)
  }

  function ParseArgs(ts: seq<Token>, st: Cursor): (r: Parsed<(seq<Node>, Cursor)>)
    ensures r.Good? ==> AdvancedOrNot(ts, st, r.value.1)
    ensures HonestError(ts, st, r)
    decreases if st.pos <= |ts| then |ts| - st.pos else 0, 20
  {
    if At(ts, st.pos, RParen) then Good(([], st)) else
    match Parse(OR, ts, st)
    case Bad(e) => Bad(e)
    case Good((arg, st1)) => ParseMoreArgs(ts, [arg], st1)
  }

  function ParseMoreArgs(ts: seq<Token>, args: seq<Node>, st: Cursor): (r: Parsed<(seq<Node>, Cursor)>)
    ensures r.Good? ==> AdvancedOrNot(ts, st, r.value.1)
    ensures HonestError(ts, st, r)
    decreases if st.pos <= |ts| then |ts| - st.pos else 0, 1
  {
    if !At(ts, st.pos, Comma) then Good((args, st)) else
    match Parse(OR, ts, Skip(st))
    case Bad(e) => Bad(e)
    case Good((arg, st1)) => ParseMoreArgs(ts, args + [arg], st1)
  }

  /** A literal index is stored as its value, any other as an expression. */
  function IndexKey(n: Node): Key {
    if n.Lit? then Fixed(n.lit) else Dynamic(n)
  }

  function ParseKeys(ts: seq<Token>, keys: seq<Key>, st: Cursor): (r: Parsed<(seq<Key>, Cursor)>)
    ensures r.Good? ==> AdvancedOrNot(ts, st, r.value.1)
    ensures HonestError(ts, st, r)
    decreases if st.pos <= |ts| then |ts| - st.pos else 0, 1
  {
    if !At(ts, st.pos, Dot) && !At(ts, st.pos, LBracket) then Good((keys, st)) else
    match Step(st)
    case Bad(e) => Bad(e)
    case Good(st1) =>
      if At(ts, st.pos, Dot) then
        if st1.pos >= |ts| || !ts[st1.pos].Ident? then Bad(Unparseable)
        else if ts[st1.pos].name in FORBIDDEN_PROPS then Bad(ForbiddenProperty)
        else ParseKeys(ts, keys + [Fixed(StrLit(ts[st1.pos].name))], Skip(st1))
      else
        match Parse(OR, ts, st1)
        case Bad(e) => Bad(e)
        case Good((index, st2)) =>
          match Consume(ts, st2, RBracket)
          case Bad(e) => Bad(e)
          case Good(st3) => ParseKeys(ts, keys + [IndexKey(index)], st3)
  }

  const START := Cursor(0, 0, 0)

  /** `Parser.parse`: all tokens must be used. */
  function ParseTokens(ts: seq<Token>): (r: Parsed<Node>)
    ensures |ts| <= MAX_OPERATIONS ==> r != Bad(ParserOpLimit)
  {
    match Parse(OR, ts, START)
    case Bad(e) => Bad(e)
    case Good((node, st)) => if st.pos < |ts| then Bad(Unparseable) else Good(node)
  }
}
