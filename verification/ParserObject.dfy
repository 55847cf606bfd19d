/** The parser as the engine runs it: an object with a position and two counters. */
module ParserObject {
  import opened Syntax
  import opened ExpressionParser

  class Parser {
    const tokens: seq<Token>
    var pos: nat
    var ops: nat
    var depth: nat

    constructor (tokens: seq<Token>)
      ensures this.tokens == tokens && State() == START
    {
      this.tokens := tokens;
      pos, ops, depth := 0, 0, 0;
    }

    function State(): Cursor
      reads this
    {
      Cursor(pos, ops, depth)
    }

    /** What a routine returns and leaves behind, as the specification says. */
    ghost predicate Meets(r: Parsed<Node>, spec: Parsed<(Node, Cursor)>)
      reads this
    {
      match spec
      case Good((node, st)) => r == Good(node) && State() == st
      case Bad(e) => r == Bad(e)
    }

    function Left(): nat
      reads this
    {
      if pos <= |tokens| then |tokens| - pos else 0
    }

    /** `countOp` followed by `next`. */
    method CountOpAndNext() returns (r: Parsed<Token>)
      requires pos < |tokens|
      modifies this
      ensures match Step(old(State()))
              case Bad(e) => r == Bad(e)
              case Good(st) => r == Good(tokens[old(pos)]) && State() == st
    {
      ops := ops + 1;
      if ops > MAX_OPERATIONS {
        return Bad(ParserOpLimit);
      }
      r := Good(tokens[pos]);
      pos := pos + 1;
    }

    method Parse() returns (r: Parsed<Node>)
      requires State() == START
      modifies this
      ensures r == ParseTokens(tokens)
    {
      r := ParseLeftChain(OR);
      if r.Good? && pos < |tokens| {
        r := Bad(Unparseable);
      }
    }

    /** `parseOr`, `parseAnd`, `parseAdditive` and `parseMultiplicative`. */
    method ParseLeftChain(l: nat) returns (r: Parsed<Node>)
      requires IsChain(l)
      modifies this
      ensures Meets(r, ExpressionParser.Parse(l, tokens, old(State())))
      decreases Left(), 10 - l, 0
    {
      r := ParseLevel(l + 1);
      if r.Bad? {
        return;
      }
      var left := r.value;
      while AtChain(tokens, pos, l)
        invariant old(pos) < pos <= |tokens|
        invariant ExpressionParser.Parse(l, tokens, old(State())) == ParseChain(l, tokens, left, State())
        decreases |tokens| - pos
      {
        var tok := CountOpAndNext();
        if tok.Bad? {
          return Bad(tok.error);
        }
        var right := ParseLevel(l + 1);
        if right.Bad? {
          return right;
        }
        left := Join(tok.value, left, right.value);
      }
      r := Good(left);
    }

    method ParseLevel(l: nat) returns (r: Parsed<Node>)
      requires l <= PRIMARY
      modifies this
      ensures Meets(r, ExpressionParser.Parse(l, tokens, old(State())))
      decreases Left(), 10 - l, 1
    {
      if IsChain(l) {
        r := ParseLeftChain(l);
      } else if l == CMP {
        r := ParseComparison();
      } else if l == PRIMARY {
        r := ParsePrimary();
      } else {
        r := ParsePrefix(l);
      }
    }

    /** `parseNot` and `parseUnary`. */
    method ParsePrefix(l: nat) returns (r: Parsed<Node>)
      requires l == NOT || l == UNARY
      modifies this
      ensures Meets(r, ExpressionParser.Parse(l, tokens, old(State())))
      decreases Left(), 10 - l, 0
    {
      if At(tokens, pos, if l == NOT then NotTok else OpTok(SubOp)) {
        var tok := CountOpAndNext();
        if tok.Bad? {
          return Bad(tok.error);
        }
        var operand := ParsePrefix(l);
        if operand.Bad? {
          return operand;
        }
        return Good(if l == NOT then Not(operand.value) else Negate(operand.value));
      }
      r := ParseLevel(l + 1);
    }

    method ParseComparison() returns (r: Parsed<Node>)
      modifies this
      ensures Meets(r, ExpressionParser.Parse(CMP, tokens, old(State())))
      decreases Left(), 10 - CMP, 0
    {
      r := ParseLevel(ADD);
      if r.Bad? {
        return;
      }
      if AtChain(tokens, pos, CMP) {
        var left := r.value;
        var tok := CountOpAndNext();
        if tok.Bad? {
          return Bad(tok.error);
        }
        var right := ParseLevel(ADD);
        if right.Bad? {
          return right;
        }
        r := Good(Join(tok.value, left, right.value));
      }
    }

    method ParsePrimary() returns (r: Parsed<Node>)
      modifies this
      ensures Meets(r, ExpressionParser.ParsePrimary(tokens, old(State())))
      decreases Left(), 10 - PRIMARY, 0
    {
      hide ExpressionParser.Parse, ParseKeys, ParseArgs, HonestError;
      depth := depth + 1;
      if depth > MAX_RECURSION {
        return Bad(ParserDepthLimit);
      }
      if pos >= |tokens| {
        return Bad(Unparseable);
      }
      var tok := tokens[pos];
      if tok.NumTok? || tok.StrTok? || tok.BoolTok? || tok.NullTok? {
        pos := pos + 1;
        depth := depth - 1;
        return Good(Lit(TokenLiteral(tok)));
      }
      if tok.LParen? {
        pos := pos + 1;
        r := ParseLeftChain(OR);
        if r.Bad? {
          return;
        }
        if !At(tokens, pos, RParen) {
          return Bad(Unparseable);
        }
        pos := pos + 1;
        depth := depth - 1;
        return;
      }
      if tok.Ident? {
        pos := pos + 1;
        if At(tokens, pos, LParen) {
          pos := pos + 1;
          r := ParseCall(tok.name);
        } else {
          r := ParsePath(tok.name);
        }
        if r.Good? {
          depth := depth - 1;
        }
        return;
      }
      r := Bad(Unparseable);
    }

    /** The argument list of a call, after its opening parenthesis, and the closing one. */
    method ParseCall(name: string) returns (r: Parsed<Node>)
      modifies this
      ensures match ParseArgs(tokens, old(State()))
              case Bad(e) => r == Bad(e)
              case Good((args, st)) =>
                if At(tokens, st.pos, RParen) then r == Good(Call(name, args)) && State() == Skip(st) else r == Bad(Unparseable)
      decreases Left(), 20, 0
    {
      var args := [];
      if !At(tokens, pos, RParen) {
        var arg := ParseLeftChain(OR);
        if arg.Bad? {
          return arg;
        }
        args := [arg.value];
        while At(tokens, pos, Comma)
          invariant old(pos) < pos <= |tokens|
          invariant ParseArgs(tokens, old(State())) == ParseMoreArgs(tokens, args, State())
          decreases |tokens| - pos
        {
          pos := pos + 1;
          arg := ParseLeftChain(OR);
          if arg.Bad? {
            return arg;
          }
          args := args + [arg.value];
        }
      }
      if !At(tokens, pos, RParen) {
        return Bad(Unparseable);
      }
      pos := pos + 1;
      r := Good(Call(name, args));
    }

    /** The chain of `.name` and `[index]` after an identifier. */
    method ParsePath(name: string) returns (r: Parsed<Node>)
      requires pos <= |tokens|
      modifies this
      ensures match ParseKeys(tokens, [], old(State()))
              case Bad(e) => r == Bad(e)
              case Good((keys, st)) => r == Good(Property(name, keys)) && State() == st
      decreases Left(), 20, 0
    {
      var keys := [];
      while At(tokens, pos, Dot) || At(tokens, pos, LBracket)
        invariant old(pos) <= pos <= |tokens|
        invariant ParseKeys(tokens, [], old(State())) == ParseKeys(tokens, keys, State())
        decreases |tokens| - pos
      {
        var tok := CountOpAndNext();
        if tok.Bad? {
          return Bad(tok.error);
        }
        if tok.value == Dot {
          if pos >= |tokens| || !tokens[pos].Ident? {
            return Bad(Unparseable);
          }
          if tokens[pos].name in FORBIDDEN_PROPS {
            return Bad(ForbiddenProperty);
          }
          keys := keys + [Fixed(StrLit(tokens[pos].name))];
          pos := pos + 1;
        } else {
          var index := ParseLeftChain(OR);
          if index.Bad? {
            return index;
          }
          if !At(tokens, pos, RBracket) {
            return Bad(Unparseable);
          }
          pos := pos + 1;
          keys := keys + [IndexKey(index.value)];
        }
      }
      r := Good(Property(name, keys));
    }
  }
}
