/** Tokens, syntax trees and errors of the expression language. */
module Syntax {
  datatype BinOp = EqOp | NeqOp | LtOp | LteOp | GtOp | GteOp | AddOp | SubOp | MulOp | DivOp | ModOp

  datatype Token =
    | NumTok(text: string)
    | StrTok(value: string)
    | BoolTok(b: bool)
    | NullTok
    | Ident(name: string)
    | Dot | LBracket | RBracket | LParen | RParen | Comma
    | OpTok(op: BinOp)
    | OrTok | AndTok | NotTok

  /** A numeral is kept as written. */
  datatype Literal = NumLit(text: string) | StrLit(value: string) | BoolLit(b: bool) | NullLit

  datatype Node =
    | Lit(lit: Literal)
    | Property(root: string, keys: seq<Key>)
    | Binary(op: BinOp, left: Node, right: Node)
    | Negate(operand: Node)
    | Call(name: string, args: seq<Node>)
    | Logical(isOr: bool, left: Node, right: Node)
    | Not(operand: Node)

  /** A step of a property path: a literal key, or an expression evaluated at run time. */
  datatype Key = Fixed(lit: Literal) | Dynamic(index: Node)

  datatype ExprError =
    | Unparseable
    | TooLong
    | ForbiddenProperty
    | ParserOpLimit
    | ParserDepthLimit

  datatype Parsed<+T> = Good(value: T) | Bad(error: ExprError)

  const MAX_EXPRESSION_LENGTH := 500
  const MAX_OPERATIONS := 10_000
  const MAX_RECURSION := 50
  const FORBIDDEN_PROPS := {"__proto__", "constructor", "prototype"}
}
