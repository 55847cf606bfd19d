/** `evaluate` and the 10,000-operation budget that makes it terminate. */
module Evaluator {
  import opened Values
  import opened Prelude
  import opened Syntax
  import opened Equality
  import Lexer
  import Utf16

  /** What the model takes as given: number formats, rounded arithmetic, and the built-ins that evaluate nothing. */
  datatype Builtins = Builtins(
    parseFloat: string -> Number,
    parseInt: string -> Option<int>,
    keyText: Value -> string,
    arith: (BinOp, Number, Number) -> Number,
    call: (string, seq<Value>) -> Result<Value>)

  /** The evaluation context; `secrets` is asked with the key, or with nothing for a dynamic one. */
  datatype Context = Context(
    inputs: Value, steps: Value, loop: Option<Value>, trigger: Value, secrets: Option<Value> -> Value, appUrl: Value, run: Value,
    item: Value, index: Value)

  /** Operations counted so far, and how many of them were entries to `evaluate`. */
  datatype Meter = Meter(ops: nat, entries: nat)

  const START := Meter(0, 0)

  /** `OutOfOps` is the evaluator's own operation limit; every other error is a `Fault`. */
  datatype Answer<+T> = Got(value: T) | Fault(code: string) | OutOfOps

  /** The meter only grows, every entry is an operation, and one operation past the limit is the last. */
  ghost predicate Metered<T>(limit: nat, m: Meter, r: (Answer<T>, Meter)) {
    && m.ops <= r.1.ops && m.entries <= r.1.entries && r.1.entries - m.entries <= r.1.ops - m.ops
    && (r.0.OutOfOps? ==> r.1.ops == limit + 1)
    && (!r.0.OutOfOps? && m.ops <= limit ==> r.1.ops <= limit)
  }

  function Fuel(limit: nat, m: Meter): nat {
    if m.ops <= limit then limit + 1 - m.ops else 0
  }

  function Enter(m: Meter): Meter {
    Meter(m.ops + 1, m.entries + 1)
  }

  function Hop(m: Meter): Meter {
    m.(ops := m.ops + 1)
  }

  function ErrorCode(e: ExprError): string {
    match e
    case Unparseable => "unparseable_expression"
    case TooLong => "expression_too_long"
    case ForbiddenProperty => "forbidden_property_access"
    case _ => "operation_limit_exceeded"
  }

  // --- Values and operators -----------------------------------------------------------------

  function LiteralValue(b: Builtins, lit: Literal): Value {
    match lit
    case NumLit(text) => Num(b.parseFloat(text))
    case StrLit(s) => Str(s)
    case BoolLit(t) => Bool(t)
    case NullLit => Null
  }

  /** `toNumber` and `toNumberStrict`, which differ only in how they report failure. */
  function ToNumber(b: Builtins, v: Value): Option<Number> {
    match v
    case Num(n) => Some(n)
    case Bool(t) => Some(FromBool(t))
    case Null => Some(Finite(0.0))
    case Str(s) => if b.parseFloat(s) == NaN then None else Some(b.parseFloat(s))
    case _ => None
  }

  predicate NumberLess(a: Number, b: Number) {
    match (a, b)
    case (Finite(x), Finite(y)) => x < y
    case (Infinite(neg), Finite(_)) => neg
    case (Finite(_), Infinite(neg)) => !neg
    case (Infinite(neg), Infinite(neg')) => neg && !neg'
    case _ => false
  }

  /** `<` on strings: by UTF-16 code units. */
  predicate StringLess(a: string, b: string) {
    Utf16.Less(Utf16.Units(a), Utf16.Units(b))
  }

  /** The four order comparisons from strict order and equality; NaN is on neither side of any. */
  predicate Ordered(op: BinOp, less: bool, equal: bool, greater: bool) {
    match op
    case LtOp => less
    case LteOp => less || equal
    case GtOp => greater
    case _ => greater || equal
  }

  function Compare(b: Builtins, op: BinOp, l: Value, r: Value): Result<Value> {
    if l.Str? && r.Str? then Ok(Bool(Ordered(op, StringLess(l.s, r.s), l.s == r.s, StringLess(r.s, l.s))))
    else if ToNumber(b, l).None? || ToNumber(b, r).None? then Err("type_mismatch")
    else
      var x, y := ToNumber(b, l).value, ToNumber(b, r).value;
      Ok(Bool(Ordered(op, NumberLess(x, y), SameNumber(x, y), NumberLess(y, x))))
  }

  function Arith(b: Builtins, op: BinOp, l: Value, r: Value): Result<Value> {
    if op.AddOp? && l.Str? && r.Str? then Ok(Str(l.s + r.s))
    else if op.AddOp? && ((l.Str? && r.Num?) || (l.Num? && r.Str?)) then Err("type_mismatch")
    else if ToNumber(b, l).None? || ToNumber(b, r).None? then Err("type_mismatch")
    else if (op.DivOp? || op.ModOp?) && ToNumber(b, r).value == Finite(0.0) then Err("type_mismatch")
    else Ok(Num(b.arith(op, ToNumber(b, l).value, ToNumber(b, r).value)))
  }

  function Apply(b: Builtins, op: BinOp, l: Value, r: Value): Result<Value> {
    match op
    case EqOp => Ok(Bool(IsEqual(b.parseFloat, l, r)))
    case NeqOp => Ok(Bool(!IsEqual(b.parseFloat, l, r)))
    case LtOp => Compare(b, op, l, r)
    case LteOp => Compare(b, op, l, r)
    case GtOp => Compare(b, op, l, r)
    case GteOp => Compare(b, op, l, r)
    case _ => Arith(b, op, l, r)
  }

  function Minus(b: Builtins, v: Value): Result<Value> {
    match ToNumber(b, v)
    case None => Err("type_mismatch")
    case Some(NaN) => Ok(Num(NaN))
    case Some(Infinite(neg)) => Ok(Num(Infinite(!neg)))
    case Some(Finite(x)) => Ok(Num(Finite(-x)))
  }

  function ItemAt(items: seq<Value>, i: int): Value {
    if 0 <= i < |items| then OrNull(items[i]) else Null
  }

  /** `getProperty` on own members. */
  function GetProperty(b: Builtins, obj: Value, key: Value): Result<Value> {
    if obj.Null? || obj.Undefined? then Ok(Null)
    else if key.Str? && key.s in FORBIDDEN_PROPS then Err("forbidden_property_access")
    else if obj.Arr? then
      match key
      case Num(Finite(x)) => Ok(if x.Floor as real == x then ItemAt(obj.items, x.Floor) else Null)
      case Str(s) => Ok(if b.parseInt(s).None? then Null else ItemAt(obj.items, b.parseInt(s).value))
      case _ => Ok(Null)
    else if obj.Obj? then
      var k := if key.Str? then key.s else b.keyText(key);
      Ok(if k in obj.fields then OrNull(obj.fields[k]) else Null)
    else Ok(Null)
  }

  /** What a root name stands for, and whether the rest of the path is walked from there. */
  datatype Root = Walk(from: Value) | Final(answer: Result<Value>)

  function ResolveRoot(b: Builtins, ctx: Context, root: string, keys: seq<Key>): Root {
    if root == "inputs" then Walk(ctx.inputs)
    else if root == "steps" then Walk(ctx.steps)
    else if root == "loop" then if ctx.loop.None? then Final(Ok(Null)) else Walk(ctx.loop.value)
    else if root == "trigger" then Walk(ctx.trigger)
    else if root == "secrets" then
      if |keys| == 0 then Walk(Null)
      else Final(Ok(ctx.secrets(if keys[0].Fixed? then Some(LiteralValue(b, keys[0].lit)) else None)))
    else if root == "env" then
      if |keys| == 0 then Walk(Obj(map["FF_APP_URL" := ctx.appUrl]))
      else if keys[0] == Fixed(StrLit("FF_APP_URL")) then Final(Ok(OrNull(ctx.appUrl)))
      else Final(Err("unknown_env_variable"))
    else if root == "run" then Walk(ctx.run)
    else if root == "item" then Walk(ctx.item)
    else if root == "index" then Walk(ctx.index)
    else if root == "now" then Final(Ok(Null))
    else Final(Err("unknown_variable"))
  }

  /** The context of one list element inside `filter` and `map`. */
  function ElementContext(ctx: Context, item: Value, i: nat): Context {
    ctx.(loop := None, item := item, index := Num(Finite(i as real)))
  }

  // --- The evaluator -------------------------------------------------------------------------

  function Lift<T>(r: Result<T>): Answer<T> {
    match r
    case Ok(v) => Got(v)
    case Err(code) => Fault(code)
  }

  /** An error, passed on to the caller. */
  function Pass<T, U>(a: Answer<T>): (r: Answer<U>)
    requires !a.Got?
    ensures !r.Got? && (r.OutOfOps? <==> a.OutOfOps?)
  {
    if a.OutOfOps? then OutOfOps else Fault(a.code)
  }

  function Eval(b: Builtins, limit: nat, node: Node, ctx: Context, m: Meter): (r: (Answer<Value>, Meter))
    requires m.ops <= limit
    ensures Metered(limit, m, r) && r.1.entries > m.entries
    decreases Fuel(limit, m), 0, 0
  {
    var m1 := Enter(m);
    if m1.ops > limit then (OutOfOps, m1) else
    match node
    case Lit(lit) => (Got(LiteralValue(b, lit)), m1)
    case Property(root, keys) => EvalProperty(b, limit, root, keys, ctx, m1)
    case Call(name, args) => EvalCall(b, limit, name, args, ctx, m1)
    case Logical(isOr, left, right) => EvalLogical(b, limit, isOr, left, right, ctx, m1)
    case Binary(op, left, right) => EvalBinary(b, limit, op, left, right, ctx, m1)
    case Not(operand) =>
      var (v, m2) := Eval(b, limit, operand, ctx, m1);
      if v.Got? then (Got(Bool(!IsTruthy(v.value))), m2) else (v, m2)
    case Negate(operand) =>
      var (v, m2) := Eval(b, limit, operand, ctx, m1);
      if v.Got? then (Lift(Minus(b, v.value)), m2) else (v, m2)
  }

  function EvalLogical(b: Builtins, limit: nat, isOr: bool, left: Node, right: Node, ctx: Context,
                       m: Meter): (r: (Answer<Value>, Meter))
    requires m.ops <= limit
    ensures Metered(limit, m, r)
    decreases Fuel(limit, m), 1, 0
  {
    var (l, m1) := Eval(b, limit, left, ctx, m);
    if !l.Got? then (l, m1)
    else if IsTruthy(l.value) == isOr then (Got(Bool(isOr)), m1)
    else
      var (v, m2) := Eval(b, limit, right, ctx, m1);
      if v.Got? then (Got(Bool(IsTruthy(v.value))), m2) else (v, m2)
  }

  function EvalBinary(b: Builtins, limit: nat, op: BinOp, left: Node, right: Node, ctx: Context,
                      m: Meter): (r: (Answer<Value>, Meter))
    requires m.ops <= limit
    ensures Metered(limit, m, r)
    decreases Fuel(limit, m), 1, 0
  {
    var (l, m1) := Eval(b, limit, left, ctx, m);
    if !l.Got? then (l, m1) else
    var (v, m2) := Eval(b, limit, right, ctx, m1);
    if v.Got? then (Lift(Apply(b, op, l.value, v.value)), m2) else (v, m2)
  }

  function EvalProperty(b: Builtins, limit: nat, root: string, keys: seq<Key>, ctx: Context,
                        m: Meter): (r: (Answer<Value>, Meter))
    requires m.ops <= limit
    ensures Metered(limit, m, r)
    decreases Fuel(limit, m), 2, 0
  {
    match ResolveRoot(b, ctx, root, keys)
    case Final(answer) => (Lift(answer), m)
    case Walk(from) => EvalPath(b, limit, keys, from, ctx, m)
  }

  /** The rest of a property path: one operation a key. */
  function EvalPath(b: Builtins, limit: nat, keys: seq<Key>, current: Value, ctx: Context, m: Meter): (r: (Answer<Value>, Meter))
    requires m.ops <= limit
    ensures Metered(limit, m, r)
    decreases Fuel(limit, m), 1, 0
  {
    if |keys| == 0 then (Got(current), m) else
    var m1 := Hop(m);
    if m1.ops > limit then (OutOfOps, m1) else
    var (key, m2) := if keys[0].Fixed? then (Got(LiteralValue(b, keys[0].lit)), m1) else Eval(b, limit, keys[0].index, ctx, m1);
    if !key.Got? then (key, m2) else
    match GetProperty(b, current, key.value)
    case Err(code) => (Fault(code), m2)
    case Ok(v) => EvalPath(b, limit, keys[1..], v, ctx, m2)
  }

  function EvalCall(b: Builtins, limit: nat, name: string, args: seq<Node>, ctx: Context, m: Meter): (r: (Answer<Value>, Meter))
    requires m.ops <= limit
    ensures Metered(limit, m, r)
    decreases Fuel(limit, m), 3, 0
  {
    var (vs, m1) := EvalArgs(b, limit, args, 0, ctx, m, []);
    if !vs.Got? then (Pass(vs), m1) else
    if name == "filter" || name == "map" then EvalList(b, limit, name == "filter", vs.value, ctx, m1)
    else (Lift(b.call(name, vs.value)), m1)
  }

  function EvalArgs(b: Builtins, limit: nat, args: seq<Node>, i: nat, ctx: Context, m: Meter,
                    acc: seq<Value>): (r: (Answer<seq<Value>>, Meter))
    requires m.ops <= limit
    ensures Metered(limit, m, r)
    decreases Fuel(limit, m), 1, |args| - i
  {
    if i >= |args| then (Got(acc), m) else
    var (v, m1) := Eval(b, limit, args[i], ctx, m);
    if !v.Got? then (Pass(v), m1) else EvalArgs(b, limit, args, i + 1, ctx, m1, acc + [v.value])
  }

  /** `filterList` and `mapList`: the second argument is parsed here, at run time. */
  function EvalList(b: Builtins, limit: nat, keep: bool, args: seq<Value>, ctx: Context, m: Meter): (r: (Answer<Value>, Meter))
    requires m.ops <= limit
    ensures Metered(limit, m, r)
    decreases Fuel(limit, m), 2, 0
  {
    if |args| != 2 then (Fault("type_mismatch"), m)
    else if args[0].Null? then (Got(Arr([])), m)
    else if !args[0].Arr? || !args[1].Str? then (Fault("type_mismatch"), m)
    else
      match Lexer.ParseExpression(args[1].s)
      case Bad(e) => (Fault(ErrorCode(e)), m)
      case Good(inner) => EvalItems(b, limit, keep, inner, args[0].items, 0, ctx, m, [])
  }

  function EvalItems(b: Builtins, limit: nat, keep: bool, inner: Node, items: seq<Value>, i: nat, ctx: Context, m: Meter,
                     acc: seq<Value>): (r: (Answer<Value>, Meter))
    requires m.ops <= limit
    ensures Metered(limit, m, r)
    decreases Fuel(limit, m), 1, |items| - i
  {
    if i >= |items| then (Got(Arr(acc)), m) else
    var (v, m1) := Eval(b, limit, inner, ElementContext(ctx, items[i], i), m);
    if !v.Got? then (v, m1)
    else EvalItems(b, limit, keep, inner, items, i + 1, ctx, m1, Collect(keep, acc, items[i], v.value))
  }

  /** `filter` keeps the item when the value is truthy; `map` keeps the value. */
  function Collect(keep: bool, acc: seq<Value>, item: Value, v: Value): seq<Value> {
    if !keep then acc + [v] else if IsTruthy(v) then acc + [item] else acc
  }

  /** A binary node: the left operand, the right one, then the operator. */
  lemma BinaryTurn(b: Builtins, limit: nat, op: BinOp, left: Node, right: Node, ctx: Context, m: Meter)
    requires m.ops <= limit
    ensures var (l, m1) := Eval(b, limit, left, ctx, m);
            EvalBinary(b, limit, op, left, right, ctx, m) ==
            if !l.Got? then (l, m1) else
            var (v, m2) := Eval(b, limit, right, ctx, m1);
            (if v.Got? then Lift(Apply(b, op, l.value, v.value)) else v, m2)
  {
    hide Eval, Apply, Lift;
  }

  /** `evaluateExpression`: every text ends, after at most 10,001 entries to `evaluate`. */
  function EvaluateExpression(b: Builtins, limit: nat, expr: string, ctx: Context): (r: (Answer<Value>, Meter))
    ensures r.1.entries <= limit + 1
    ensures r.0.OutOfOps? <==> r.1.ops == limit + 1
  {
    match Lexer.ParseExpression(expr)
    case Bad(e) => (Fault(ErrorCode(e)), START)
    case Good(node) => Eval(b, limit, node, ctx, START)
  }
}
