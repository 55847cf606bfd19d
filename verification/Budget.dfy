/** The operation budget only ever cuts an evaluation off: it never changes what one returns. */
module Budget {
  import opened Prelude
  import opened Values
  import opened Syntax
  import opened Evaluator
  import Lexer

  /** `small` and `large` are one evaluation under two limits: they agree unless the smaller limit cut it off. */
  ghost predicate SameUpTo<T>(limit: nat, small: (Answer<T>, Meter), large: (Answer<T>, Meter)) {
    if small.0.OutOfOps? then large.1.ops > limit else large == small
  }

  lemma {:induction false} EvalMonotone(b: Builtins, limit: nat, limit': nat, node: Node, ctx: Context, m: Meter)
    requires m.ops <= limit <= limit'
    ensures SameUpTo(limit, Eval(b, limit, node, ctx, m), Eval(b, limit', node, ctx, m))
    decreases Fuel(limit, m), 0, 0
  {
    hide EvalProperty, EvalCall, EvalLogical, EvalBinary;
    var m1 := Enter(m);
    if m1.ops <= limit {
      match node
      case Lit(_) =>
      case Property(root, keys) => PropertyMonotone(b, limit, limit', root, keys, ctx, m1);
      case Call(name, args) => CallMonotone(b, limit, limit', name, args, ctx, m1);
      case Logical(isOr, left, right) => LogicalMonotone(b, limit, limit', isOr, left, right, ctx, m1);
      case Binary(op, left, right) => BinaryMonotone(b, limit, limit', op, left, right, ctx, m1);
      case Not(operand) => EvalMonotone(b, limit, limit', operand, ctx, m1);
      case Negate(operand) => EvalMonotone(b, limit, limit', operand, ctx, m1);
    }
  }

  lemma {:induction false} LogicalMonotone(b: Builtins, limit: nat, limit': nat, isOr: bool, left: Node, right: Node, ctx: Context,
                                           m: Meter)
    requires m.ops <= limit <= limit'
    ensures SameUpTo(limit, EvalLogical(b, limit, isOr, left, right, ctx, m), EvalLogical(b, limit', isOr, left, right, ctx, m))
    decreases Fuel(limit, m), 1, 0
  {
    hide Eval;
    EvalMonotone(b, limit, limit', left, ctx, m);
    var (l, m1) := Eval(b, limit, left, ctx, m);
    if l.Got? {
      EvalMonotone(b, limit, limit', right, ctx, m1);
    }
  }

  lemma {:induction false} BinaryMonotone(b: Builtins, limit: nat, limit': nat, op: BinOp, left: Node, right: Node, ctx: Context,
                                          m: Meter)
    requires m.ops <= limit <= limit'
    ensures SameUpTo(limit, EvalBinary(b, limit, op, left, right, ctx, m), EvalBinary(b, limit', op, left, right, ctx, m))
    decreases Fuel(limit, m), 1, 0
  {
    hide Eval, Apply;
    EvalMonotone(b, limit, limit', left, ctx, m);
    var (l, m1) := Eval(b, limit, left, ctx, m);
    if l.Got? {
      EvalMonotone(b, limit, limit', right, ctx, m1);
    }
  }

  lemma {:induction false} PropertyMonotone(b: Builtins, limit: nat, limit': nat, root: string, keys: seq<Key>, ctx: Context, m: Meter)
    requires m.ops <= limit <= limit'
    ensures SameUpTo(limit, EvalProperty(b, limit, root, keys, ctx, m), EvalProperty(b, limit', root, keys, ctx, m))
    decreases Fuel(limit, m), 2, 0
  {
    hide EvalPath, ResolveRoot;
    match ResolveRoot(b, ctx, root, keys)
    case Final(_) =>
    case Walk(from) => PathMonotone(b, limit, limit', keys, from, ctx, m);
  }

  lemma {:induction false} PathMonotone(b: Builtins, limit: nat, limit': nat, keys: seq<Key>, current: Value, ctx: Context, m: Meter)
    requires m.ops <= limit <= limit'
    ensures SameUpTo(limit, EvalPath(b, limit, keys, current, ctx, m), EvalPath(b, limit', keys, current, ctx, m))
    decreases Fuel(limit, m), 1, 0
  {
    hide Eval, GetProperty;
    var m1 := Hop(m);
    if |keys| > 0 && m1.ops <= limit {
      if keys[0].Dynamic? {
        EvalMonotone(b, limit, limit', keys[0].index, ctx, m1);
      }
      var (key, m2) := if keys[0].Fixed? then (Got(LiteralValue(b, keys[0].lit)), m1) else Eval(b, limit, keys[0].index, ctx, m1);
      if key.Got? && GetProperty(b, current, key.value).Ok? {
        PathMonotone(b, limit, limit', keys[1..], GetProperty(b, current, key.value).value, ctx, m2);
      }
    }
  }

  lemma {:induction false} CallMonotone(b: Builtins, limit: nat, limit': nat, name: string, args: seq<Node>, ctx: Context, m: Meter)
    requires m.ops <= limit <= limit'
    ensures SameUpTo(limit, EvalCall(b, limit, name, args, ctx, m), EvalCall(b, limit', name, args, ctx, m))
    decreases Fuel(limit, m), 3, 0
  {
    hide EvalArgs, EvalList;
    ArgsMonotone(b, limit, limit', args, 0, ctx, m, []);
    var (vs, m1) := EvalArgs(b, limit, args, 0, ctx, m, []);
    if vs.Got? {
      ListMonotone(b, limit, limit', name == "filter", vs.value, ctx, m1);
    }
  }

  lemma {:induction false} ArgsMonotone(b: Builtins, limit: nat, limit': nat, args: seq<Node>, i: nat, ctx: Context, m: Meter,
                                        acc: seq<Value>)
    requires m.ops <= limit <= limit'
    ensures SameUpTo(limit, EvalArgs(b, limit, args, i, ctx, m, acc), EvalArgs(b, limit', args, i, ctx, m, acc))
    decreases Fuel(limit, m), 1, |args| - i
  {
    hide Eval;
    if i < |args| {
      EvalMonotone(b, limit, limit', args[i], ctx, m);
      var (v, m1) := Eval(b, limit, args[i], ctx, m);
      if v.Got? {
        ArgsMonotone(b, limit, limit', args, i + 1, ctx, m1, acc + [v.value]);
      }
    }
  }

  lemma {:induction false} ListMonotone(b: Builtins, limit: nat, limit': nat, keep: bool, args: seq<Value>, ctx: Context, m: Meter)
    requires m.ops <= limit <= limit'
    ensures SameUpTo(limit, EvalList(b, limit, keep, args, ctx, m), EvalList(b, limit', keep, args, ctx, m))
    decreases Fuel(limit, m), 2, 0
  {
    hide EvalItems, Lexer.ParseExpression;
    if |args| == 2 && args[0].Arr? && args[1].Str? && Lexer.ParseExpression(args[1].s).Good? {
      ItemsMonotone(b, limit, limit', keep, Lexer.ParseExpression(args[1].s).value, args[0].items, 0, ctx, m, []);
    }
  }

  lemma {:induction false} ItemsMonotone(b: Builtins, limit: nat, limit': nat, keep: bool, inner: Node, items: seq<Value>, i: nat,
                                         ctx: Context, m: Meter, acc: seq<Value>)
    requires m.ops <= limit <= limit'
    ensures SameUpTo(limit, EvalItems(b, limit, keep, inner, items, i, ctx, m, acc),
                     EvalItems(b, limit', keep, inner, items, i, ctx, m, acc))
    decreases Fuel(limit, m), 1, |items| - i
  {
    hide Eval;
    if i < |items| {
      var inside := ElementContext(ctx, items[i], i);
      EvalMonotone(b, limit, limit', inner, inside, m);
      var (v, m1) := Eval(b, limit, inner, inside, m);
      if v.Got? {
        ItemsMonotone(b, limit, limit', keep, inner, items, i + 1, ctx, m1, Collect(keep, acc, items[i], v.value));
      }
    }
  }

  /**
   * Raising the limit never changes an answer already given, error codes included, nor the operations it took;
   * and an evaluation that ends within some limit is cut off by a smaller one exactly when it counts more operations.
   */
  lemma BudgetNeverChangesAnswers(b: Builtins, limit: nat, limit': nat, expr: string, ctx: Context)
    requires limit <= limit'
    ensures var (a, m) := EvaluateExpression(b, limit, expr, ctx);
            var (a', m') := EvaluateExpression(b, limit', expr, ctx);
            && (!a.OutOfOps? ==> a' == a && m' == m)
            && (!a'.OutOfOps? ==> (a.OutOfOps? <==> m'.ops > limit))
  {
    hide Eval, Lexer.ParseExpression;
    match Lexer.ParseExpression(expr)
    case Bad(_) =>
    case Good(node) => EvalMonotone(b, limit, limit', node, ctx, START);
  }

  // --- An expression that calls itself -------------------------------------------------------

  function InputPath(name: string): Node {
    Property("inputs", [Fixed(StrLit(name))])
  }

  /** `filter(inputs.list, inputs.self)` or the same with `map`. */
  function SelfCall(keep: bool, list: string, self: string): Node {
    Call(if keep then "filter" else "map", [InputPath(list), InputPath(self)])
  }

  /** The inputs hold a list that is not empty and, under another name, the text of the expression itself. */
  ghost predicate CallsItself(ctx: Context, keep: bool, list: string, self: string, text: string) {
    && Lexer.ParseExpression(text) == Good(SelfCall(keep, list, self))
    && ctx.inputs.Obj? && list in ctx.inputs.fields && self in ctx.inputs.fields
    && list !in FORBIDDEN_PROPS && self !in FORBIDDEN_PROPS
    && ctx.inputs.fields[list].Arr? && |ctx.inputs.fields[list].items| > 0
    && ctx.inputs.fields[self] == Str(text)
  }

  /** Reading `inputs.name`: two operations, or the limit. */
  lemma InputRead(b: Builtins, limit: nat, ctx: Context, name: string, m: Meter)
    requires m.ops <= limit && ctx.inputs.Obj? && name in ctx.inputs.fields && name !in FORBIDDEN_PROPS
    ensures var (v, m1) := Eval(b, limit, InputPath(name), ctx, m);
            v.OutOfOps? || (v == Got(OrNull(ctx.inputs.fields[name])) && m1.ops == m.ops + 2)
  {
    var keys := [Fixed(StrLit(name))];
    var m1 := Enter(m);
    if m1.ops <= limit {
      assert Eval(b, limit, InputPath(name), ctx, m) == EvalPath(b, limit, keys, ctx.inputs, ctx, m1);
      var m2 := Hop(m1);
      if m2.ops <= limit {
        var v := OrNull(ctx.inputs.fields[name]);
        assert GetProperty(b, ctx.inputs, Str(name)) == Ok(v);
        assert EvalPath(b, limit, keys, ctx.inputs, ctx, m1) == EvalPath(b, limit, keys[1..], v, ctx, m2);
      }
    }
  }

  lemma SelfCallArgs(b: Builtins, limit: nat, ctx: Context, keep: bool, list: string, self: string, text: string, m: Meter)
    requires m.ops <= limit && CallsItself(ctx, keep, list, self, text)
    ensures var (vs, m1) := EvalArgs(b, limit, SelfCall(keep, list, self).args, 0, ctx, m, []);
            vs.OutOfOps? || (vs == Got([ctx.inputs.fields[list], Str(text)]) && m1.ops == m.ops + 4)
  {
    hide Eval, Lexer.ParseExpression;
    var args := SelfCall(keep, list, self).args;
    InputRead(b, limit, ctx, list, m);
    var (v, m1) := Eval(b, limit, args[0], ctx, m);
    if v.Got? {
      InputRead(b, limit, ctx, self, m1);
      var (v', m2) := Eval(b, limit, args[1], ctx, m1);
      assert [] + [v.value] == [v.value];
      assert EvalArgs(b, limit, args, 0, ctx, m, []) == EvalArgs(b, limit, args, 1, ctx, m1, [v.value]);
      if v'.Got? {
        var both := [v.value] + [v'.value];
        assert both == [v.value, v'.value];
        assert EvalArgs(b, limit, args, 2, ctx, m2, both) == (Got(both), m2);
      }
    }
  }

  /** Nothing but the budget stops an expression that calls itself, and every budget does. */
  lemma {:induction false} SelfReferenceExhausts(b: Builtins, limit: nat, ctx: Context, keep: bool, list: string, self: string,
                                                 text: string, m: Meter)
    requires m.ops <= limit && CallsItself(ctx, keep, list, self, text)
    ensures Eval(b, limit, SelfCall(keep, list, self), ctx, m).0.OutOfOps?
    decreases Fuel(limit, m)
  {
    hide EvalArgs, Lexer.ParseExpression;
    var m1 := Enter(m);
    var node := SelfCall(keep, list, self);
    if m1.ops <= limit {
      SelfCallArgs(b, limit, ctx, keep, list, self, text, m1);
      var (vs, m2) := EvalArgs(b, limit, node.args, 0, ctx, m1, []);
      if vs.Got? {
        var items := ctx.inputs.fields[list].items;
        var inside := ElementContext(ctx, items[0], 0);
        SelfReferenceExhausts(b, limit, inside, keep, list, self, text, m2);
        assert EvalItems(b, limit, keep, node, items, 0, ctx, m2, []).0.OutOfOps?;
        assert EvalList(b, limit, keep, vs.value, ctx, m2) == EvalItems(b, limit, keep, node, items, 0, ctx, m2, []);
      }
      assert Eval(b, limit, node, ctx, m) == EvalCall(b, limit, node.name, node.args, ctx, m1);
    }
  }
}
