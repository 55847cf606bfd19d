/** The answer and the cost of an expression are its own: they do not depend on the budget already used. */
module EvaluationCost {
  import opened Prelude
  import opened Values
  import opened Syntax
  import opened Evaluator
  import opened Budget
  import Lexer

  function Plus(m: Meter, n: Meter): Meter {
    Meter(m.ops + n.ops, m.entries + n.entries)
  }

  function After<T>(n: Meter, r: (Answer<T>, Meter)): (Answer<T>, Meter) {
    (r.0, Plus(n, r.1))
  }

  lemma {:induction false} EvalShift(b: Builtins, limit: nat, node: Node, ctx: Context, m: Meter, n: Meter)
    requires m.ops <= limit
    ensures Eval(b, limit + n.ops, node, ctx, Plus(n, m)) == After(n, Eval(b, limit, node, ctx, m))
    decreases Fuel(limit, m), 0, 0
  {
    hide EvalProperty, EvalCall, EvalLogical, EvalBinary, Metered;
    var m1 := Enter(m);
    assert Enter(Plus(n, m)) == Plus(n, m1);
    if m1.ops <= limit {
      match node
      case Lit(_) =>
      case Property(root, keys) => PropertyShift(b, limit, root, keys, ctx, m1, n);
      case Call(name, args) => CallShift(b, limit, name, args, ctx, m1, n);
      case Logical(isOr, left, right) => LogicalShift(b, limit, isOr, left, right, ctx, m1, n);
      case Binary(op, left, right) => BinaryShift(b, limit, op, left, right, ctx, m1, n);
      case Not(operand) => EvalShift(b, limit, operand, ctx, m1, n);
      case Negate(operand) => EvalShift(b, limit, operand, ctx, m1, n);
    }
  }

  lemma {:induction false} LogicalShift(b: Builtins, limit: nat, isOr: bool, left: Node, right: Node, ctx: Context, m: Meter, n: Meter)
    requires m.ops <= limit
    ensures EvalLogical(b, limit + n.ops, isOr, left, right, ctx, Plus(n, m)) ==
            After(n, EvalLogical(b, limit, isOr, left, right, ctx, m))
    decreases Fuel(limit, m), 1, 0
  {
    hide Eval;
    EvalShift(b, limit, left, ctx, m, n);
    var (l, m1) := Eval(b, limit, left, ctx, m);
    if l.Got? {
      EvalShift(b, limit, right, ctx, m1, n);
    }
  }

  lemma {:induction false} BinaryShift(b: Builtins, limit: nat, op: BinOp, left: Node, right: Node, ctx: Context, m: Meter, n: Meter)
    requires m.ops <= limit
    ensures EvalBinary(b, limit + n.ops, op, left, right, ctx, Plus(n, m)) == After(n, EvalBinary(b, limit, op, left, right, ctx, m))
    decreases Fuel(limit, m), 1, 0
  {
    hide Eval, Apply, Lift, EvalBinary;
    BinaryTurn(b, limit, op, left, right, ctx, m);
    BinaryTurn(b, limit + n.ops, op, left, right, ctx, Plus(n, m));
    EvalShift(b, limit, left, ctx, m, n);
    var (l, m1) := Eval(b, limit, left, ctx, m);
    if l.Got? {
      EvalShift(b, limit, right, ctx, m1, n);
    }
  }

  lemma {:induction false} PropertyShift(b: Builtins, limit: nat, root: string, keys: seq<Key>, ctx: Context, m: Meter, n: Meter)
    requires m.ops <= limit
    ensures EvalProperty(b, limit + n.ops, root, keys, ctx, Plus(n, m)) == After(n, EvalProperty(b, limit, root, keys, ctx, m))
    decreases Fuel(limit, m), 2, 0
  {
    hide EvalPath, ResolveRoot;
    match ResolveRoot(b, ctx, root, keys)
    case Final(_) =>
    case Walk(from) => PathShift(b, limit, keys, from, ctx, m, n);
  }

  lemma {:induction false} PathShift(b: Builtins, limit: nat, keys: seq<Key>, current: Value, ctx: Context, m: Meter, n: Meter)
    requires m.ops <= limit
    ensures EvalPath(b, limit + n.ops, keys, current, ctx, Plus(n, m)) == After(n, EvalPath(b, limit, keys, current, ctx, m))
    decreases Fuel(limit, m), 1, 0
  {
    hide Eval, GetProperty;
    var m1 := Hop(m);
    assert Hop(Plus(n, m)) == Plus(n, m1);
    if |keys| > 0 && m1.ops <= limit {
      if keys[0].Dynamic? {
        EvalShift(b, limit, keys[0].index, ctx, m1, n);
      }
      var (key, m2) := if keys[0].Fixed? then (Got(LiteralValue(b, keys[0].lit)), m1) else Eval(b, limit, keys[0].index, ctx, m1);
      if key.Got? && GetProperty(b, current, key.value).Ok? {
        PathShift(b, limit, keys[1..], GetProperty(b, current, key.value).value, ctx, m2, n);
      }
    }
  }

  lemma {:induction false} CallShift(b: Builtins, limit: nat, name: string, args: seq<Node>, ctx: Context, m: Meter, n: Meter)
    requires m.ops <= limit
    ensures EvalCall(b, limit + n.ops, name, args, ctx, Plus(n, m)) == After(n, EvalCall(b, limit, name, args, ctx, m))
    decreases Fuel(limit, m), 3, 0
  {
    hide EvalArgs, EvalList;
    ArgsShift(b, limit, args, 0, ctx, m, [], n);
    var (vs, m1) := EvalArgs(b, limit, args, 0, ctx, m, []);
    if vs.Got? {
      ListShift(b, limit, name == "filter", vs.value, ctx, m1, n);
    }
  }

  lemma {:induction false} ArgsShift(b: Builtins, limit: nat, args: seq<Node>, i: nat, ctx: Context, m: Meter, acc: seq<Value>, n: Meter)
    requires m.ops <= limit
    ensures EvalArgs(b, limit + n.ops, args, i, ctx, Plus(n, m), acc) == After(n, EvalArgs(b, limit, args, i, ctx, m, acc))
    decreases Fuel(limit, m), 1, |args| - i
  {
    hide Eval;
    if i < |args| {
      EvalShift(b, limit, args[i], ctx, m, n);
      var (v, m1) := Eval(b, limit, args[i], ctx, m);
      if v.Got? {
        ArgsShift(b, limit, args, i + 1, ctx, m1, acc + [v.value], n);
      }
    }
  }

  lemma {:induction false} ListShift(b: Builtins, limit: nat, keep: bool, args: seq<Value>, ctx: Context, m: Meter, n: Meter)
    requires m.ops <= limit
    ensures EvalList(b, limit + n.ops, keep, args, ctx, Plus(n, m)) == After(n, EvalList(b, limit, keep, args, ctx, m))
    decreases Fuel(limit, m), 2, 0
  {
    hide EvalItems, Lexer.ParseExpression;
    if |args| == 2 && args[0].Arr? && args[1].Str? && Lexer.ParseExpression(args[1].s).Good? {
      ItemsShift(b, limit, keep, Lexer.ParseExpression(args[1].s).value, args[0].items, 0, ctx, m, [], n);
    }
  }

  lemma {:induction false} ItemsShift(b: Builtins, limit: nat, keep: bool, inner: Node, items: seq<Value>, i: nat, ctx: Context,
                                      m: Meter, acc: seq<Value>, n: Meter)
    requires m.ops <= limit
    ensures EvalItems(b, limit + n.ops, keep, inner, items, i, ctx, Plus(n, m), acc) ==
            After(n, EvalItems(b, limit, keep, inner, items, i, ctx, m, acc))
    decreases Fuel(limit, m), 1, |items| - i
  {
    hide Eval;
    if i < |items| {
      var inside := ElementContext(ctx, items[i], i);
      EvalShift(b, limit, inner, inside, m, n);
      var (v, m1) := Eval(b, limit, inner, inside, m);
      if v.Got? {
        ItemsShift(b, limit, keep, inner, items, i + 1, ctx, m1, Collect(keep, acc, items[i], v.value), n);
      }
    }
  }

  /**
   * An expression that some budget lets finish has one answer and one cost. With any counter reading it gives that
   * answer at that cost as long as the sum is within the limit, and runs out otherwise.
   */
  lemma CostIsItsOwn(b: Builtins, enough: nat, limit: nat, node: Node, ctx: Context, m: Meter)
    requires m.ops <= limit && !Eval(b, enough, node, ctx, START).0.OutOfOps?
    ensures var alone := Eval(b, enough, node, ctx, START);
            if m.ops + alone.1.ops <= limit then Eval(b, limit, node, ctx, m) == After(m, alone)
            else Eval(b, limit, node, ctx, m).0.OutOfOps?
  {
    hide Eval;
    EvalShift(b, enough, node, ctx, START, m);
    assert Plus(m, START) == m;
    if enough + m.ops <= limit {
      EvalMonotone(b, enough + m.ops, limit, node, ctx, m);
    } else {
      EvalMonotone(b, limit, enough + m.ops, node, ctx, m);
    }
  }

  /** The value and the cost of an expression that finishes within some budget. */
  ghost predicate Yields(b: Builtins, node: Node, ctx: Context, v: Value, cost: Meter) {
    exists enough: nat :: Eval(b, enough, node, ctx, START) == (Got(v), cost)
  }

  function Spent(m: Meter, costs: seq<Meter>, i: nat): Meter
    requires i <= |costs|
    decreases |costs| - i
  {
    if i == |costs| then m else Spent(Plus(m, costs[i]), costs, i + 1)
  }

  lemma {:induction false} SpendingGrows(m: Meter, costs: seq<Meter>, i: nat)
    requires i <= |costs|
    ensures m.ops <= Spent(m, costs, i).ops
    decreases |costs| - i
  {
    if i < |costs| {
      SpendingGrows(Plus(m, costs[i]), costs, i + 1);
    }
  }

  /** `filter` keeps the items with a truthy value, `map` the values, both in order. */
  function Picked(keep: bool, items: seq<Value>, values: seq<Value>): seq<Value>
    requires |items| == |values|
  {
    if |items| == 0 then [] else
    (if !keep then [values[0]] else if IsTruthy(values[0]) then [items[0]] else []) + Picked(keep, items[1..], values[1..])
  }

  lemma PickedTurn(keep: bool, items: seq<Value>, values: seq<Value>, i: nat, acc: seq<Value>)
    requires i < |items| == |values|
    ensures Collect(keep, acc, items[i], values[i]) + Picked(keep, items[i + 1..], values[i + 1..]) ==
            acc + Picked(keep, items[i..], values[i..])
  {
    assert items[i..][1..] == items[i + 1..] && values[i..][1..] == values[i + 1..];
  }

  lemma ItemTurn(b: Builtins, limit: nat, keep: bool, inner: Node, items: seq<Value>, i: nat, ctx: Context, m: Meter, acc: seq<Value>)
    requires m.ops <= limit && i < |items|
    requires Eval(b, limit, inner, ElementContext(ctx, items[i], i), m).0.Got?
    ensures var (v, m1) := Eval(b, limit, inner, ElementContext(ctx, items[i], i), m);
            EvalItems(b, limit, keep, inner, items, i, ctx, m, acc) ==
            EvalItems(b, limit, keep, inner, items, i + 1, ctx, m1, Collect(keep, acc, items[i], v.value))
  {
    hide Eval, Collect;
  }

  lemma NoItemsLeft(b: Builtins, limit: nat, keep: bool, inner: Node, items: seq<Value>, ctx: Context, m: Meter, acc: seq<Value>)
    requires m.ops <= limit
    ensures EvalItems(b, limit, keep, inner, items, |items|, ctx, m, acc) == (Got(Arr(acc)), m)
    ensures acc + Picked(keep, [], []) == acc
  {
  }

  /** Each item is judged by its own value and costs its own operations, whatever came before it. */
  lemma {:induction false} ListIsElementwise(b: Builtins, limit: nat, keep: bool, inner: Node, items: seq<Value>, i: nat, ctx: Context,
                                             m: Meter, acc: seq<Value>, values: seq<Value>, costs: seq<Meter>)
    requires i <= |items| == |values| == |costs| && Spent(m, costs, i).ops <= limit
    requires forall k :: i <= k < |items| ==> Yields(b, inner, ElementContext(ctx, items[k], k), values[k], costs[k])
    ensures m.ops <= limit
    ensures EvalItems(b, limit, keep, inner, items, i, ctx, m, acc) ==
            (Got(Arr(acc + Picked(keep, items[i..], values[i..]))), Spent(m, costs, i))
    decreases |items| - i
  {
    hide Eval, Picked, Collect, EvalItems;
    SpendingGrows(m, costs, i);
    if i == |items| {
      NoItemsLeft(b, limit, keep, inner, items, ctx, m, acc);
      assert items[i..] == [] && values[i..] == [];
    } else {
      var inside := ElementContext(ctx, items[i], i);
      assert Yields(b, inner, inside, values[i], costs[i]);
      var enough: nat :| Eval(b, enough, inner, inside, START) == (Got(values[i]), costs[i]);
      SpendingGrows(Plus(m, costs[i]), costs, i + 1);
      CostIsItsOwn(b, enough, limit, inner, inside, m);
      var acc' := Collect(keep, acc, items[i], values[i]);
      ItemTurn(b, limit, keep, inner, items, i, ctx, m, acc);
      ListIsElementwise(b, limit, keep, inner, items, i + 1, ctx, Plus(m, costs[i]), acc', values, costs);
      PickedTurn(keep, items, values, i, acc);
    }
  }
}
