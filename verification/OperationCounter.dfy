/** The evaluator as written: one counter, bumped in place through every call. */
module OperationCounter {
  import opened Prelude
  import opened Values
  import opened Syntax
  import opened Evaluator
  import Lexer

  class Operations {
    var count: nat
    ghost var entries: nat

    constructor ()
      ensures Reading() == START
    {
      count := 0;
      entries := 0;
    }

    ghost function Reading(): Meter
      reads this
    {
      Meter(count, entries)
    }

    method Evaluate(b: Builtins, limit: nat, node: Node, ctx: Context) returns (v: Answer<Value>)
      requires count <= limit
      modifies this
      ensures (v, Reading()) == Eval(b, limit, node, ctx, old(Reading()))
      decreases Fuel(limit, Reading()), 0
    {
      hide EvalProperty, EvalLogical, EvalBinary, EvalCall, Metered, Minus;
      count := count + 1;
      entries := entries + 1;
      if count > limit {
        return OutOfOps;
      }
      match node {
        case Lit(lit) =>
          v := Got(LiteralValue(b, lit));
        case Property(root, keys) =>
          v := ResolveProperty(b, limit, root, keys, ctx);
        case Not(operand) =>
          v := Evaluate(b, limit, operand, ctx);
          if v.Got? {
            v := Got(Bool(!IsTruthy(v.value)));
          }
        case Logical(isOr, left, right) =>
          v := EvaluateLogical(b, limit, isOr, left, right, ctx);
        case Binary(op, left, right) =>
          v := EvaluateBinary(b, limit, op, left, right, ctx);
        case Negate(operand) =>
          v := Evaluate(b, limit, operand, ctx);
          if v.Got? {
            v := Lift(Minus(b, v.value));
          }
        case Call(name, args) =>
          v := CallFunction(b, limit, name, args, ctx);
      }
    }

    method EvaluateLogical(b: Builtins, limit: nat, isOr: bool, left: Node, right: Node, ctx: Context) returns (v: Answer<Value>)
      requires count <= limit
      modifies this
      ensures (v, Reading()) == EvalLogical(b, limit, isOr, left, right, ctx, old(Reading()))
      decreases Fuel(limit, Reading()), 1
    {
      hide Eval;
      var l := Evaluate(b, limit, left, ctx);
      if !l.Got? {
        return l;
      }
      if IsTruthy(l.value) == isOr {
        return Got(Bool(isOr));
      }
      v := Evaluate(b, limit, right, ctx);
      if v.Got? {
        v := Got(Bool(IsTruthy(v.value)));
      }
    }

    method EvaluateBinary(b: Builtins, limit: nat, op: BinOp, left: Node, right: Node, ctx: Context) returns (v: Answer<Value>)
      requires count <= limit
      modifies this
      ensures (v, Reading()) == EvalBinary(b, limit, op, left, right, ctx, old(Reading()))
      decreases Fuel(limit, Reading()), 1
    {
      hide Eval, Apply, Lift, EvalBinary;
      BinaryTurn(b, limit, op, left, right, ctx, Reading());
      v := Evaluate(b, limit, left, ctx);
      if v.Got? {
        var l := v.value;
        v := Evaluate(b, limit, right, ctx);
        if v.Got? {
          v := Lift(Apply(b, op, l, v.value));
        }
      }
    }

    method ResolveProperty(b: Builtins, limit: nat, root: string, keys: seq<Key>, ctx: Context) returns (v: Answer<Value>)
      requires count <= limit
      modifies this
      ensures (v, Reading()) == EvalProperty(b, limit, root, keys, ctx, old(Reading()))
      decreases Fuel(limit, Reading()), 1
    {
      hide Eval, GetProperty, ResolveRoot;
      var start := ResolveRoot(b, ctx, root, keys);
      if start.Final? {
        return Lift(start.answer);
      }
      var current := start.from;
      var i := 0;
      assert keys[0..] == keys;
      while i < |keys|
        invariant 0 <= i <= |keys|
        invariant old(count) <= count <= limit && (i > 0 ==> old(count) < count)
        invariant EvalPath(b, limit, keys, start.from, ctx, old(Reading())) == EvalPath(b, limit, keys[i..], current, ctx, Reading())
      {
        assert keys[i..][1..] == keys[i + 1..];
        count := count + 1;
        if count > limit {
          return OutOfOps;
        }
        var key := Got(Null);
        if keys[i].Dynamic? {
          key := Evaluate(b, limit, keys[i].index, ctx);
          if !key.Got? {
            return key;
          }
        } else {
          key := Got(LiteralValue(b, keys[i].lit));
        }
        var next := GetProperty(b, current, key.value);
        if next.Err? {
          return Fault(next.code);
        }
        current := next.value;
        i := i + 1;
      }
      v := Got(current);
    }

    method CallFunction(b: Builtins, limit: nat, name: string, args: seq<Node>, ctx: Context) returns (v: Answer<Value>)
      requires count <= limit
      modifies this
      ensures (v, Reading()) == EvalCall(b, limit, name, args, ctx, old(Reading()))
      decreases Fuel(limit, Reading()), 2
    {
      hide Eval, EvalList;
      var values: seq<Value> := [];
      var i := 0;
      while i < |args|
        invariant 0 <= i <= |args| && old(count) <= count <= limit
        invariant EvalArgs(b, limit, args, 0, ctx, old(Reading()), []) == EvalArgs(b, limit, args, i, ctx, Reading(), values)
      {
        var value := Evaluate(b, limit, args[i], ctx);
        if !value.Got? {
          return value;
        }
        values := values + [value.value];
        i := i + 1;
      }
      if name == "filter" || name == "map" {
        v := FilterOrMap(b, limit, name == "filter", values, ctx);
      } else {
        v := Lift(b.call(name, values));
      }
    }

    method FilterOrMap(b: Builtins, limit: nat, keep: bool, args: seq<Value>, ctx: Context) returns (v: Answer<Value>)
      requires count <= limit
      modifies this
      ensures (v, Reading()) == EvalList(b, limit, keep, args, ctx, old(Reading()))
      decreases Fuel(limit, Reading()), 1
    {
      hide Eval, Lexer.ParseExpression;
      if |args| != 2 {
        return Fault("type_mismatch");
      }
      if args[0].Null? {
        return Got(Arr([]));
      }
      if !args[0].Arr? || !args[1].Str? {
        return Fault("type_mismatch");
      }
      var inner := Lexer.ParseText(args[1].s);
      if inner.Bad? {
        return Fault(ErrorCode(inner.error));
      }
      var items := args[0].items;
      var kept: seq<Value> := [];
      var i := 0;
      while i < |items|
        invariant 0 <= i <= |items| && old(count) <= count <= limit
        invariant EvalItems(b, limit, keep, inner.value, items, 0, ctx, old(Reading()), []) ==
                  EvalItems(b, limit, keep, inner.value, items, i, ctx, Reading(), kept)
      {
        var value := Evaluate(b, limit, inner.value, ElementContext(ctx, items[i], i));
        if !value.Got? {
          return value;
        }
        kept := Collect(keep, kept, items[i], value.value);
        i := i + 1;
      }
      v := Got(Arr(kept));
    }
  }

  /** `evaluateExpression`, with a counter of its own. */
  method EvaluateText(b: Builtins, limit: nat, expr: string, ctx: Context) returns (v: Answer<Value>)
    ensures v == EvaluateExpression(b, limit, expr, ctx).0
  {
    hide Lexer.ParseExpression, Eval;
    var ast := Lexer.ParseText(expr);
    if ast.Bad? {
      return Fault(ErrorCode(ast.error));
    }
    var ops := new Operations();
    v := ops.Evaluate(b, limit, ast.value, ctx);
  }
}
