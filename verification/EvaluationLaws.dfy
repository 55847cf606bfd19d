/**
 * What each kind of node means, in terms of what its parts yield: the value, the cost, and the error that is passed on.
 * One operation is spent on the node itself and one on each key of a path.
 */
module EvaluationLaws {
  import opened Prelude
  import opened Values
  import opened Syntax
  import opened Evaluator
  import opened EvaluationCost
  import opened OperatorLaws
  import Lexer

  /** The answer and the cost of an expression that finishes within some budget. */
  ghost predicate Ends(b: Builtins, node: Node, ctx: Context, a: Answer<Value>, cost: Meter) {
    !a.OutOfOps? && exists enough: nat :: Eval(b, enough, node, ctx, START) == (a, cost)
  }

  const ONE := Meter(1, 1)

  /** A result as an answer: its value, or its error code. */
  function Answered(r: Result<Value>): Answer<Value> {
    match r
    case Ok(v) => Got(v)
    case Err(code) => Fault(code)
  }

  lemma YieldsEnds(b: Builtins, node: Node, ctx: Context, v: Value, cost: Meter)
    ensures Yields(b, node, ctx, v, cost) <==> Ends(b, node, ctx, Got(v), cost)
  {
    hide Eval;
  }

  /** Under any limit that leaves room for it, and after any operations. */
  lemma EndsAnywhere(b: Builtins, limit: nat, node: Node, ctx: Context, m: Meter, a: Answer<Value>, cost: Meter)
    requires Ends(b, node, ctx, a, cost) && m.ops + cost.ops <= limit
    ensures Eval(b, limit, node, ctx, m) == (a, Plus(m, cost))
  {
    hide Eval;
    var enough: nat :| Eval(b, enough, node, ctx, START) == (a, cost);
    CostIsItsOwn(b, enough, limit, node, ctx, m);
  }

  /** There is one answer and one cost. */
  lemma EndsOnce(b: Builtins, node: Node, ctx: Context, a: Answer<Value>, cost: Meter, a': Answer<Value>, cost': Meter)
    requires Ends(b, node, ctx, a, cost) && Ends(b, node, ctx, a', cost')
    ensures a == a' && cost == cost'
  {
    hide Eval, Ends;
    var limit := cost.ops + cost'.ops;
    EndsAnywhere(b, limit, node, ctx, START, a, cost);
    EndsAnywhere(b, limit, node, ctx, START, a', cost');
    assert Plus(START, cost) == cost && Plus(START, cost') == cost';
  }

  // --- Literals and operators ---------------------------------------------------------------------------

  lemma LiteralsEnd(b: Builtins, ctx: Context, s: string, t: bool)
    ensures Ends(b, Lit(StrLit(s)), ctx, Got(Str(s)), ONE)
    ensures Ends(b, Lit(NumLit(s)), ctx, Got(Num(b.parseFloat(s))), ONE)
    ensures Ends(b, Lit(BoolLit(t)), ctx, Got(Bool(t)), ONE)
    ensures Ends(b, Lit(NullLit), ctx, Got(Null), ONE)
  {
    assert Eval(b, 1, Lit(StrLit(s)), ctx, START) == (Got(Str(s)), ONE);
    assert Eval(b, 1, Lit(NumLit(s)), ctx, START) == (Got(Num(b.parseFloat(s))), ONE);
    assert Eval(b, 1, Lit(BoolLit(t)), ctx, START) == (Got(Bool(t)), ONE);
    assert Eval(b, 1, Lit(NullLit), ctx, START) == (Got(Null), ONE);
  }

  /**
   * When the left operand decides, `or` is true and `and` is false at the cost of the left operand and one more, and the
   * right one is not evaluated, whatever it is.
   */
  lemma LeftDecides(b: Builtins, isOr: bool, left: Node, right: Node, ctx: Context, l: Value, cl: Meter)
    requires Yields(b, left, ctx, l, cl) && (if isOr then l !in FALSY else l in FALSY)
    ensures Yields(b, Logical(isOr, left, right), ctx, Bool(isOr), Plus(ONE, cl))
  {
    hide Eval, EvalLogical, Ends, Yields;
    YieldsEnds(b, left, ctx, l, cl);
    FalsyValues(l);
    var limit := 1 + cl.ops;
    EndsAnywhere(b, limit, left, ctx, ONE, Got(l), cl);
    LogicalTurn(b, limit, isOr, left, right, ctx);
    LeftTurn(b, limit, isOr, left, right, ctx);
    EndsBy(b, limit, Logical(isOr, left, right), ctx, Got(Bool(isOr)), Plus(ONE, cl));
    YieldsEnds(b, Logical(isOr, left, right), ctx, Bool(isOr), Plus(ONE, cl));
  }

  lemma EndsBy(b: Builtins, limit: nat, node: Node, ctx: Context, a: Answer<Value>, cost: Meter)
    requires Eval(b, limit, node, ctx, START) == (a, cost) && !a.OutOfOps?
    ensures Ends(b, node, ctx, a, cost)
  {
  }

  lemma LogicalTurn(b: Builtins, limit: nat, isOr: bool, left: Node, right: Node, ctx: Context)
    requires limit > 0
    ensures Eval(b, limit, Logical(isOr, left, right), ctx, START) == EvalLogical(b, limit, isOr, left, right, ctx, ONE)
  {
    hide EvalLogical;
  }

  lemma LeftTurn(b: Builtins, limit: nat, isOr: bool, left: Node, right: Node, ctx: Context)
    requires limit > 0
    ensures var (l, m1) := Eval(b, limit, left, ctx, ONE);
            EvalLogical(b, limit, isOr, left, right, ctx, ONE) ==
            if !l.Got? then (l, m1)
            else if (l.value !in FALSY) == isOr then (Got(Bool(isOr)), m1)
            else
              var (v, m2) := Eval(b, limit, right, ctx, m1);
              (if v.Got? then Got(Bool(v.value !in FALSY)) else v, m2)
  {
    hide Eval;
    var (l, m1) := Eval(b, limit, left, ctx, ONE);
    if l.Got? {
      FalsyValues(l.value);
      var v := Eval(b, limit, right, ctx, m1).0;
      if v.Got? {
        FalsyValues(v.value);
      }
    }
  }

  /** When both operands yield values, `or` is true exactly when one of them is not falsy, and `and` exactly when both are not. */
  lemma ConnectivesYield(b: Builtins, left: Node, right: Node, ctx: Context, l: Value, cl: Meter, r: Value, cr: Meter)
    returns (or: Meter, and: Meter)
    requires Yields(b, left, ctx, l, cl) && Yields(b, right, ctx, r, cr)
    ensures Yields(b, Logical(true, left, right), ctx, Bool(l !in FALSY || r !in FALSY), or)
    ensures Yields(b, Logical(false, left, right), ctx, Bool(l !in FALSY && r !in FALSY), and)
    ensures or == (if l !in FALSY then Plus(ONE, cl) else Plus(Plus(ONE, cl), cr))
    ensures and == (if l in FALSY then Plus(ONE, cl) else Plus(Plus(ONE, cl), cr))
  {
    hide Yields;
    if l in FALSY {
      LeftDecides(b, false, left, right, ctx, l, cl);
      RightDecides(b, true, left, right, ctx, l, cl, r, cr);
      or, and := Plus(Plus(ONE, cl), cr), Plus(ONE, cl);
    } else {
      LeftDecides(b, true, left, right, ctx, l, cl);
      RightDecides(b, false, left, right, ctx, l, cl, r, cr);
      or, and := Plus(ONE, cl), Plus(Plus(ONE, cl), cr);
    }
  }

  /** Otherwise the right operand decides. */
  lemma RightDecides(b: Builtins, isOr: bool, left: Node, right: Node, ctx: Context, l: Value, cl: Meter, r: Value, cr: Meter)
    requires Yields(b, left, ctx, l, cl) && (if isOr then l in FALSY else l !in FALSY) && Yields(b, right, ctx, r, cr)
    ensures Yields(b, Logical(isOr, left, right), ctx, Bool(r !in FALSY), Plus(Plus(ONE, cl), cr))
  {
    hide Eval, EvalLogical, Ends, Yields;
    YieldsEnds(b, left, ctx, l, cl);
    YieldsEnds(b, right, ctx, r, cr);
    var limit, cost := 1 + cl.ops + cr.ops, Plus(Plus(ONE, cl), cr);
    EndsAnywhere(b, limit, left, ctx, ONE, Got(l), cl);
    EndsAnywhere(b, limit, right, ctx, Plus(ONE, cl), Got(r), cr);
    LogicalTurn(b, limit, isOr, left, right, ctx);
    LeftTurn(b, limit, isOr, left, right, ctx);
    EndsBy(b, limit, Logical(isOr, left, right), ctx, Got(Bool(r !in FALSY)), cost);
    YieldsEnds(b, Logical(isOr, left, right), ctx, Bool(r !in FALSY), cost);
  }

  /** `not` is true of the falsy values. */
  lemma NotYields(b: Builtins, e: Node, ctx: Context, v: Value, c: Meter)
    requires Yields(b, e, ctx, v, c)
    ensures Yields(b, Not(e), ctx, Bool(v in FALSY), Plus(ONE, c))
  {
    hide Ends, Yields;
    YieldsEnds(b, e, ctx, v, c);
    FalsyValues(v);
    EndsAnywhere(b, 1 + c.ops, e, ctx, ONE, Got(v), c);
    EndsBy(b, 1 + c.ops, Not(e), ctx, Got(Bool(v in FALSY)), Plus(ONE, c));
    YieldsEnds(b, Not(e), ctx, Bool(v in FALSY), Plus(ONE, c));
  }

  /** A minus sign negates the number its operand stands for, and fails on anything that stands for none. */
  lemma NegateEnds(b: Builtins, e: Node, ctx: Context, v: Value, c: Meter)
    requires Yields(b, e, ctx, v, c)
    ensures forall x: real :: CountsAs(b, v, Finite(x)) ==> Yields(b, Negate(e), ctx, Num(Finite(-x)), Plus(ONE, c))
    ensures forall neg: bool :: CountsAs(b, v, Infinite(neg)) ==> Yields(b, Negate(e), ctx, Num(Infinite(!neg)), Plus(ONE, c))
    ensures CountsAs(b, v, NaN) ==> Yields(b, Negate(e), ctx, Num(NaN), Plus(ONE, c))
    ensures (forall n :: !CountsAs(b, v, n)) ==> Ends(b, Negate(e), ctx, Fault("type_mismatch"), Plus(ONE, c))
  {
    hide Ends, Yields, CountsAs, ToNumber;
    YieldsEnds(b, e, ctx, v, c);
    EndsAnywhere(b, 1 + c.ops, e, ctx, ONE, Got(v), c);
    var a := Lift(Minus(b, v));
    EndsBy(b, 1 + c.ops, Negate(e), ctx, a, Plus(ONE, c));
    forall n {
      NumberOf(b, v, n);
    }
    if a.Got? {
      YieldsEnds(b, Negate(e), ctx, a.value, Plus(ONE, c));
    }
  }

  /** A binary operator is applied to the values of both operands, the left one first. */
  lemma BinaryEnds(b: Builtins, op: BinOp, left: Node, right: Node, ctx: Context, l: Value, cl: Meter, r: Value, cr: Meter)
    requires Yields(b, left, ctx, l, cl) && Yields(b, right, ctx, r, cr)
    ensures Ends(b, Binary(op, left, right), ctx, Answered(Apply(b, op, l, r)), Plus(Plus(ONE, cl), cr))
  {
    hide Eval, Ends, Yields, EvalBinary, Apply;
    YieldsEnds(b, left, ctx, l, cl);
    YieldsEnds(b, right, ctx, r, cr);
    var limit := 1 + cl.ops + cr.ops;
    EndsAnywhere(b, limit, left, ctx, ONE, Got(l), cl);
    EndsAnywhere(b, limit, right, ctx, Plus(ONE, cl), Got(r), cr);
    BinaryTurn(b, limit, op, left, right, ctx, ONE);
    BinaryEntered(b, limit, op, left, right, ctx);
    EndsBy(b, limit, Binary(op, left, right), ctx, Lift(Apply(b, op, l, r)), Plus(Plus(ONE, cl), cr));
  }

  lemma BinaryEntered(b: Builtins, limit: nat, op: BinOp, left: Node, right: Node, ctx: Context)
    requires limit > 0
    ensures Eval(b, limit, Binary(op, left, right), ctx, START) == EvalBinary(b, limit, op, left, right, ctx, ONE)
  {
    hide EvalBinary;
  }

  /** An error of the operand, or of the left operand, is the error of the whole; the right one is not evaluated. */
  lemma FaultIsPassedOn(b: Builtins, node: Node, first: Node, ctx: Context, code: string, c: Meter)
    requires match node
             case Not(e) => e == first
             case Negate(e) => e == first
             case Logical(_, left, _) => left == first
             case Binary(_, left, _) => left == first
             case _ => false
    requires Ends(b, first, ctx, Fault(code), c)
    ensures Ends(b, node, ctx, Fault(code), Plus(ONE, c))
  {
    hide Ends, Eval, EvalLogical, EvalBinary;
    var limit := 1 + c.ops;
    EndsAnywhere(b, limit, first, ctx, ONE, Fault(code), c);
    match node {
      case Logical(isOr, left, right) =>
        LogicalTurn(b, limit, isOr, left, right, ctx);
        LeftTurn(b, limit, isOr, left, right, ctx);
      case Binary(op, left, right) =>
        BinaryTurn(b, limit, op, left, right, ctx, ONE);
        BinaryEntered(b, limit, op, left, right, ctx);
      case Not(_) => PrefixFaults(b, limit, node, first, ctx, code, c);
      case Negate(_) => PrefixFaults(b, limit, node, first, ctx, code, c);
    }
    EndsBy(b, limit, node, ctx, Fault(code), Plus(ONE, c));
  }

  lemma PrefixFaults(b: Builtins, limit: nat, node: Node, first: Node, ctx: Context, code: string, c: Meter)
    requires (node == Not(first) || node == Negate(first)) && limit > 0
    requires Eval(b, limit, first, ctx, ONE) == (Fault(code), Plus(ONE, c))
    ensures Eval(b, limit, node, ctx, START) == (Fault(code), Plus(ONE, c))
  {
  }

  /** So is an error of the right operand, if the left one yields a value that does not decide. */
  lemma RightFaultIsPassedOn(b: Builtins, node: Node, ctx: Context, l: Value, cl: Meter, code: string, cr: Meter)
    requires node.Binary? || node.Logical?
    requires Yields(b, node.left, ctx, l, cl) && Ends(b, node.right, ctx, Fault(code), cr)
    requires node.Logical? ==> if node.isOr then l in FALSY else l !in FALSY
    ensures Ends(b, node, ctx, Fault(code), Plus(Plus(ONE, cl), cr))
  {
    hide Ends, Eval, EvalLogical, EvalBinary, Yields;
    YieldsEnds(b, node.left, ctx, l, cl);
    var limit := 1 + cl.ops + cr.ops;
    EndsAnywhere(b, limit, node.left, ctx, ONE, Got(l), cl);
    EndsAnywhere(b, limit, node.right, ctx, Plus(ONE, cl), Fault(code), cr);
    if node.Logical? {
      LogicalTurn(b, limit, node.isOr, node.left, node.right, ctx);
      LeftTurn(b, limit, node.isOr, node.left, node.right, ctx);
    } else {
      BinaryTurn(b, limit, node.op, node.left, node.right, ctx, ONE);
      BinaryEntered(b, limit, node.op, node.left, node.right, ctx);
    }
    EndsBy(b, limit, node, ctx, Fault(code), Plus(Plus(ONE, cl), cr));
  }

  // --- Paths ------------------------------------------------------------------------------------------

  /** What the roots stand for; `secrets` and `env` are looked up by their first key. */
  ghost predicate RootIs(ctx: Context, root: string, v: Value) {
    || (root == "inputs" && v == ctx.inputs) || (root == "steps" && v == ctx.steps) || (root == "trigger" && v == ctx.trigger)
    || (root == "run" && v == ctx.run) || (root == "item" && v == ctx.item) || (root == "index" && v == ctx.index)
    || (root == "loop" && ctx.loop == Some(v))
  }

  lemma RootYields(b: Builtins, ctx: Context, root: string, v: Value)
    requires RootIs(ctx, root, v)
    ensures Yields(b, Property(root, []), ctx, v, ONE)
  {
    assert ResolveRoot(b, ctx, root, []) == Walk(v);
    assert Eval(b, 1, Property(root, []), ctx, START) == (Got(v), ONE);
  }

  /** Outside a loop `loop` and every path from it is null, and so is `now`; an unknown root is an error. */
  lemma OtherRootsEnd(b: Builtins, ctx: Context, root: string, keys: seq<Key>)
    ensures (root == "loop" && ctx.loop == None) || root == "now" ==> Yields(b, Property(root, keys), ctx, Null, ONE)
    ensures root !in {"inputs", "steps", "loop", "trigger", "secrets", "env", "run", "item", "index", "now"} ==>
              Ends(b, Property(root, keys), ctx, Fault("unknown_variable"), ONE)
  {
    PropertyTurn(b, 1, root, keys, ctx);
    if (root == "loop" && ctx.loop == None) || root == "now" {
      assert Eval(b, 1, Property(root, keys), ctx, START) == (Got(Null), ONE);
    } else if root !in {"inputs", "steps", "loop", "trigger", "secrets", "env", "run", "item", "index", "now"} {
      assert Eval(b, 1, Property(root, keys), ctx, START) == (Fault("unknown_variable"), ONE);
    }
  }

  lemma PropertyTurn(b: Builtins, limit: nat, root: string, keys: seq<Key>, ctx: Context)
    requires limit > 0
    ensures Eval(b, limit, Property(root, keys), ctx, START) ==
            var start := ResolveRoot(b, ctx, root, keys);
            if start.Final? then (Lift(start.answer), ONE) else EvalPath(b, limit, keys, start.from, ctx, ONE)
  {
    hide EvalPath, ResolveRoot;
  }

  /** The first key of `secrets` and `env` says it all: the secret, the one variable there is, or an error. */
  lemma LookupsEnd(b: Builtins, ctx: Context, lit: Literal, index: Node, rest: seq<Key>)
    ensures Yields(b, Property("secrets", [Fixed(lit)] + rest), ctx, ctx.secrets(Some(LiteralValue(b, lit))), ONE)
    ensures Yields(b, Property("secrets", [Dynamic(index)] + rest), ctx, ctx.secrets(None), ONE)
    ensures lit == StrLit("FF_APP_URL") ==>
              Yields(b, Property("env", [Fixed(lit)] + rest), ctx, if ctx.appUrl == Undefined then Null else ctx.appUrl, ONE)
    ensures lit != StrLit("FF_APP_URL") ==> Ends(b, Property("env", [Fixed(lit)] + rest), ctx, Fault("unknown_env_variable"), ONE)
    ensures Ends(b, Property("env", [Dynamic(index)] + rest), ctx, Fault("unknown_env_variable"), ONE)
  {
    hide Eval, EvalPath, LiteralValue;
    var fixed, dynamic := [Fixed(lit)] + rest, [Dynamic(index)] + rest;
    PropertyTurn(b, 1, "secrets", fixed, ctx);
    PropertyTurn(b, 1, "secrets", dynamic, ctx);
    PropertyTurn(b, 1, "env", fixed, ctx);
    PropertyTurn(b, 1, "env", dynamic, ctx);
    assert fixed[0] == Fixed(lit) && dynamic[0] == Dynamic(index);
    EndsBy(b, 1, Property("secrets", fixed), ctx, Got(ctx.secrets(Some(LiteralValue(b, lit)))), ONE);
    EndsBy(b, 1, Property("secrets", dynamic), ctx, Got(ctx.secrets(None)), ONE);
    EndsBy(b, 1, Property("env", dynamic), ctx, Fault("unknown_env_variable"), ONE);
    var url := if ctx.appUrl == Undefined then Null else ctx.appUrl;
    var a := if lit == StrLit("FF_APP_URL") then Got(url) else Fault("unknown_env_variable");
    EndsBy(b, 1, Property("env", fixed), ctx, a, ONE);
  }

  /** The member of a value under a key. */
  ghost predicate MemberIs(b: Builtins, obj: Value, key: Value, v: Value) {
    match obj
    case Obj(fields) =>
      var k := if key.Str? then key.s else b.keyText(key);
      v == if k in fields && fields[k] != Undefined then fields[k] else Null
    case Arr(items) =>
      if exists i :: Position(b, key, i) && 0 <= i < |items| && items[i] != Undefined
      then exists i :: Position(b, key, i) && 0 <= i < |items| && v == items[i] else v == Null
    case _ => v == Null
  }

  /** The key names position `i` of a list: a whole number, or a text that begins with one. */
  ghost predicate Position(b: Builtins, key: Value, i: int) {
    key == Num(Finite(i as real)) || (key.Str? && b.parseInt(key.s) == Some(i))
  }

  /** Null has only null members, forbidden names are an error on anything else, and a missing member is null. */
  lemma MemberOf(b: Builtins, obj: Value, key: Value)
    ensures var forbidden := key in {Str("__proto__"), Str("constructor"), Str("prototype")};
            match GetProperty(b, obj, key)
            case Ok(v) => MemberIs(b, obj, key, v) && (forbidden ==> obj in {Null, Undefined})
            case Err(code) => forbidden && obj !in {Null, Undefined} && code == "forbidden_property_access"
  {
    if obj.Arr? {
      var items := obj.items;
      forall i, j | Position(b, key, i) && Position(b, key, j) ensures i == j {
      }
      match key
      case Num(Finite(x)) =>
        forall i | Position(b, key, i) ensures x.Floor == i {
        }
        assert x.Floor as real == x ==> Position(b, key, x.Floor);
      case Str(s) => assert b.parseInt(s).Some? ==> Position(b, key, b.parseInt(s).value);
      case _ =>
    }
  }

  lemma PathTurn(b: Builtins, limit: nat, keys: seq<Key>, current: Value, ctx: Context, m: Meter)
    requires m.ops <= limit
    ensures EvalPath(b, limit, keys, current, ctx, m) ==
            if |keys| == 0 then (Got(current), m) else
            var m1 := Meter(m.ops + 1, m.entries);
            if m1.ops > limit then (OutOfOps, m1) else
            var (key, m2) := if keys[0].Fixed? then (Got(LiteralValue(b, keys[0].lit)), m1) else Eval(b, limit, keys[0].index, ctx, m1);
            if !key.Got? then (key, m2) else
            match GetProperty(b, current, key.value)
            case Err(code) => (Fault(code), m2)
            case Ok(v) => EvalPath(b, limit, keys[1..], v, ctx, m2)
  {
    hide Eval, GetProperty, LiteralValue;
  }

  /** A path with one more key continues where the path without it ends. */
  lemma {:induction false} PathExtends(b: Builtins, limit: nat, keys: seq<Key>, k: Key, current: Value, ctx: Context, m: Meter)
    requires m.ops <= limit && EvalPath(b, limit, keys, current, ctx, m).0.Got?
    ensures var (o, m') := EvalPath(b, limit, keys, current, ctx, m);
            EvalPath(b, limit, keys + [k], current, ctx, m) == EvalPath(b, limit, [k], o.value, ctx, m')
    decreases |keys|
  {
    hide EvalPath, Eval, GetProperty, LiteralValue;
    PathTurn(b, limit, keys, current, ctx, m);
    if |keys| == 0 {
      assert keys + [k] == [k];
    } else {
      assert (keys + [k])[1..] == keys[1..] + [k] && (keys + [k])[0] == keys[0];
      PathTurn(b, limit, keys + [k], current, ctx, m);
      var m1 := Meter(m.ops + 1, m.entries);
      var (key, m2) := if keys[0].Fixed? then (Got(LiteralValue(b, keys[0].lit)), m1) else Eval(b, limit, keys[0].index, ctx, m1);
      PathExtends(b, limit, keys[1..], k, GetProperty(b, current, key.value).value, ctx, m2);
    }
  }

  /**
   * One more key on a path that is walked key by key takes the member of what the path yields, at one more operation and
   * the cost of the key, if it is an expression.
   */
  lemma KeyEnds(b: Builtins, ctx: Context, root: string, from: Value, keys: seq<Key>, o: Value, c: Meter, k: Key, key: Value, ck: Meter)
    requires RootIs(ctx, root, from) && Yields(b, Property(root, keys), ctx, o, c)
    requires match k case Fixed(lit) => key == LiteralValue(b, lit) && ck == START case Dynamic(index) => Yields(b, index, ctx, key, ck)
    ensures Ends(b, Property(root, keys + [k]), ctx,
                 Answered(GetProperty(b, o, key)), Meter(c.ops + 1 + ck.ops, c.entries + ck.entries))
  {
    hide Eval, EvalPath, Ends, Yields, GetProperty, LiteralValue, ResolveRoot;
    var limit := c.ops + 1 + ck.ops;
    YieldsEnds(b, Property(root, keys), ctx, o, c);
    EndsAnywhere(b, limit, Property(root, keys), ctx, START, Got(o), c);
    assert Plus(START, c) == c;
    RootIsWalked(b, ctx, root, from, keys);
    RootIsWalked(b, ctx, root, from, keys + [k]);
    CostsSomething(b, limit, Property(root, keys), ctx);
    PropertyTurn(b, limit, root, keys, ctx);
    PropertyTurn(b, limit, root, keys + [k], ctx);
    PathExtends(b, limit, keys, k, from, ctx, ONE);
    PathTurn(b, limit, [k], o, ctx, c);
    assert [k][0] == k && [k][1..] == [];
    if k.Dynamic? {
      YieldsEnds(b, k.index, ctx, key, ck);
      EndsAnywhere(b, limit, k.index, ctx, Meter(c.ops + 1, c.entries), Got(key), ck);
    }
    var last := Meter(c.ops + 1 + ck.ops, c.entries + ck.entries);
    if GetProperty(b, o, key).Ok? {
      PathTurn(b, limit, [], GetProperty(b, o, key).value, ctx, last);
    }
    EndsBy(b, limit, Property(root, keys + [k]), ctx, Answered(GetProperty(b, o, key)), last);
  }

  lemma RootIsWalked(b: Builtins, ctx: Context, root: string, v: Value, keys: seq<Key>)
    requires RootIs(ctx, root, v)
    ensures ResolveRoot(b, ctx, root, keys) == Walk(v)
  {
  }

  lemma CostsSomething(b: Builtins, limit: nat, node: Node, ctx: Context)
    ensures Eval(b, limit, node, ctx, START).1.ops > 0
  {
    hide Eval;
  }

  // --- Calls ---------------------------------------------------------------------------------------------

  lemma {:induction false} ArgsYield(b: Builtins, limit: nat, args: seq<Node>, i: nat, ctx: Context, m: Meter, acc: seq<Value>,
                                     values: seq<Value>, costs: seq<Meter>)
    requires i <= |args| == |values| == |costs| && Spent(m, costs, i).ops <= limit
    requires forall k :: i <= k < |args| ==> Yields(b, args[k], ctx, values[k], costs[k])
    ensures m.ops <= limit
    ensures EvalArgs(b, limit, args, i, ctx, m, acc) == (Got(acc + values[i..]), Spent(m, costs, i))
    decreases |args| - i
  {
    hide Eval, Ends, Yields;
    SpendingGrows(m, costs, i);
    if i == |args| {
      assert acc + values[i..] == acc;
    } else {
      YieldsEnds(b, args[i], ctx, values[i], costs[i]);
      SpendingGrows(Plus(m, costs[i]), costs, i + 1);
      EndsAnywhere(b, limit, args[i], ctx, m, Got(values[i]), costs[i]);
      ArgsYield(b, limit, args, i + 1, ctx, Plus(m, costs[i]), acc + [values[i]], values, costs);
      assert acc + [values[i]] + values[i + 1..] == acc + values[i..];
    }
  }

  lemma CallTurn(b: Builtins, limit: nat, name: string, args: seq<Node>, ctx: Context)
    requires limit > 0
    ensures var (vs, m1) := EvalArgs(b, limit, args, 0, ctx, ONE, []);
            vs.Got? ==>
              Eval(b, limit, Call(name, args), ctx, START) ==
              if name in {"filter", "map"} then EvalList(b, limit, name == "filter", vs.value, ctx, m1)
              else (Lift(b.call(name, vs.value)), m1)
  {
    hide EvalArgs, EvalList;
  }

  /** Any other function gets the values of all its arguments, in order. */
  lemma CallEnds(b: Builtins, name: string, args: seq<Node>, ctx: Context, values: seq<Value>, costs: seq<Meter>)
    requires name !in {"filter", "map"} && |args| == |values| == |costs|
    requires forall k :: 0 <= k < |args| ==> Yields(b, args[k], ctx, values[k], costs[k])
    ensures Ends(b, Call(name, args), ctx, Answered(b.call(name, values)), Spent(ONE, costs, 0))
  {
    hide Eval, EvalArgs, Yields;
    SpendingGrows(ONE, costs, 0);
    var limit := Spent(ONE, costs, 0).ops;
    ArgsYield(b, limit, args, 0, ctx, ONE, [], values, costs);
    assert [] + values[0..] == values;
    CallTurn(b, limit, name, args, ctx);
    EndsBy(b, limit, Call(name, args), ctx, Lift(b.call(name, values)), Spent(ONE, costs, 0));
  }

  /** The item of a list that `filter` and `map` are at, and its position; there is no `loop` there. */
  function Inside(ctx: Context, item: Value, i: nat): Context {
    Context(ctx.inputs, ctx.steps, None, ctx.trigger, ctx.secrets, ctx.appUrl, ctx.run, item, Num(Finite(i as real)))
  }

  /** The items of `filter` that are kept stand in their order: those with a value that is not falsy. */
  ghost predicate Kept(items: seq<Value>, values: seq<Value>, kept: seq<Value>, at: seq<nat>)
    requires |items| == |values|
  {
    && |at| == |kept| && (forall j :: 0 <= j < |at| ==> at[j] < |items| && kept[j] == items[at[j]])
    && (forall j :: 0 < j < |at| ==> at[j - 1] < at[j])
    && (forall k: nat :: k < |items| ==> (k in at <==> values[k] !in FALSY))
  }

  lemma {:induction false} PickedIsKept(items: seq<Value>, values: seq<Value>) returns (at: seq<nat>)
    requires |items| == |values|
    ensures Kept(items, values, Picked(true, items, values), at)
    decreases |items|
  {
    at := [];
    if |items| > 0 {
      hide Kept;
      var later := PickedIsKept(items[1..], values[1..]);
      FalsyValues(values[0]);
      var shifted := seq(|later|, j requires 0 <= j < |later| => later[j] + 1);
      var first := if values[0] !in FALSY then [0] else [];
      at := first + shifted;
      KeptStep(items, values, Picked(true, items[1..], values[1..]), later, first, shifted);
    }
  }

  lemma KeptStep(items: seq<Value>, values: seq<Value>, kept: seq<Value>, later: seq<nat>, first: seq<nat>, shifted: seq<nat>)
    requires |items| == |values| > 0 && Kept(items[1..], values[1..], kept, later)
    requires first == if values[0] !in FALSY then [0] else []
    requires |shifted| == |later| && forall j :: 0 <= j < |later| ==> shifted[j] == later[j] + 1
    ensures Kept(items, values, (if values[0] !in FALSY then [items[0]] else []) + kept, first + shifted)
  {
    var at, n := first + shifted, |first|;
    forall j | 0 <= j < |at| ensures if j < n then at[j] == 0 else at[j] == later[j - n] + 1 {
    }
    forall k: nat | k < |items| ensures k in at <==> values[k] !in FALSY {
      if k > 0 {
        assert values[1..][k - 1] == values[k];
        ShiftedIn(later, shifted, k);
        assert k in at <==> k in shifted;
      } else {
        assert 0 !in shifted;
        assert k in at <==> k in first;
      }
    }
  }

  lemma ShiftedIn(later: seq<nat>, shifted: seq<nat>, k: nat)
    requires k > 0 && |shifted| == |later| && forall j :: 0 <= j < |later| ==> shifted[j] == later[j] + 1
    ensures k in shifted <==> k - 1 in later
  {
    if k in shifted {
      var j :| 0 <= j < |shifted| && shifted[j] == k;
      assert later[j] == k - 1;
    }
    if k - 1 in later {
      var j :| 0 <= j < |later| && later[j] == k - 1;
      assert shifted[j] == k;
    }
  }

  lemma {:induction false} PickedAll(items: seq<Value>, values: seq<Value>)
    requires |items| == |values|
    ensures Picked(false, items, values) == values
    decreases |items|
  {
    if |items| > 0 {
      PickedAll(items[1..], values[1..]);
    }
  }

  /**
   * `filter` and `map` over a list, with a text that parses: the parsed expression is evaluated with each item and its
   * position; `filter` gives the items it is not falsy for, and `map` its values.
   */
  lemma ListYields(b: Builtins, args: seq<Node>, ctx: Context, items: seq<Value>, text: string, inner: Node, argCosts: seq<Meter>,
                   values: seq<Value>, costs: seq<Meter>)
    returns (kept: seq<Value>, at: seq<nat>)
    requires |args| == |argCosts| == 2 && |items| == |values| == |costs|
    requires Yields(b, args[0], ctx, Arr(items), argCosts[0]) && Yields(b, args[1], ctx, Str(text), argCosts[1])
    requires Lexer.ParseExpression(text) == Good(inner)
    requires forall k :: 0 <= k < |items| ==> Yields(b, inner, Inside(ctx, items[k], k), values[k], costs[k])
    ensures Kept(items, values, kept, at)
    ensures Yields(b, Call("filter", args), ctx, Arr(kept), Spent(Spent(ONE, argCosts, 0), costs, 0))
    ensures Yields(b, Call("map", args), ctx, Arr(values), Spent(Spent(ONE, argCosts, 0), costs, 0))
  {
    hide Eval, EvalArgs, EvalItems, EvalList, Yields, Lexer.ParseExpression, Picked, Kept;
    kept := Picked(true, items, values);
    at := PickedIsKept(items, values);
    PickedAll(items, values);
    ListOf(b, args, ctx, items, text, inner, argCosts, values, costs, true);
    ListOf(b, args, ctx, items, text, inner, argCosts, values, costs, false);
  }

  lemma ListOf(b: Builtins, args: seq<Node>, ctx: Context, items: seq<Value>, text: string, inner: Node, argCosts: seq<Meter>,
               values: seq<Value>, costs: seq<Meter>, keep: bool)
    requires |args| == |argCosts| == 2 && |items| == |values| == |costs|
    requires Yields(b, args[0], ctx, Arr(items), argCosts[0]) && Yields(b, args[1], ctx, Str(text), argCosts[1])
    requires Lexer.ParseExpression(text) == Good(inner)
    requires forall k :: 0 <= k < |items| ==> Yields(b, inner, Inside(ctx, items[k], k), values[k], costs[k])
    ensures Yields(b, Call(if keep then "filter" else "map", args), ctx, Arr(Picked(keep, items, values)),
                   Spent(Spent(ONE, argCosts, 0), costs, 0))
  {
    hide Eval, EvalArgs, EvalItems, EvalList, Yields, Lexer.ParseExpression, Picked, Ends;
    var name := if keep then "filter" else "map";
    var m := Spent(ONE, argCosts, 0);
    SpendingGrows(ONE, argCosts, 0);
    SpendingGrows(m, costs, 0);
    var limit := Spent(m, costs, 0).ops;
    var both := [Arr(items), Str(text)];
    ArgsYield(b, limit, args, 0, ctx, ONE, [], both, argCosts);
    assert [] + both[0..] == both;
    CallTurn(b, limit, name, args, ctx);
    ListTurn(b, limit, keep, items, text, inner, ctx, m);
    forall k | 0 <= k < |items| ensures Yields(b, inner, ElementContext(ctx, items[k], k), values[k], costs[k]) {
      assert ElementContext(ctx, items[k], k) == Inside(ctx, items[k], k);
    }
    ListIsElementwise(b, limit, keep, inner, items, 0, ctx, m, [], values, costs);
    assert items[0..] == items && values[0..] == values;
    assert [] + Picked(keep, items, values) == Picked(keep, items, values);
    EndsBy(b, limit, Call(name, args), ctx, Got(Arr(Picked(keep, items, values))), Spent(m, costs, 0));
    YieldsEnds(b, Call(name, args), ctx, Arr(Picked(keep, items, values)), Spent(m, costs, 0));
  }

  lemma ListTurn(b: Builtins, limit: nat, keep: bool, items: seq<Value>, text: string, inner: Node, ctx: Context, m: Meter)
    requires m.ops <= limit && Lexer.ParseExpression(text) == Good(inner)
    ensures EvalList(b, limit, keep, [Arr(items), Str(text)], ctx, m) == EvalItems(b, limit, keep, inner, items, 0, ctx, m, [])
  {
    hide EvalItems, Lexer.ParseExpression;
  }

  /** Over null they give no items; over anything else, without a text or with other than two arguments, they fail. */
  lemma NoListEnds(b: Builtins, name: string, args: seq<Node>, ctx: Context, values: seq<Value>, costs: seq<Meter>)
    requires name in {"filter", "map"} && |args| == |values| == |costs|
    requires forall k :: 0 <= k < |args| ==> Yields(b, args[k], ctx, values[k], costs[k])
    ensures |args| == 2 && values[0] == Null ==> Ends(b, Call(name, args), ctx, Got(Arr([])), Spent(ONE, costs, 0))
    ensures |args| != 2 || (values[0] != Null && !(values[0].Arr? && values[1].Str?)) ==>
              Ends(b, Call(name, args), ctx, Fault("type_mismatch"), Spent(ONE, costs, 0))
  {
    hide Eval, EvalArgs, EvalItems, Yields, Ends, Lexer.ParseExpression;
    SpendingGrows(ONE, costs, 0);
    var limit := Spent(ONE, costs, 0).ops;
    ArgsYield(b, limit, args, 0, ctx, ONE, [], values, costs);
    assert [] + values[0..] == values;
    CallTurn(b, limit, name, args, ctx);
    var (a, m) := Eval(b, limit, Call(name, args), ctx, START);
    if !a.OutOfOps? {
      EndsBy(b, limit, Call(name, args), ctx, a, m);
    }
  }

  // --- Errors inside calls --------------------------------------------------------------------------------

  lemma {:induction false} ArgsFault(b: Builtins, limit: nat, args: seq<Node>, i: nat, ctx: Context, m: Meter, acc: seq<Value>,
                                     values: seq<Value>, costs: seq<Meter>, code: string, c: Meter)
    requires i <= |values| == |costs| < |args| && Spent(m, costs, i).ops + c.ops <= limit
    requires forall k :: i <= k < |values| ==> Yields(b, args[k], ctx, values[k], costs[k])
    requires Ends(b, args[|values|], ctx, Fault(code), c)
    ensures m.ops <= limit
    ensures EvalArgs(b, limit, args, i, ctx, m, acc) == (Fault(code), Plus(Spent(m, costs, i), c))
    decreases |values| - i
  {
    hide Eval, Ends, Yields;
    SpendingGrows(m, costs, i);
    if i == |values| {
      EndsAnywhere(b, limit, args[i], ctx, m, Fault(code), c);
    } else {
      YieldsEnds(b, args[i], ctx, values[i], costs[i]);
      SpendingGrows(Plus(m, costs[i]), costs, i + 1);
      EndsAnywhere(b, limit, args[i], ctx, m, Got(values[i]), costs[i]);
      ArgsFault(b, limit, args, i + 1, ctx, Plus(m, costs[i]), acc + [values[i]], values, costs, code, c);
    }
  }

  /** The first argument that fails is the last one evaluated, and its error that of the call. */
  lemma ArgFaultIsPassedOn(b: Builtins, name: string, args: seq<Node>, ctx: Context, values: seq<Value>, costs: seq<Meter>,
                           code: string, c: Meter)
    requires |values| == |costs| < |args| && Ends(b, args[|values|], ctx, Fault(code), c)
    requires forall k :: 0 <= k < |values| ==> Yields(b, args[k], ctx, values[k], costs[k])
    ensures Ends(b, Call(name, args), ctx, Fault(code), Plus(Spent(ONE, costs, 0), c))
  {
    hide Eval, EvalArgs, Yields, Ends;
    SpendingGrows(ONE, costs, 0);
    var limit := Spent(ONE, costs, 0).ops + c.ops;
    ArgsFault(b, limit, args, 0, ctx, ONE, [], values, costs, code, c);
    CallFaults(b, limit, name, args, ctx);
    EndsBy(b, limit, Call(name, args), ctx, Fault(code), Plus(Spent(ONE, costs, 0), c));
  }

  lemma CallFaults(b: Builtins, limit: nat, name: string, args: seq<Node>, ctx: Context)
    requires limit > 0
    ensures var (vs, m1) := EvalArgs(b, limit, args, 0, ctx, ONE, []);
            vs.Fault? ==> Eval(b, limit, Call(name, args), ctx, START) == (Fault(vs.code), m1)
  {
    hide EvalArgs, EvalList;
  }

  lemma {:induction false} ItemsFault(b: Builtins, limit: nat, keep: bool, inner: Node, items: seq<Value>, i: nat, ctx: Context, m: Meter,
                                      acc: seq<Value>, values: seq<Value>, costs: seq<Meter>, code: string, c: Meter)
    requires i <= |values| == |costs| < |items| && Spent(m, costs, i).ops + c.ops <= limit
    requires forall k :: i <= k < |values| ==> Yields(b, inner, Inside(ctx, items[k], k), values[k], costs[k])
    requires Ends(b, inner, Inside(ctx, items[|values|], |values|), Fault(code), c)
    ensures m.ops <= limit
    ensures EvalItems(b, limit, keep, inner, items, i, ctx, m, acc) == (Fault(code), Plus(Spent(m, costs, i), c))
    decreases |values| - i
  {
    hide Eval, Ends, Yields, Collect;
    SpendingGrows(m, costs, i);
    var inside := Inside(ctx, items[i], i);
    assert ElementContext(ctx, items[i], i) == inside;
    if i == |values| {
      EndsAnywhere(b, limit, inner, inside, m, Fault(code), c);
    } else {
      YieldsEnds(b, inner, inside, values[i], costs[i]);
      SpendingGrows(Plus(m, costs[i]), costs, i + 1);
      EndsAnywhere(b, limit, inner, inside, m, Got(values[i]), costs[i]);
      var acc' := Collect(keep, acc, items[i], values[i]);
      ItemsFault(b, limit, keep, inner, items, i + 1, ctx, Plus(m, costs[i]), acc', values, costs, code, c);
    }
  }

  /** The first item for which the text of `filter` or `map` fails ends it with that error; a text that does not parse does so at once. */
  lemma ItemFaultIsPassedOn(b: Builtins, name: string, args: seq<Node>, ctx: Context, items: seq<Value>, text: string, argCosts: seq<Meter>,
                            values: seq<Value>, costs: seq<Meter>, code: string, c: Meter)
    requires name in {"filter", "map"} && |args| == |argCosts| == 2 && |values| == |costs|
    requires Yields(b, args[0], ctx, Arr(items), argCosts[0]) && Yields(b, args[1], ctx, Str(text), argCosts[1])
    ensures Lexer.ParseExpression(text).Bad? ==>
              Ends(b, Call(name, args), ctx, Fault(ErrorCode(Lexer.ParseExpression(text).error)), Spent(ONE, argCosts, 0))
    ensures Lexer.ParseExpression(text).Good? && |values| < |items| ==>
              var inner := Lexer.ParseExpression(text).value;
              (forall k :: 0 <= k < |values| ==> Yields(b, inner, Inside(ctx, items[k], k), values[k], costs[k])) &&
              Ends(b, inner, Inside(ctx, items[|values|], |values|), Fault(code), c) ==>
                Ends(b, Call(name, args), ctx, Fault(code), Plus(Spent(Spent(ONE, argCosts, 0), costs, 0), c))
  {
    hide Eval, EvalArgs, EvalItems, EvalList, Yields, Lexer.ParseExpression, Ends, ErrorCode;
    var m := Spent(ONE, argCosts, 0);
    SpendingGrows(ONE, argCosts, 0);
    SpendingGrows(m, costs, 0);
    var limit := Spent(m, costs, 0).ops + c.ops;
    var both := [Arr(items), Str(text)];
    ArgsYield(b, limit, args, 0, ctx, ONE, [], both, argCosts);
    assert [] + both[0..] == both;
    CallTurn(b, limit, name, args, ctx);
    match Lexer.ParseExpression(text)
    case Bad(e) =>
      UnparsedTurn(b, limit, name == "filter", items, text, ctx, m);
      EndsBy(b, limit, Call(name, args), ctx, Fault(ErrorCode(e)), m);
    case Good(inner) =>
      ListTurn(b, limit, name == "filter", items, text, inner, ctx, m);
      if |values| < |items| && Ends(b, inner, Inside(ctx, items[|values|], |values|), Fault(code), c)
         && forall k :: 0 <= k < |values| ==> Yields(b, inner, Inside(ctx, items[k], k), values[k], costs[k]) {
        ItemsFault(b, limit, name == "filter", inner, items, 0, ctx, m, [], values, costs, code, c);
        EndsBy(b, limit, Call(name, args), ctx, Fault(code), Plus(Spent(m, costs, 0), c));
      }
  }

  lemma UnparsedTurn(b: Builtins, limit: nat, keep: bool, items: seq<Value>, text: string, ctx: Context, m: Meter)
    requires m.ops <= limit && Lexer.ParseExpression(text).Bad?
    ensures EvalList(b, limit, keep, [Arr(items), Str(text)], ctx, m) == (Fault(ErrorCode(Lexer.ParseExpression(text).error)), m)
  {
    hide EvalItems, Lexer.ParseExpression;
  }

  /** The error code of a text that cannot be parsed. */
  lemma TextErrors(b: Builtins, limit: nat, expr: string, ctx: Context)
    requires Lexer.ParseExpression(expr).Bad?
    ensures EvaluateExpression(b, limit, expr, ctx) ==
            (Fault(match Lexer.ParseExpression(expr).error
                   case TooLong => "expression_too_long"
                   case Unparseable => "unparseable_expression"
                   case ForbiddenProperty => "forbidden_property_access"
                   case _ => "operation_limit_exceeded"), Meter(0, 0))
  {
    hide Lexer.ParseExpression;
  }
}
