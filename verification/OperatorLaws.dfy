/** Laws of the comparison operators, and where `==` and the order comparisons part ways. */
module OperatorLaws {
  import opened Prelude
  import opened Values
  import opened Syntax
  import opened Evaluator
  import Utf16

  lemma StringsAreOrdered(a: string, b: string)
    ensures a == b || StringLess(a, b) || StringLess(b, a)
    ensures !(StringLess(a, b) && StringLess(b, a))
    ensures a == b ==> !StringLess(a, b)
  {
    hide Utf16.Units, Utf16.Less;
    Utf16.LessIsTotal(Utf16.Units(a), Utf16.Units(b));
    if Utf16.Units(a) == Utf16.Units(b) {
      Utf16.UnitsInjective(a, b);
    }
  }

  /** Two values that the order comparisons accept, neither of them NaN. */
  predicate Comparable(b: Builtins, l: Value, r: Value) {
    (l.Str? && r.Str?)
    || (ToNumber(b, l).Some? && ToNumber(b, r).Some? && ToNumber(b, l).value != NaN && ToNumber(b, r).value != NaN)
  }

  predicate Holds(b: Builtins, op: BinOp, l: Value, r: Value) {
    Apply(b, op, l, r) == Ok(Bool(true))
  }

  /** Of two comparable values exactly one is less, equal in the order, or greater; the inclusive comparisons negate the strict ones. */
  lemma OrderIsTotal(b: Builtins, l: Value, r: Value)
    requires Comparable(b, l, r)
    ensures !(Holds(b, LtOp, l, r) && Holds(b, GtOp, l, r))
    ensures Holds(b, LteOp, l, r) <==> !Holds(b, GtOp, l, r)
    ensures Holds(b, GteOp, l, r) <==> !Holds(b, LtOp, l, r)
    ensures Holds(b, LteOp, l, r) && Holds(b, GteOp, l, r) <==> !Holds(b, LtOp, l, r) && !Holds(b, GtOp, l, r)
  {
    if l.Str? && r.Str? {
      StringsAreOrdered(l.s, r.s);
    }
  }

  /** Swapping the operands mirrors every comparison, errors included. */
  lemma ComparisonFlips(b: Builtins, l: Value, r: Value)
    ensures Apply(b, LtOp, l, r) == Apply(b, GtOp, r, l)
    ensures Apply(b, LteOp, l, r) == Apply(b, GteOp, r, l)
    ensures Apply(b, LtOp, l, r).Err? <==> Apply(b, GteOp, l, r).Err?
  {
  }

  /** NaN is neither less than, equal to nor greater than anything. */
  lemma NaNComparesFalse(b: Builtins, l: Value, r: Value)
    requires !(l.Str? && r.Str?) && ToNumber(b, l).Some? && ToNumber(b, r).Some?
    requires ToNumber(b, l).value == NaN || ToNumber(b, r).value == NaN
    ensures forall op :: op in {LtOp, LteOp, GtOp, GteOp} ==> Apply(b, op, l, r) == Ok(Bool(false))
  {
  }

  /** The pairs that `==` never coerces although the order comparisons do: null with anything else, a boolean with a string. */
  predicate Uncoerced(l: Value, r: Value) {
    (l.Null? != r.Null?) || (l.Bool? && r.Str?) || (l.Str? && r.Bool?)
  }

  /** For comparable values, `==` says what `<=` and `>=` say together, except on the pairs it does not coerce. */
  lemma EqualityIsOrderEquality(b: Builtins, l: Value, r: Value)
    requires Comparable(b, l, r)
    ensures Holds(b, EqOp, l, r) <==> Holds(b, LteOp, l, r) && Holds(b, GteOp, l, r) && !Uncoerced(l, r)
  {
    if l.Str? && r.Str? {
      StringsAreOrdered(l.s, r.s);
    }
  }

  lemma NullIsNotZero(b: Builtins)
    ensures Holds(b, LteOp, Null, Num(Finite(0.0))) && Holds(b, GteOp, Null, Num(Finite(0.0)))
    ensures !Holds(b, EqOp, Null, Num(Finite(0.0)))
  {
  }

  // --- What the operators compute -------------------------------------------------------------------------

  /** The number a value stands for in arithmetic and in order comparisons. */
  ghost predicate CountsAs(b: Builtins, v: Value, n: Number) {
    || v == Num(n) || (v == Null && n == Finite(0.0)) || (v == Bool(false) && n == Finite(0.0)) || (v == Bool(true) && n == Finite(1.0))
    || (v.Str? && b.parseFloat(v.s) == n && n != NaN)
  }

  lemma NumberOf(b: Builtins, v: Value, n: Number)
    ensures CountsAs(b, v, n) <==> ToNumber(b, v) == Some(n)
  {
  }

  /** Values that are not both texts are compared by the numbers they stand for; the infinities lie outside all others. */
  lemma NumbersAreCompared(b: Builtins, l: Value, r: Value, x: real, y: real, n: Number)
    requires !(l.Str? && r.Str?) && CountsAs(b, l, Finite(x))
    ensures CountsAs(b, r, Finite(y)) ==>
              && Apply(b, LtOp, l, r) == Ok(Bool(x < y)) && Apply(b, LteOp, l, r) == Ok(Bool(x <= y))
              && Apply(b, GtOp, l, r) == Ok(Bool(x > y)) && Apply(b, GteOp, l, r) == Ok(Bool(x >= y))
    ensures CountsAs(b, r, Infinite(false)) ==> Apply(b, LtOp, l, r) == Ok(Bool(true)) && Apply(b, GteOp, l, r) == Ok(Bool(false))
    ensures CountsAs(b, r, Infinite(true)) ==> Apply(b, LtOp, l, r) == Ok(Bool(false)) && Apply(b, GteOp, l, r) == Ok(Bool(true))
    ensures Apply(b, LtOp, Num(Infinite(true)), Num(Infinite(false))) == Ok(Bool(true))
  {
    NumberOf(b, l, Finite(x));
    NumberOf(b, r, Finite(y));
    NumberOf(b, r, Infinite(false));
    NumberOf(b, r, Infinite(true));
  }

  /** Two texts are compared by their UTF-16 code units. */
  lemma TextsAreCompared(b: Builtins, s: string, t: string)
    ensures Apply(b, LtOp, Str(s), Str(t)) == Ok(Bool(Utf16.Precedes(Utf16.Units(s), Utf16.Units(t))))
    ensures Apply(b, GtOp, Str(s), Str(t)) == Ok(Bool(Utf16.Precedes(Utf16.Units(t), Utf16.Units(s))))
    ensures Apply(b, LteOp, Str(s), Str(t)) == Ok(Bool(s == t || Utf16.Precedes(Utf16.Units(s), Utf16.Units(t))))
    ensures Apply(b, GteOp, Str(s), Str(t)) == Ok(Bool(s == t || Utf16.Precedes(Utf16.Units(t), Utf16.Units(s))))
  {
    hide Utf16.Less, Utf16.Precedes, Utf16.Units;
    Utf16.LessIsFirstDifference(Utf16.Units(s), Utf16.Units(t));
    Utf16.LessIsFirstDifference(Utf16.Units(t), Utf16.Units(s));
  }

  /** A comparison fails exactly when the operands are not both texts and one of them stands for no number. */
  lemma NothingToCompare(b: Builtins, l: Value, r: Value, op: BinOp)
    requires op in {LtOp, LteOp, GtOp, GteOp}
    ensures Apply(b, op, l, r).Err? <==> !(l.Str? && r.Str?) && ((forall n :: !CountsAs(b, l, n)) || forall n :: !CountsAs(b, r, n))
    ensures Apply(b, op, l, r).Err? ==> Apply(b, op, l, r) == Err("type_mismatch")
  {
    hide Utf16.Less, Utf16.Units, CountsAs;
    forall v, n ensures CountsAs(b, v, n) <==> ToNumber(b, v) == Some(n) {
      NumberOf(b, v, n);
    }
    if ToNumber(b, l).Some? {
      assert CountsAs(b, l, ToNumber(b, l).value);
    }
    if ToNumber(b, r).Some? {
      assert CountsAs(b, r, ToNumber(b, r).value);
    }
  }

  /** Two texts are joined by a plus; otherwise the numbers that the operands stand for are combined. */
  lemma ArithmeticCombines(b: Builtins, op: BinOp, l: Value, r: Value, x: Number, y: Number)
    requires op in {AddOp, SubOp, MulOp, DivOp, ModOp} && CountsAs(b, l, x) && CountsAs(b, r, y)
    ensures Apply(b, op, l, r) ==
            if op == AddOp && l.Str? && r.Str? then Ok(Str(l.s + r.s))
            else if op == AddOp && ((l.Str? && r.Num?) || (l.Num? && r.Str?)) then Err("type_mismatch")
            else if op in {DivOp, ModOp} && y == Finite(0.0) then Err("type_mismatch")
            else Ok(Num(b.arith(op, x, y)))
  {
    NumberOf(b, l, x);
    NumberOf(b, r, y);
  }

  /** Texts are joined whatever they hold; any other operand that stands for no number is an error. */
  lemma ArithmeticOnOthers(b: Builtins, op: BinOp, l: Value, r: Value)
    requires op in {AddOp, SubOp, MulOp, DivOp, ModOp} && ((forall n :: !CountsAs(b, l, n)) || forall n :: !CountsAs(b, r, n))
    ensures Apply(b, op, l, r) == if op == AddOp && l.Str? && r.Str? then Ok(Str(l.s + r.s)) else Err("type_mismatch")
  {
    hide CountsAs;
    forall v, n ensures CountsAs(b, v, n) <==> ToNumber(b, v) == Some(n) {
      NumberOf(b, v, n);
    }
    if ToNumber(b, l).Some? {
      assert CountsAs(b, l, ToNumber(b, l).value);
    }
    if ToNumber(b, r).Some? {
      assert CountsAs(b, r, ToNumber(b, r).value);
    }
  }
}
