/** The JavaScript values that workflow expressions and step outputs range over. */
module Values {
  /** A JavaScript number: rounding is not modelled, NaN and the infinities are. */
  datatype Number = NaN | Infinite(negative: bool) | Finite(r: real)

  datatype Value =
    | Undefined
    | Null
    | Bool(b: bool)
    | Num(n: Number)
    | Str(s: string)
    | Arr(items: seq<Value>)
    | Obj(fields: map<string, Value>)

  /** Truthiness as the expression language defines it (an empty object is truthy, and so is NaN). */
  predicate IsTruthy(v: Value) {
    match v
    case Undefined => false
    case Null => false
    case Bool(b) => b
    case Num(n) => n != Finite(0.0)
    case Str(s) => |s| > 0
    case Arr(items) => |items| > 0
    case Obj(_) => true
  }

  /** The values that count as false. */
  const FALSY: set<Value> := {Undefined, Null, Bool(false), Num(Finite(0.0)), Str(""), Arr([])}

  lemma FalsyValues(v: Value)
    ensures IsTruthy(v) <==> v !in FALSY
  {
  }

  /** `v ?? null`. */
  function OrNull(v: Value): Value {
    if v.Undefined? then Null else v
  }
}
