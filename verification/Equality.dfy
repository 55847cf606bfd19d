/** `isEqual`: deep equality with the language's coercions. */
module Equality {
  import opened Values

  const PROTO := "__proto__"

  /**
   * `parseFloat` is a parameter. The `in` of the object case also finds inherited names: every one of them is a
   * method, equal to no value, except `__proto__`, which looks like an object without keys.
   */
  predicate IsEqual(parseFloat: string -> Number, l: Value, r: Value) {
    match (l, r)
    case (Null, Null) => true
    case (Arr(a), Arr(b)) => |a| == |b| && forall i :: 0 <= i < |a| ==> IsEqual(parseFloat, a[i], b[i])
    case (Obj(a), Obj(b)) =>
      |a| == |b| &&
      forall k :: k in a ==> if k in b then IsEqual(parseFloat, a[k], b[k]) else k == PROTO && a[k] == Obj(map[])
    case (Num(a), Num(b)) => SameNumber(a, b)
    case (Str(a), Str(b)) => a == b
    case (Bool(a), Bool(b)) => a == b
    case (Num(a), Str(b)) => SameNumber(a, parseFloat(b))
    case (Str(a), Num(b)) => SameNumber(parseFloat(a), b)
    case (Bool(a), Num(b)) => SameNumber(FromBool(a), b)
    case (Num(a), Bool(b)) => SameNumber(a, FromBool(b))
    case _ => false
  }

  /** `===` on numbers. */
  predicate SameNumber(a: Number, b: Number) {
    a == b && a != NaN
  }

  function FromBool(b: bool): Number {
    Finite(if b then 1.0 else 0.0)
  }

  /** No object inside has an own `__proto__` key holding an empty object. */
  ghost predicate PlainKeys(v: Value) {
    match v
    case Arr(items) => forall i :: 0 <= i < |items| ==> PlainKeys(items[i])
    case Obj(fields) =>
      (PROTO in fields ==> fields[PROTO] != Obj(map[])) && forall k :: k in fields ==> PlainKeys(fields[k])
    case _ => true
  }

  /** Neither NaN nor undefined occurs inside. */
  ghost predicate Definite(v: Value) {
    match v
    case Undefined => false
    case Num(n) => n != NaN
    case Arr(items) => forall i :: 0 <= i < |items| ==> Definite(items[i])
    case Obj(fields) => forall k :: k in fields ==> Definite(fields[k])
    case _ => true
  }

  /** One-sided containment between key sets of the same size forces them equal. */
  lemma SameKeys(a: set<string>, b: set<string>)
    requires |a| == |b| && a <= b
    ensures a == b
  {
    assert |b - a| == |b| - |a|;
  }

  lemma {:induction false} EqualIsSymmetric(parseFloat: string -> Number, l: Value, r: Value)
    requires PlainKeys(l) && PlainKeys(r)
    ensures IsEqual(parseFloat, l, r) <==> IsEqual(parseFloat, r, l)
    decreases l
  {
    match (l, r)
    case (Arr(a), Arr(b)) =>
      forall i | 0 <= i < |a| && i < |b| ensures IsEqual(parseFloat, a[i], b[i]) <==> IsEqual(parseFloat, b[i], a[i]) {
        EqualIsSymmetric(parseFloat, a[i], b[i]);
      }
    case (Obj(a), Obj(b)) =>
      forall k | k in a && k in b ensures IsEqual(parseFloat, a[k], b[k]) <==> IsEqual(parseFloat, b[k], a[k]) {
        EqualIsSymmetric(parseFloat, a[k], b[k]);
      }
      if IsEqual(parseFloat, l, r) {
        SameKeys(a.Keys, b.Keys);
      }
      if IsEqual(parseFloat, r, l) {
        SameKeys(b.Keys, a.Keys);
      }
    case _ =>
  }

  /** A value equals itself exactly when it holds neither NaN nor undefined. */
  lemma {:induction false} EqualIsReflexiveOn(parseFloat: string -> Number, v: Value)
    ensures IsEqual(parseFloat, v, v) <==> Definite(v)
    decreases v
  {
    match v
    case Arr(items) =>
      forall i | 0 <= i < |items| ensures IsEqual(parseFloat, items[i], items[i]) <==> Definite(items[i]) {
        EqualIsReflexiveOn(parseFloat, items[i]);
      }
    case Obj(fields) =>
      forall k | k in fields ensures IsEqual(parseFloat, fields[k], fields[k]) <==> Definite(fields[k]) {
        EqualIsReflexiveOn(parseFloat, fields[k]);
      }
    case _ =>
  }

  /** At some matching place a number meets a text or a boolean: the pairs that are compared with coercion. */
  ghost predicate Mixes(l: Value, r: Value) {
    match (l, r)
    case (Num(_), Str(_)) => true
    case (Num(_), Bool(_)) => true
    case (Str(_), Num(_)) => true
    case (Bool(_), Num(_)) => true
    case (Arr(a), Arr(b)) => exists i :: 0 <= i < |a| && i < |b| && Mixes(a[i], b[i])
    case (Obj(a), Obj(b)) => exists k :: k in a && k in b && Mixes(a[k], b[k])
    case _ => false
  }

  /** Where nothing is coerced, a definite value equals exactly itself: item by item, and key by key. */
  lemma {:induction false} EqualIffSame(parseFloat: string -> Number, l: Value, r: Value)
    requires Definite(l) && PlainKeys(l) && !Mixes(l, r)
    ensures IsEqual(parseFloat, l, r) <==> l == r
    decreases l
  {
    match (l, r)
    case (Arr(a), Arr(b)) =>
      forall i | 0 <= i < |a| && i < |b| ensures IsEqual(parseFloat, a[i], b[i]) <==> a[i] == b[i] {
        EqualIffSame(parseFloat, a[i], b[i]);
      }
    case (Obj(a), Obj(b)) =>
      forall k | k in a && k in b ensures IsEqual(parseFloat, a[k], b[k]) <==> a[k] == b[k] {
        EqualIffSame(parseFloat, a[k], b[k]);
      }
      if IsEqual(parseFloat, l, r) {
        SameKeys(a.Keys, b.Keys);
        assert a == b;
      }
    case _ =>
  }

  /** A number equals a text that reads as it, and a boolean that is 1 or 0 for it; nothing else is coerced. */
  lemma CoercedPairs(parseFloat: string -> Number, n: Number, s: string, t: bool)
    ensures IsEqual(parseFloat, Num(n), Str(s)) <==> n != NaN && parseFloat(s) == n
    ensures IsEqual(parseFloat, Str(s), Num(n)) <==> n != NaN && parseFloat(s) == n
    ensures IsEqual(parseFloat, Num(n), Bool(t)) <==> n == Finite(if t then 1.0 else 0.0)
    ensures IsEqual(parseFloat, Bool(t), Num(n)) <==> n == Finite(if t then 1.0 else 0.0)
    ensures !IsEqual(parseFloat, Str(s), Bool(t)) && !IsEqual(parseFloat, Bool(t), Str(s))
  {
  }

  // --- Exactly the plain values are compared symmetrically ------------------------------------------

  predicate Offending(fields: map<string, Value>) {
    PROTO in fields && fields[PROTO] == Obj(map[])
  }

  /** A key that is longer than every key of the set. */
  ghost function Longer(keys: set<string>): (key: string)
    ensures |key| > |PROTO| && forall k :: k in keys ==> |k| < |key|
  {
    if keys == {} then PROTO + "_" else
    var k :| k in keys;
    var rest := Longer(keys - {k});
    if |rest| > |k| then rest else k + "_"
  }

  /** The value with every offending key replaced by a fresh one holding null. */
  ghost function Repair(v: Value): Value {
    match v
    case Arr(items) => Arr(seq(|items|, i requires 0 <= i < |items| => Repair(items[i])))
    case Obj(fields) =>
      var own := map k | k in fields && !(k == PROTO && Offending(fields)) :: Repair(fields[k]);
      Obj(if Offending(fields) then own[Longer(fields.Keys) := Null] else own)
    case _ => v
  }

  lemma RepairedFields(fields: map<string, Value>)
    ensures var r := Repair(Obj(fields)).fields;
            && |r| == |fields|
            && (forall k :: k in fields && !(k == PROTO && Offending(fields)) ==> k in r && r[k] == Repair(fields[k]))
            && (Offending(fields) ==> PROTO !in r && Longer(fields.Keys) in r && Longer(fields.Keys) !in fields)
            && (forall k :: k in r && k !in fields ==> r[k] == Null && Offending(fields))
  {
    var r := Repair(Obj(fields)).fields;
    var spare := Longer(fields.Keys);
    assert spare !in fields;
    if Offending(fields) {
      assert r.Keys == fields.Keys - {PROTO} + {spare};
    } else {
      assert r.Keys == fields.Keys;
    }
    assert |r.Keys| == |fields.Keys|;
  }

  /** An object with a member is repaired to one with a member. */
  lemma RepairKeepsEmpty(v: Value)
    ensures Repair(v) == Obj(map[]) <==> v == Obj(map[])
  {
    if v.Obj? {
      RepairedFields(v.fields);
      assert |v.fields| == 0 <==> v.fields == map[];
    }
  }

  lemma {:induction false} RepairIsPlain(v: Value)
    ensures PlainKeys(Repair(v))
    decreases v
  {
    match v
    case Arr(items) =>
      forall i | 0 <= i < |items| ensures PlainKeys(Repair(items[i])) {
        RepairIsPlain(items[i]);
      }
    case Obj(fields) =>
      hide Repair;
      RepairedFields(fields);
      var r := Repair(v).fields;
      forall k | k in r ensures PlainKeys(r[k]) {
        if k in fields {
          RepairIsPlain(fields[k]);
        }
      }
      if PROTO in r {
        RepairKeepsEmpty(fields[PROTO]);
      }
    case _ =>
  }

  ghost predicate Repairs(parseFloat: string -> Number, v: Value) {
    IsEqual(parseFloat, v, Repair(v)) && (IsEqual(parseFloat, Repair(v), v) ==> PlainKeys(v))
  }

  lemma ItemsRepaired(parseFloat: string -> Number, items: seq<Value>)
    requires forall i :: 0 <= i < |items| ==> Repairs(parseFloat, items[i])
    ensures Repairs(parseFloat, Arr(items))
  {
    assert forall i :: 0 <= i < |items| ==> Repair(Arr(items)).items[i] == Repair(items[i]);
    hide Repair;
  }

  lemma FieldsRepaired(parseFloat: string -> Number, fields: map<string, Value>)
    requires forall k :: k in fields ==> Repairs(parseFloat, fields[k])
    requires Definite(Obj(fields))
    ensures Repairs(parseFloat, Obj(fields))
  {
    assert Repair(Obj(fields)).Obj?;
    hide Repair, IsEqual, PlainKeys;
    RepairedFields(fields);
    var r := Repair(Obj(fields)).fields;
    SameFields(parseFloat, fields, r);
    SameFields(parseFloat, r, fields);
    assert forall k :: k in fields ==> Repairs(parseFloat, fields[k]);
    if Offending(fields) {
      assert Longer(fields.Keys) in r && Longer(fields.Keys) !in fields;
    }
    PlainFields(fields);
  }

  lemma SameFields(parseFloat: string -> Number, a: map<string, Value>, b: map<string, Value>)
    ensures IsEqual(parseFloat, Obj(a), Obj(b)) <==>
              |a| == |b| && forall k :: k in a ==> if k in b then IsEqual(parseFloat, a[k], b[k]) else k == PROTO && a[k] == Obj(map[])
  {
  }

  lemma PlainFields(fields: map<string, Value>)
    ensures PlainKeys(Obj(fields)) <==> !Offending(fields) && forall k :: k in fields ==> PlainKeys(fields[k])
  {
  }

  lemma ScalarRepaired(parseFloat: string -> Number, v: Value)
    requires !v.Arr? && !v.Obj? && Definite(v)
    ensures Repairs(parseFloat, v)
  {
  }

  /** A definite value equals its repaired form; the repaired form equals it back only if there was nothing to repair. */
  lemma {:induction false} EqualsRepaired(parseFloat: string -> Number, v: Value)
    requires Definite(v)
    ensures IsEqual(parseFloat, v, Repair(v))
    ensures IsEqual(parseFloat, Repair(v), v) ==> PlainKeys(v)
    decreases v
  {
    hide Repair, IsEqual, PlainKeys;
    match v
    case Arr(items) =>
      forall i | 0 <= i < |items| ensures Repairs(parseFloat, items[i]) {
        EqualsRepaired(parseFloat, items[i]);
      }
      ItemsRepaired(parseFloat, items);
    case Obj(fields) =>
      forall k | k in fields ensures Repairs(parseFloat, fields[k]) {
        EqualsRepaired(parseFloat, fields[k]);
      }
      FieldsRepaired(parseFloat, fields);
    case _ => ScalarRepaired(parseFloat, v);
  }

  /** A definite value is compared symmetrically with every plain value exactly when it is plain itself. */
  lemma SymmetricIffPlain(parseFloat: string -> Number, l: Value)
    requires Definite(l)
    ensures PlainKeys(l) <==> forall r :: PlainKeys(r) ==> (IsEqual(parseFloat, l, r) <==> IsEqual(parseFloat, r, l))
  {
    if PlainKeys(l) {
      forall r | PlainKeys(r) ensures IsEqual(parseFloat, l, r) <==> IsEqual(parseFloat, r, l) {
        EqualIsSymmetric(parseFloat, l, r);
      }
    } else {
      RepairIsPlain(l);
      EqualsRepaired(parseFloat, l);
    }
  }

  /** Every definite value with an offending key, which JSON input can carry, equals some plain value that does not equal it. */
  lemma ProtoKeyBreaksSymmetry(parseFloat: string -> Number, l: Value) returns (r: Value)
    requires Definite(l) && !PlainKeys(l)
    ensures PlainKeys(r) && IsEqual(parseFloat, l, r) && !IsEqual(parseFloat, r, l)
  {
    r := Repair(l);
    RepairIsPlain(l);
    EqualsRepaired(parseFloat, l);
  }
}
