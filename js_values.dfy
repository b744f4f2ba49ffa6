/** JavaScript values as the world builder, the stepper and the colour code see them. */
module JsValues {
  import opened Wrappers

  /** A JavaScript number: a finite value (kept exact, IEEE-754 rounding is not modelled)
      or one of the three non-finite values. */
  datatype Number = Finite(value: real) | PosInf | NegInf | NaN

  /** A JavaScript value produced by JSON.parse or handed over by a caller.
      `Undefined` is both the value `undefined` and what reading a missing member gives. */
  datatype Value =
    | Undefined
    | Null
    | Bool(b: bool)
    | Num(n: Number)
    | Str(s: string)
    | Arr(items: seq<Value>)
    | Obj(fields: map<string, Value>)

  /** `typeof v === "object"`: true of objects, arrays and also of null. */
  predicate IsObjectLike(v: Value)
  {
    v.Null? || v.Arr? || v.Obj?
  }

  /** `typeof v === "number" && !isNaN(v)`: true of every number but NaN, infinities included. */
  predicate IsNumber(v: Value)
  {
    v.Num? && !v.n.NaN?
  }

  /** `typeof v === "boolean" || v === undefined`. */
  predicate IsBooleanOrUndefined(v: Value)
  {
    v.Bool? || v.Undefined?
  }

  /** `(typeof v === "number" && !isNaN(v)) || v === undefined`. */
  predicate IsNumberOrUndefined(v: Value)
  {
    IsNumber(v) || v.Undefined?
  }

  /** Reading a member of `v` throws a TypeError exactly when `v` is undefined or null. */
  predicate Readable(v: Value)
  {
    !v.Undefined? && !v.Null?
  }

  /** `v[key]` for a readable `v`: the member of an object, `undefined` for anything else
      (built-in members such as `length` and inherited prototype members are not modelled). */
  function Get(v: Value, key: string): Value
  {
    if v.Obj? && key in v.fields then v.fields[key] else Undefined
  }

  /** `v[i]` on an array: the element, or `undefined` past the end. */
  function Element(v: Value, i: nat): Value
  {
    if v.Arr? && i < |v.items| then v.items[i] else Undefined
  }

  /** The JavaScript truth value of `v` (no -0 in this model). */
  predicate Truthy(v: Value)
  {
    match v
    case Undefined => false
    case Null => false
    case Bool(b) => b
    case Num(n) => !(n == Finite(0.0) || n.NaN?)
    case Str(s) => s != ""
    case Arr(_) => true
    case Obj(_) => true
  }

  /** `x > y` on numbers, as JavaScript compares them (false whenever NaN is involved). */
  predicate Greater(x: Number, y: Number)
  {
    match (x, y)
    case (NaN, _) => false
    case (_, NaN) => false
    case (PosInf, PosInf) => false
    case (PosInf, _) => true
    case (NegInf, _) => false
    case (Finite(a), PosInf) => false
    case (Finite(a), NegInf) => true
    case (Finite(a), Finite(b)) => a > b
  }

  /** True when the real `x` is a whole number. */
  predicate IsWhole(x: real)
  {
    x == x.Floor as real
  }
}
