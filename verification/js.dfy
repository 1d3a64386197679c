/** The small slice of JavaScript value semantics the app's decisions depend on:
    JSON-shaped values, truthiness, and property access that throws on
    `null`/`undefined`. Numbers are integers (no NaN, no fractions). */
module Js {

  datatype Value =
    | Undefined
    | Null
    | Bool(b: bool)
    | Num(n: int)
    | Str(s: string)
    | Arr(items: seq<Value>)
    | Obj(fields: map<string, Value>)

  /** JavaScript truthiness: `undefined`, `null`, `false`, `0` and `''` are falsy;
      every other value (including empty arrays and objects) is truthy. */
  predicate Truthy(v: Value) {
    match v
    case Undefined => false
    case Null => false
    case Bool(b) => b
    case Num(n) => n != 0
    case Str(s) => s != ""
    case Arr(_) => true
    case Obj(_) => true
  }

  /** The result of evaluating `v.key`: a TypeError, or a value. */
  datatype Access = Threw | Got(value: Value)

  /** `v.key`: throws on `null`/`undefined`, reads an own field of an object,
      and yields `undefined` for a missing field or a primitive/array, for the
      keys this model reads (none of them is `length` or a prototype member). */
  function Member(v: Value, key: string): (r: Access)
    ensures r.Threw? <==> v.Undefined? || v.Null?
    ensures v.Obj? ==> r == Got(if key in v.fields then v.fields[key] else Undefined)
  {
    match v
    case Undefined => Threw
    case Null => Threw
    case Obj(f) => if key in f then Got(f[key]) else Got(Undefined)
    case _ => Got(Undefined)
  }

  /** `v?.key` style read used where the screen has already ruled out a throw,
      or where a throw and `undefined` lead to the same branch. */
  function Field(v: Value, key: string): Value {
    match Member(v, key)
    case Threw => Undefined
    case Got(x) => x
  }
}
