/**
 * The JavaScript value notions the gateway relies on: an optional value
 * (`undefined`/`null` versus present), the JSON-like values carried in request
 * and response bodies, and truthiness, which the source uses for its
 * `x || fallback` defaults and its `if (!x)` guards.
 */
module JsValues {

  datatype Option<+T> = None | Some(value: T)

  /**
   * A JSON-like value. Numbers are integers: fractional numbers and NaN never
   * reach the modelled branches.
   */
  datatype Value =
    | Undefined
    | Null
    | Bool(b: bool)
    | Num(n: int)
    | Str(s: string)
    | Arr(items: seq<Value>)
    | Obj(fields: map<string, Value>)

  /** JavaScript truthiness: `undefined`, `null`, `false`, `0` and `''` are falsy. */
  predicate Truthy(v: Value) {
    match v
    case Undefined => false
    case Null => false
    case Bool(b) => b
    case Num(n) => n != 0
    case Str(s) => s != ""
    case Arr(_) => true
    case Obj(_) => true
  }

  /** The empty object literal `{}`. */
  const EmptyObject: Value := Obj(map[])

  /** The expression `v || fallback`. */
  function OrElse(v: Value, fallback: Value): Value {
    if Truthy(v) then v else fallback
  }
}
