/** The dynamically typed values that cross the JavaScript boundaries of the system. */
module JsValue {

  /** A JavaScript value: numbers are integral here (no NaN, no fractions). */
  datatype Value =
    | Undefined
    | Null
    | Bool(b: bool)
    | Num(n: int)
    | Str(s: string)
    | Obj(fields: map<string, Value>)

  /** JavaScript truthiness: `undefined`, `null`, `false`, `0` and `''` are falsy. */
  predicate Truthy(v: Value)
  {
    match v
    case Undefined => false
    case Null => false
    case Bool(b) => b
    case Num(n) => n != 0
    case Str(s) => s != ""
    case Obj(_) => true
  }

  /** The `typeof` operator (`typeof null` is "object"). */
  function TypeOf(v: Value): string
  {
    match v
    case Undefined => "undefined"
    case Null => "object"
    case Bool(_) => "boolean"
    case Num(_) => "number"
    case Str(_) => "string"
    case Obj(_) => "object"
  }

  /** Property access `o[k]` on a value: missing keys and non-objects give `undefined`. */
  function Field(v: Value, k: string): Value
  {
    if v.Obj? && k in v.fields then v.fields[k] else Undefined
  }
}
