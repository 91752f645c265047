/** JavaScript values as they appear in table cells, item fields and configuration. */
module JsValue {

  datatype Option<+T> = None | Some(value: T)

  /** A JavaScript value. Finite numbers are reals; NaN is its own case. */
  datatype Value =
    | Undefined
    | Null
    | Bool(b: bool)
    | Num(x: real)
    | NaN
    | Str(s: string)

  /** JavaScript truthiness: undefined, null, false, 0, NaN and "" are falsy. */
  predicate Truthy(v: Value) {
    match v
    case Undefined => false
    case Null => false
    case Bool(b) => b
    case Num(x) => x != 0.0
    case NaN => false
    case Str(s) => s != ""
  }

  /** The expression `a || b`. */
  function Or(a: Value, b: Value): (r: Value)
    ensures r == a || r == b
    ensures Truthy(a) ==> r == a
    ensures !Truthy(a) ==> r == b
    ensures Truthy(r) <==> Truthy(a) || Truthy(b)
  {
    if Truthy(a) then a else b
  }

  /**
   * `parseFloat(v)`, with None standing for NaN. How a string is parsed is the
   * parameter `parseText`; a finite number parses to itself, and null,
   * undefined, booleans and NaN (whose strings are not numerals) give NaN.
   */
  function ParseFloat(v: Value, parseText: string -> Option<real>): (r: Option<real>)
    ensures v.Num? ==> r == Some(v.x)
    ensures r.Some? ==> v.Num? || v.Str?
  {
    match v
    case Num(x) => Some(x)
    case Str(s) => parseText(s)
    case _ => None
  }

  /** String conversion, as in a template literal; `numberText` formats numbers. */
  function ToText(v: Value, numberText: real -> string): string {
    match v
    case Undefined => "undefined"
    case Null => "null"
    case Bool(b) => if b then "true" else "false"
    case Num(x) => numberText(x)
    case NaN => "NaN"
    case Str(s) => s
  }
}
