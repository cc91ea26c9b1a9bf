/**
 * JSON values as the client and the server exchange them, with the two truthiness rules
 * the code relies on: JavaScript's (`x ? … : …`, `a || b`) and Python's (`if x`, `x or y`).
 * Numbers are kept as exact reals; floating-point rounding is not modelled.
 */
module JsonData {
  import opened Wrappers

  datatype Json =
    | Null
    | Bool(b: bool)
    | Num(n: real)
    | Str(s: string)
    | Arr(items: seq<Json>)
    | Obj(fields: map<string, Json>)

  /** JavaScript truthiness: arrays and objects are truthy even when empty. */
  predicate JsTruthy(v: Json) {
    match v
    case Null => false
    case Bool(b) => b
    case Num(n) => n != 0.0
    case Str(s) => s != ""
    case Arr(_) => true
    case Obj(_) => true
  }

  /** JavaScript truthiness of an optional value, `undefined` and `null` being falsy. */
  predicate JsPresent(v: Option<Json>) {
    v.Some? && JsTruthy(v.value)
  }

  /** JavaScript truthiness of `string | null`. */
  predicate JsTextPresent(s: Option<string>) {
    s.Some? && s.value != ""
  }

  /** Python truthiness: empty lists and dicts are falsy. */
  predicate PyTruthy(v: Json) {
    match v
    case Null => false
    case Bool(b) => b
    case Num(n) => n != 0.0
    case Str(s) => s != ""
    case Arr(items) => items != []
    case Obj(fields) => fields != map[]
  }

  /** Python's `d.get(key)` on a dict: None when the key is absent. */
  function Get(d: map<string, Json>, key: string): Json {
    if key in d then d[key] else Null
  }

  /** Python's `a or b`: the first operand when it is truthy, else the second. */
  function PyOr(a: Json, b: Json): (r: Json)
    ensures PyTruthy(r) <==> PyTruthy(a) || PyTruthy(b)
    ensures r == a || r == b
  {
    if PyTruthy(a) then a else b
  }
}
