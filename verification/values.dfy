/**
 The JavaScript values the backend inspects, and the one piece of the
 language semantics it leans on: truthiness (`!x`, `x || y`).
 */
module Values {

  /** An optional string-valued variable or field: `None` stands for `null`
      or `undefined`, which the backend never tells apart. */
  datatype Option<+T> = None | Some(value: T)

  /** A JSON-like JavaScript value. Numbers are integers in this model. */
  datatype Value =
    | Undefined
    | Null
    | Bool(b: bool)
    | Num(n: int)
    | Str(s: string)
    | Array(elements: seq<Value>)
    | Object(fields: map<string, Value>)

  /** ECMAScript ToBoolean, restricted to the values above. */
  predicate Truthy(v: Value) {
    match v
    case Undefined => false
    case Null => false
    case Bool(b) => b
    case Num(n) => n != 0
    case Str(s) => s != ""
    case Array(_) => true
    case Object(_) => true
  }

  /** JavaScript `a || b`: the left operand when it is truthy, else the right one. */
  function Or(a: Value, b: Value): Value {
    if Truthy(a) then a else b
  }

  /** An optional string as a JavaScript value (`undefined` when absent). */
  function OfString(o: Option<string>): Value {
    match o
    case None => Undefined
    case Some(s) => Str(s)
  }

  /** The `{ item: null }` body that stands for "nothing is playing". */
  const ItemNull: Value := Object(map["item" := Null])

  /** The `{ ok: true }` body of a handled playback command. */
  const OkBody: Value := Object(map["ok" := Bool(true)])

  /** The `{ error: "Forbidden" }` body of a refused playback command. */
  const ForbiddenBody: Value := Object(map["error" := Str("Forbidden")])
}
