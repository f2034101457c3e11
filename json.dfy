/** JSON-like values that flow through the converter: attribute values of
    entity records and the fields of the generated UI nodes. */
module Json {

  datatype Option<+T> = None | Some(value: T)

  /** A Python value as the converter sees it. `Dict` is an ordered mapping:
      `keys` gives the iteration order, `entries` the values. Numbers are
      modelled as integers. */
  datatype Value =
    | Null
    | Bool(b: bool)
    | Num(n: int)
    | Str(s: string)
    | List(items: seq<Value>)
    | Dict(keys: seq<string>, entries: map<string, Value>)

  /** Python truthiness of a value. */
  predicate Truthy(v: Value)
  {
    match v
    case Null => false
    case Bool(b) => b
    case Num(n) => n != 0
    case Str(s) => s != ""
    case List(xs) => xs != []
    case Dict(_, e) => e != map[]
  }

  /** `d.get(key)` on an attribute mapping: the value, or Null when absent. */
  function Get(m: map<string, Value>, key: string): (r: Value)
    ensures key !in m ==> r == Null
    ensures key in m ==> r == m[key]
  {
    if key in m then m[key] else Null
  }

  /** The value a UI node holds under `key`; Null when the node lacks it. */
  function Field(node: Value, key: string): (r: Value)
    ensures !node.Dict? ==> r == Null
    ensures node.Dict? ==> r == Get(node.entries, key)
  {
    if node.Dict? then Get(node.entries, key) else Null
  }
}
