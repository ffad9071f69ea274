/** The JSON-like values the Python code passes around in dicts, with
    Python's truthiness and the `d.get(k)` / `a or b` idioms built on it. */
module Json {

  /** A Python value as it appears in request bodies, metadata and stored
      documents. `Time` is a timestamp object from the document store (it has
      `isoformat()`); everything else is plain JSON. */
  datatype Value =
    | Null
    | Bool(b: bool)
    | Int(i: int)
    | Real(r: real)
    | Str(s: string)
    | List(items: seq<Value>)
    | Obj(fields: map<string, Value>)
    | Time(iso: string)

  type Dict = map<string, Value>

  /** Python's `bool(v)`. */
  predicate Truthy(v: Value) {
    match v
    case Null => false
    case Bool(b) => b
    case Int(i) => i != 0
    case Real(r) => r != 0.0
    case Str(s) => s != ""
    case List(xs) => xs != []
    case Obj(m) => m != map[]
    case Time(_) => true
  }

  /** `d.get(k)`: the stored value, or `None` when the key is absent. */
  function Get(d: Dict, k: string): Value {
    if k in d then d[k] else Null
  }

  /** Python's `a or b`: the first operand when it is truthy, else the second. */
  function Or(a: Value, b: Value): Value {
    if Truthy(a) then a else b
  }

  /** The empty dict `{}`, which Python treats as false. */
  const EmptyObj: Value := Obj(map[])
}
