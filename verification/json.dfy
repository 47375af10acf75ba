/** A JSON document as Python's `json` module decodes it, with the two
    Python behaviours the submitter relies on: truthiness (`if x:`) and the
    dictionary lookup `dict.get(key)`. */
module Json {
  import opened Wrappers

  /** `null`, booleans, integers, floats, strings, lists and objects; an
      object decodes to a dict, so a key occurs at most once. */
  datatype Value =
    | Null
    | Bool(b: bool)
    | Int(i: int)
    | Float(f: real)
    | String(s: string)
    | Array(items: seq<Value>)
    | Object(fields: map<string, Value>)

  /** Python truthiness of a decoded value: `None`, `False`, zero and the
      empty string, list and dict are false; everything else is true. */
  predicate Truthy(v: Value)
  {
    match v
    case Null => false
    case Bool(b) => b
    case Int(i) => i != 0
    case Float(f) => f != 0.0
    case String(s) => |s| > 0
    case Array(items) => |items| > 0
    case Object(fields) => |fields| > 0
  }

  /** The name of the Python type a value decodes to, as `type(v).__name__`. */
  function TypeName(v: Value): string
  {
    match v
    case Null => "NoneType"
    case Bool(_) => "bool"
    case Int(_) => "int"
    case Float(_) => "float"
    case String(_) => "str"
    case Array(_) => "list"
    case Object(_) => "dict"
  }

  /** `fields.get(key)`: the value under `key`, or `None` when it is absent. */
  function Get(fields: map<string, Value>, key: string): (r: Option<Value>)
    ensures r.Some? <==> key in fields
    ensures r.Some? ==> r.value == fields[key]
  {
    if key in fields then Some(fields[key]) else None
  }
}
