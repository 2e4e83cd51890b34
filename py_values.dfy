/**
 * Dynamically-typed values as the graph driver hands them back, one record
 * field at a time, together with the few Python operations the services apply
 * to them: truthiness, `a or b`, `dict.get` and `getattr`.
 */
module PyValues {

  datatype Value =
    | Null
    | Bool(b: bool)
    | Int(i: int)
    | Str(s: string)
    | List(items: seq<Value>)
    | Dict(entries: map<string, Value>)
    /** An object that is not a dict; `attrs` are its attributes. */
    | Obj(attrs: map<string, Value>)

  /** One result row of a query: field name to value (what `record.data()` yields). */
  type Record = map<string, Value>

  /** Python truthiness: None, False, 0, "", [] and {} are false; other objects are true. */
  predicate Truthy(v: Value) {
    match v
    case Null => false
    case Bool(b) => b
    case Int(i) => i != 0
    case Str(s) => s != ""
    case List(items) => items != []
    case Dict(entries) => entries != map[]
    case Obj(_) => true
  }

  /** Python's `a or b`: the first operand when it is truthy, otherwise the second. */
  function Or(a: Value, b: Value): Value {
    if Truthy(a) then a else b
  }

  /** `d.get(key, default)` */
  function GetOr(d: map<string, Value>, key: string, default: Value): Value {
    if key in d then d[key] else default
  }

  /** `d.get(key)`, whose default is None. */
  function Get(d: map<string, Value>, key: string): Value {
    GetOr(d, key, Null)
  }

  /** `getattr(v, name, None)`: only objects carry attributes here. */
  function GetAttr(v: Value, name: string): Value {
    if v.Obj? && name in v.attrs then v.attrs[name] else Null
  }

  /** `v if isinstance(v, list) else []` */
  function ListOrEmpty(v: Value): seq<Value> {
    if v.List? then v.items else []
  }

  /** `v if isinstance(v, dict) else {}` */
  function DictOrEmpty(v: Value): map<string, Value> {
    if v.Dict? then v.entries else map[]
  }
}
