/** The JSON-like values the configuration dictionary holds. */
module Values {
  datatype Value =
    | VNull
    | VBool(b: bool)
    | VInt(i: int)
    | VStr(s: string)
    | VList(items: seq<Value>)
    | VObject(fields: map<string, Value>)

  /** Python truthiness: `None`, `False`, `0`, `""`, `[]` and `{}` are false. */
  predicate Truthy(v: Value) {
    match v
    case VNull => false
    case VBool(b) => b
    case VInt(i) => i != 0
    case VStr(s) => s != []
    case VList(items) => items != []
    case VObject(fields) => fields != map[]
  }

  /** `d.get(key)` read for truthiness: an absent key reads as `None`. */
  predicate TruthyAt(d: map<string, Value>, key: string) {
    key in d && Truthy(d[key])
  }

  /** `d.get(key, default)` of a boolean switch, read for truthiness. */
  predicate Switch(d: map<string, Value>, key: string, default: bool) {
    if key in d then Truthy(d[key]) else default
  }
}
