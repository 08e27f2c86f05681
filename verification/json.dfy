/** Decoded JSON values as the Python side sees them after `json.loads`. */
module Json {

  /** Numbers are kept as integers: no modelled path depends on a fraction. */
  datatype Value =
    | Null
    | Bool(b: bool)
    | Number(n: int)
    | Str(s: string)
    | Array(items: seq<Value>)
    | Object(members: map<string, Value>)
  {
    /** Python truthiness of the decoded value. */
    predicate Truthy() {
      match this
      case Null => false
      case Bool(b) => b
      case Number(n) => n != 0
      case Str(s) => |s| > 0
      case Array(items) => |items| > 0
      case Object(members) => |members| > 0
    }
  }
}
