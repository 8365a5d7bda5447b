/** JSON values as the connector files use them. */
module Json {
  import opened Options

  /** An object is an ordered map keyed by string: equality ignores insertion order. */
  datatype Value =
    | Null
    | Bool(b: bool)
    | Number(n: int)
    | String(s: string)
    | Array(items: seq<Value>)
    | Object(fields: map<string, Value>)

  /** Member access by name: only objects have members. */
  function Get(v: Value, key: string): Option<Value> {
    if v.Object? && key in v.fields then Some(v.fields[key]) else None
  }

  function GetString(v: Value, key: string): Option<string> {
    match Get(v, key)
    case Some(String(s)) => Some(s)
    case _ => None
  }

  function GetArray(v: Value, key: string): Option<seq<Value>> {
    match Get(v, key)
    case Some(Array(items)) => Some(items)
    case _ => None
  }
}
