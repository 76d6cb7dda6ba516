/** JSON values with the accessors the gateway uses on them. */
module Json {
  import opened Wrappers

  datatype Value =
    | Null
    | Boolean(b: bool)
    | Integer(n: int)
    | Fraction
    | Text(s: string)
    | Array(items: seq<Value>)
    | Object(fields: map<string, Value>)

  /** A member of an object; anything else has no members. */
  function Get(v: Value, key: string): Option<Value> {
    if v.Object? && key in v.fields then Some(v.fields[key]) else None
  }

  function GetText(v: Value, key: string): Option<string> {
    var m := Get(v, key);
    if m.Some? && m.value.Text? then Some(m.value.s) else None
  }
}
