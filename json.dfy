/** JSON documents, as `serde_json::Value`. Numbers are integers only: no
    value the modelled code builds or inspects is fractional. */
module Json {

  datatype Value =
    | Null
    | Bool(b: bool)
    | Number(n: int)
    | Str(s: string)
    | Array(items: seq<Value>)
    | Object(fields: map<string, Value>)

  /** `json!({})` */
  const EmptyObject: Value := Object(map[])

  /** `Map::get(key)` on an object, `None` for a missing key or a non-object. */
  predicate HasField(v: Value, key: string) {
    v.Object? && key in v.fields
  }
}
