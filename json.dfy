/** JSON values and the `JSON.stringify` / `JSON.parse` pair, kept abstract. */
module Json {
  import opened Options

  /** A JSON value. Numbers are integers here; objects are unordered. */
  datatype Json =
    | JNull
    | JBool(b: bool)
    | JNumber(n: int)
    | JString(s: string)
    | JArray(items: seq<Json>)
    | JObject(fields: map<string, Json>)

  /** The object literal `{}`. */
  const EmptyObject: Json := JObject(map[])

  /** The array literal `[]`. */
  const EmptyArray: Json := JArray([])

  /** A serialiser and a parser; `parse` answers `None` where `JSON.parse` throws. */
  datatype Codec = Codec(stringify: Json -> string, parse: string -> Option<Json>)

  /** What the store relies on of `JSON.stringify` and `JSON.parse`: parsing a
      serialisation gives the value back, a serialisation is never the empty
      string, and the empty object and array serialise as `{}` and `[]`. */
  ghost predicate Lawful(c: Codec) {
    && (forall v :: c.parse(c.stringify(v)) == Some(v))
    && (forall v :: c.stringify(v) != "")
    && c.stringify(EmptyObject) == "{}"
    && c.stringify(EmptyArray) == "[]"
  }
}
