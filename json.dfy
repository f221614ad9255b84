/** The values `JSON.parse` produces, and that the configuration store holds. */
module JsonValues {
  /** A JSON value. `Obj` keeps its members in `for...in` enumeration order. */
  datatype Json =
    | Null
    | Bool(b: bool)
    | Num(n: real)
    | Str(s: string)
    | Arr(items: seq<Json>)
    | Obj(fields: seq<(string, Json)>)
}
