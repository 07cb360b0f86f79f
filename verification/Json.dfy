/** JSON values as encoding/json decodes them into `any`; float64 numbers are reals. */
module Json {
  datatype Json =
    | Null
    | Bool(b: bool)
    | Num(n: real)
    | Str(s: string)
    | Arr(items: seq<Json>)
    | Obj(fields: map<string, Json>)

  type Doc = map<string, Json>

  function StringValue(d: Doc, key: string): string {
    if key in d && d[key].Str? then d[key].s else ""
  }

  /** A Go conversion of a float64 to int drops the fraction. */
  function Truncate(n: real): int {
    if n >= 0.0 then n.Floor else -((-n).Floor)
  }

  function IntegerValue(d: Doc, key: string): int {
    if key in d && d[key].Num? then Truncate(d[key].n) else 0
  }
}
