/** JSON values as parsed: an object is a map of its keys. */
module Documents {
  import opened Options

  datatype Json =
    | Null | Bool(flag: bool) | Number(value: real) | Str(text: string)
    | Arr(items: seq<Json>) | Obj(fields: map<string, Json>)

  function Get(m: map<string, Json>, key: string): Option<Json> {
    if key in m then Some(m[key]) else None
  }

  function TextOf(o: Option<Json>): Option<string> {
    if o.Some? && o.value.Str? then Some(o.value.text) else None
  }
}
