/** Parsed documents: what YAML and JSON have in common. The order of a mapping's keys is not kept. */
module Json {
  datatype Value =
    | Null
    | Bool(flag: bool)
    | Number(number: int)
    | Text(text: string)
    | List(items: seq<Value>)
    | Dict(entries: map<string, Value>)
}
