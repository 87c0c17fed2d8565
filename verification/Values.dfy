/** `structpb.Value`: the JSON-like values that target values and allowed values are made of. */
module Values {

  datatype Value =
    | Null
    | Bool(b: bool)
    | Number(n: real)
    | Text(s: string)
    | List(items: seq<Value>)
    | Struct(fields: map<string, Value>)
}
