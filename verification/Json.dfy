/** JSON values, with numbers as opaque text. */
module Json {
  datatype Value =
    | Null
    | Bool(flag: bool)
    | Number(digits: string)
    | String(text: string)
    | Array(items: seq<Value>)
    | Object(fields: map<string, Value>)
}
