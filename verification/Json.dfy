/** JSON documents; the members of an object are a map, so no name occurs twice. */
module Json {
  datatype Value =
    | Null
    | Bool(b: bool)
    | Number(n: real)
    | Text(s: string)
    | Array(items: seq<Value>)
    | Object(members: map<string, Value>)
}
