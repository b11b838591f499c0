/** Values shared by the schema builders and the path helpers: an optional value
    (a JavaScript key that is missing or holds `undefined`) and plain JSON data
    (the fields the builders pass through without looking inside). */
module Values {

  datatype Option<+T> = None | Some(value: T)

  /** JSON data as it appears in an emitted OpenAPI document. Numbers are
      kept integral; object members keep their order. */
  datatype Json =
    | JNull
    | JBool(b: bool)
    | JNum(n: int)
    | JStr(s: string)
    | JArr(elems: seq<Json>)
    | JObj(members: seq<(string, Json)>)
}
