/** The values `json.loads` produces, as both the node's answers and the price feed deliver them. */
module JsonValues {
  /** A decoded JSON value (numbers with a fraction or an exponent are not modelled). */
  datatype Json =
    | JNull
    | JBool(b: bool)
    | JInt(i: int)
    | JStr(s: string)
    | JList(items: seq<Json>)
    | JObject(fields: map<string, Json>)
}
