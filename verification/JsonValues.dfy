/** Parsed JSON. */
module JsonValues {
  datatype Json =
    | JNull
    | JBool(b: bool)
    | JInt(i: int)
    | JFloat(r: real)
    | JString(s: string)
    | JList(items: seq<Json>)
    | JObject(fields: map<string, Json>)

  /** `body.get(key)`. */
  function Field(j: Json, key: string): Json {
    if j.JObject? && key in j.fields then j.fields[key] else JNull
  }
}
