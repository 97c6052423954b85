/**
 * An already-parsed JSON value, as Go's encoding/json produces it when it decodes a
 * message body into `map[string]interface{}`: objects become maps (a repeated key keeps
 * its last value), arrays become slices, and a number is kept as the value of the float64
 * it became.
 */
module JsonValues {
  datatype Json =
    | JNull
    | JBool(b: bool)
    | JNumber(n: real)
    | JString(str: string)
    | JArray(items: seq<Json>)
    | JObject(members: map<string, Json>)

  /** A decoded JSON object: the `raw map[string]interface{}` the decoder works on. */
  type Object = map<string, Json>
}
