/**
 * JSON values as `JSON.parse` produces them (RFC 8259). Decoding itself is library
 * code outside this model: every operation that parses JSON takes the decoder as a
 * parameter, `None` standing for the `SyntaxError` it throws.
 */
module Json {
  import opened Wrappers

  /** A decoded JSON value; numbers carry integers only (no fractions in this model). */
  datatype Json =
    | JNull
    | JBool(b: bool)
    | JNumber(n: int)
    | JString(s: string)
    | JArray(items: seq<Json>)
    | JObject(members: seq<(string, Json)>)

  /** `JSON.parse` applied to a string: the value, or `None` when it throws. */
  type Decoder = string -> Option<Json>
}
