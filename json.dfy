/**
 * The dynamically typed values that Foundation's JSON serialisation produces
 * (`Any` inside `[String: Any]`), as a tagged union, and the property map that
 * every event processor receives (`EventProcessor.Properties`).
 */
module JsonValues {
  import opened Wrappers

  datatype Json =
    | JString(s: string)
    | JNumber(n: int)
    | JBool(b: bool)
    | JNull
    | JArray(items: seq<Json>)
    | JObject(fields: map<string, Json>)

  /** `[String: Any]`: the canonical payload delivered to every processor. */
  type Properties = map<string, Json>

  /** The two ways a single-value container can refuse to produce a `String`. */
  datatype DecodingError =
    | TypeMismatch    // the value is present but is not a string
    | ValueNotFound   // the value is `null`

  /**
   * `singleValueContainer().decode(String.self)` on a JSON value: a string is
   * returned as it is, `null` is a missing value, anything else a type mismatch.
   */
  function DecodeString(j: Json): (r: Result<string, DecodingError>)
    ensures r.Success? <==> j.JString?
    ensures r.Success? ==> JString(r.value) == j
    ensures r == Failure(ValueNotFound) <==> j == JNull
  {
    match j
    case JString(s) => Success(s)
    case JNull => Failure(ValueNotFound)
    case _ => Failure(TypeMismatch)
  }
}
