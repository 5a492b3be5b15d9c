/**
 * The values JSON.parse can produce, JavaScript's truthiness on them, and
 * JSON.parse itself as an oracle over texts.
 */
module JsonValues {
  import opened Options

  datatype Json =
    | JNull
    | JBool(b: bool)
    | JNumber(n: real)
    | JString(s: string)
    | JArray(items: seq<Json>)
    | JObject(fields: map<string, Json>)

  /** `!value` is false for it: null, false, 0 and "" are the falsy JSON values. */
  predicate Truthy(j: Json) {
    match j
    case JNull => false
    case JBool(b) => b
    case JNumber(n) => n != 0.0
    case JString(s) => s != ""
    case JArray(_) => true
    case JObject(_) => true
  }

  /**
   * JSON.parse as a deterministic oracle: `parser` maps every text that
   * parses to its value; a text missing from it is one JSON.parse throws on.
   */
  function Parse(parser: map<string, Json>, text: string): (r: Option<Json>)
    ensures r.Some? <==> text in parser
    ensures r.Some? ==> r.value == parser[text]
  {
    if text in parser then Some(parser[text]) else None
  }
}
