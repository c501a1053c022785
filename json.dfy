/**
 * The values JSON.parse produces. Parsing itself is a foreign call: every
 * decoder takes it as a parameter `parse: string -> Option<Json>`, where
 * None stands for the SyntaxError JSON.parse throws.
 */
module JsonValue {

  datatype Json =
    | JNull
    | JBool(b: bool)
    | JNumber(n: real)
    | JString(s: string)
    | JArray(items: seq<Json>)
    | JObject(members: seq<(string, Json)>)

  /** JavaScript truthiness, as `Array.prototype.filter(Boolean)` applies it. */
  predicate Truthy(j: Json) {
    match j
    case JNull => false
    case JBool(b) => b
    case JNumber(n) => n != 0.0
    case JString(s) => s != ""
    case _ => true
  }

  /** `value && typeof value === 'object'`: true of objects and arrays only. */
  predicate IsObjectLike(j: Json) {
    j.JObject? || j.JArray?
  }
}
