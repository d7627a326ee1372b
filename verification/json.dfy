// Decoded JSON values as the service sees them through `interface{}`: the request
// bodies it binds and the response records it builds.

module JsonValue {
  datatype Json =
    | JNull
    | JBool(b: bool)
    | JNumber(n: int)
    | JString(s: string)
    | JArray(items: seq<Json>)
    | JObject(fields: map<string, Json>)
}
