/**
  The part of ArduinoJson that `commandToLight` reads. Parsing itself (`deserializeJson`) is foreign;
  the model starts from its outcome: an error, or a document with a root value.
*/
module ArduinoJson {

  datatype JsonValue =
    | JNull
    | JBool(b: bool)
    | JInt(n: int)
    | JFloat(text: string)  // a floating-point number, kept as its literal and never computed on
    | JString(s: string)
    | JArray(items: seq<JsonValue>)
    | JObject(members: map<string, JsonValue>)

  datatype Deserialization = DeserializationError | Document(root: JsonValue)

  /** The device's `int` is 32 bits wide. */
  const INT_MIN: int := -0x8000_0000
  const INT_MAX: int := 0x7FFF_FFFF

  /** `doc.containsKey(key)`: only an object has keys. */
  predicate ContainsKey(root: JsonValue, key: string) {
    root.JObject? && key in root.members
  }

  /** `doc[key]`: the member, or null when the root is not an object or has no such key. */
  function Member(root: JsonValue, key: string): (v: JsonValue)
    ensures !ContainsKey(root, key) ==> v == JNull
  {
    if ContainsKey(root, key) then root.members[key] else JNull
  }

  /** `v | default` for an `int` target: the value if it is a JSON integer that fits an `int`. */
  function IntOr(v: JsonValue, default: int): (r: int)
    ensures v.JInt? && INT_MIN <= v.n <= INT_MAX ==> r == v.n
    ensures !v.JInt? ==> r == default
  {
    if v.JInt? && INT_MIN <= v.n <= INT_MAX then v.n else default
  }

  /**
    `v.as<bool>()`. Only booleans are fixed here; what the library makes of any other kind of
    value is the `otherwise` conversion the caller supplies.
  */
  function AsBool(v: JsonValue, otherwise: JsonValue -> bool): (r: bool)
    ensures v.JBool? ==> r == v.b
  {
    if v.JBool? then v.b else otherwise(v)
  }
}
