/** The org.json document model: values, objects as maps, and the caller-owned JSONObject. */
module Json {

  /** A JSON value. JNull is JSONObject.NULL; JScalar is a number or boolean, carried by the
      text its toString() gives; arrays keep their order, objects are unordered like the
      HashMap inside JSONObject. */
  datatype JValue =
    | JNull
    | JStr(s: string)
    | JScalar(text: string)
    | JArr(items: seq<JValue>)
    | JObj(fields: map<string, JValue>)

  type JObject = map<string, JValue>

  /** The JSON text org.json produces for an array or an object; its key order follows a
      HashMap, so the model leaves it as a parameter. */
  type Serializer = JValue -> string

  /** Object.toString() of a stored value, as optString and getString return it. */
  function Text(v: JValue, ser: Serializer): string {
    match v
    case JNull => "null"
    case JStr(s) => s
    case JScalar(t) => t
    case _ => ser(v)
  }

  /** JSONObject.optString(key): the value's text, or "" when the key is absent. */
  function OptString(o: JObject, key: string, ser: Serializer): (r: string)
    ensures key !in o ==> r == ""
    ensures key in o && o[key].JStr? ==> r == o[key].s
  {
    if key in o then Text(o[key], ser) else ""
  }

  /** A JSONObject that a method fills in place; `entries` is its content. */
  class JsonObject {
    var entries: JObject

    constructor ()
      ensures entries == map[]
    {
      entries := map[];
    }

    /** JSONObject.put with a non-null value: adds or replaces the key. */
    method Put(key: string, value: JValue)
      modifies this
      ensures entries == old(entries)[key := value]
    {
      entries := entries[key := value];
    }
  }
}
