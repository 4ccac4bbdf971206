/**
 * The parsed JSON tree handed to the deserializer, with the accessors it uses
 * (`asJsonObject`, `asJsonArray`, `asString`, `get`). Each accessor fails the way
 * the Gson library's does; a missing key dereferenced by Kotlin code is a
 * NullPointerException.
 */
module Json {
  import opened Options

  datatype Json =
    | JNull
    | JBool(b: bool)
    | JNumber(lexeme: string)
    | JString(str: string)
    | JArray(elems: seq<Json>)
    | JObject(fields: map<string, Json>)

  /** The exceptions that can escape `deserialize`. */
  datatype Exception =
    | NullPointer              // a missing key dereferenced
    | IllegalState             // asJsonObject / asJsonArray on the wrong kind, asString on an array not of size one
    | UnsupportedOperation     // asString on null or an object
    | StringIndexOutOfBounds   // substring past the start of a short timestamp
    | Parse                    // java.text.ParseException from the timestamp parser

  /** `obj.get(key)`: absent keys give null; a JSON null is present. */
  function Get(obj: map<string, Json>, key: string): (r: Option<Json>)
    ensures r.Some? <==> key in obj
    ensures r.Some? ==> r.value == obj[key]
  {
    if key in obj then Some(obj[key]) else None
  }

  function AsObject(j: Json): (r: Result<map<string, Json>, Exception>)
    ensures r.Ok? <==> j.JObject?
    ensures r.Ok? ==> r.value == j.fields
  {
    if j.JObject? then Ok(j.fields) else Err(IllegalState)
  }

  function AsArray(j: Json): (r: Result<seq<Json>, Exception>)
    ensures r.Ok? <==> j.JArray?
    ensures r.Ok? ==> r.value == j.elems
  {
    if j.JArray? then Ok(j.elems) else Err(IllegalState)
  }

  /** `asString`: strings as they are, numbers as their text, booleans as "true"/"false", a one-element array as its element. */
  function AsString(j: Json): (r: Result<string, Exception>)
    ensures j.JString? ==> r == Ok(j.str)
    ensures j.JNull? || j.JObject? ==> r == Err(UnsupportedOperation)
  {
    match j
    case JString(s) => Ok(s)
    case JNumber(lexeme) => Ok(lexeme)
    case JBool(b) => Ok(if b then "true" else "false")
    case JArray(elems) => if |elems| == 1 then AsString(elems[0]) else Err(IllegalState)
    case JNull => Err(UnsupportedOperation)
    case JObject(_) => Err(UnsupportedOperation)
  }

  /** `obj[key].asString` in Kotlin: a missing key is dereferenced as null. */
  function StringAt(obj: map<string, Json>, key: string): (r: Result<string, Exception>)
    ensures key !in obj ==> r == Err(NullPointer)
    ensures key in obj ==> r == AsString(obj[key])
  {
    match Get(obj, key)
    case None => Err(NullPointer)
    case Some(j) => AsString(j)
  }

  /** `obj[key].asJsonObject` in Kotlin. */
  function ObjectAt(obj: map<string, Json>, key: string): (r: Result<map<string, Json>, Exception>)
    ensures key !in obj ==> r == Err(NullPointer)
    ensures key in obj ==> r == AsObject(obj[key])
  {
    match Get(obj, key)
    case None => Err(NullPointer)
    case Some(j) => AsObject(j)
  }
}
