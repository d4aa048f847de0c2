/**
 * The JSON values that requests carry and that order documents are made of,
 * and the responses the handlers send back.
 */
module Payload {
  import opened Wrappers

  /** A JSON value. Numbers are integers here; fractional numbers are not modelled. */
  datatype Json =
    | Null
    | Bool(b: bool)
    | Num(n: int)
    | Str(s: string)
    | Arr(items: seq<Json>)
    | Obj(fields: map<string, Json>)

  /** A JSON object: a request body, an order document, or a response body. */
  type Object = map<string, Json>

  /** The look-up `d.get(key, default)`. */
  function GetOr(d: Object, key: string, default: Json): (v: Json)
    ensures key in d ==> v == d[key]
    ensures key !in d ==> v == default
  {
    if key in d then d[key] else default
  }

  /** `request.get_json() or {}`: the body, or an empty object when there is none. */
  function BodyOrEmpty(body: Option<Object>): (d: Object)
    ensures body.Some? ==> d == body.value
    ensures body.None? ==> d == map[]
  {
    if body.Some? then body.value else map[]
  }

  /**
   * What a handler sends back: a 200 with its body, or an error status with
   * the message the source puts under "error".
   */
  datatype Response<T> =
    | Ok(body: T)                   // 200
    | BadRequest(error: string)     // 400
    | NotFound(error: string)       // 404
    | ServerError(error: string)    // 500
}
