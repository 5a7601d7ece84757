/**
 * The JavaScript values that flow out of route handlers into the response
 * interceptors and the request bodies the validation pipe reads. Numbers
 * are integers here (see README, "Left out").
 */
module JsValues {

  datatype JsValue =
    | Undefined
    | Null
    | Bool(b: bool)
    | Num(n: int)
    | Str(s: string)
    | Arr(items: seq<JsValue>)
    | Obj(fields: map<string, JsValue>)

  /** `v === null || v === undefined`, the values `??` replaces. */
  predicate IsNullish(v: JsValue)
  {
    v.Undefined? || v.Null?
  }

  /** `o[key]`, which is `undefined` for a key the object does not have. */
  function Field(o: map<string, JsValue>, key: string): JsValue
  {
    if key in o then o[key] else Undefined
  }
}
