/** `GlobalResponseWrapperInterceptor`: the success envelope `{code, data, message}`. */
module GlobalResponse {
  import opened Wrappers
  import opened JsValues

  datatype Envelope = Envelope(code: int, data: JsValue, message: string)

  /** The envelope for a handler result, given the injected `DEFAULT_SUCCESS_CODE`. */
  function Wrap(data: JsValue, defaultSuccessCode: Option<int>): (r: Envelope)
    ensures r.code == defaultSuccessCode.GetOr(0)
    ensures r.message == "success"
    ensures !IsNullish(r.data)
    ensures !IsNullish(data) ==> r.data == data
    ensures IsNullish(data) ==> r.data == Bool(true)
  {
    Envelope(defaultSuccessCode.GetOr(0), if IsNullish(data) then Bool(true) else data, "success")
  }

  /** The falsy results `false`, `0` and `""` are passed through, not replaced. */
  lemma FalsyResultsPassThrough(defaultSuccessCode: Option<int>)
    ensures Wrap(Bool(false), defaultSuccessCode).data == Bool(false)
    ensures Wrap(Num(0), defaultSuccessCode).data == Num(0)
    ensures Wrap(Str(""), defaultSuccessCode).data == Str("")
  {
  }
}
