/** `NetworkResult` and `safeApiCall`: how the outcome of one HTTP call is
    classified for the UI. */
module NetworkResult {
  import opened Nullable
  import opened Remote

  datatype NetworkResult<T> = Success(data: T) | Error(code: Option<int>, message: Option<string>) | Loading

  /** What `safeApiCall` reads of a Retrofit response: status code, body,
      status message and the error body's text. */
  datatype HttpResponse<T> = HttpResponse(code: int, body: Option<T>, message: string, errorBody: Option<string>)

  /** The call either completes with a response or throws an exception,
      whose `message` may be null. */
  datatype ApiCall<T> = Completed(response: HttpResponse<T>) | Threw(exceptionMessage: Option<string>)

  const NullBodyMessage := "Response body is null"
  const UnknownErrorBody := "Unknown error"
  const UnexpectedErrorMessage := "An unexpected error occurred"

  /** `safeApiCall(errorMessagePrefix, apiCall)` */
  function SafeApiCall<T>(call: ApiCall<T>): (r: NetworkResult<T>)
    ensures !r.Loading?
    ensures r.Success? <==> call.Completed? && IsSuccessful(call.response.code) && call.response.body.Some?
    ensures r.Success? ==> r.data == call.response.body.value
    ensures r.Error? ==> r.message.Some?
    ensures r.Error? ==> (r.code.None? <==> call.Threw?)
    ensures r.Error? && call.Completed? ==> r.code == Some(call.response.code)
  {
    match call
    case Threw(m) => Error(None, Some(m.GetOr(UnexpectedErrorMessage)))
    case Completed(response) =>
      if IsSuccessful(response.code) then
        if response.body.Some? then Success(response.body.value)
        else Error(Some(response.code), Some(NullBodyMessage))
      else
        Error(Some(response.code), Some(response.message + " - " + response.errorBody.GetOr(UnknownErrorBody)))
  }

  /** The three error messages: a 2xx response without a body, a non-2xx
      response (status message, " - ", then the error body or "Unknown
      error"), and an exception (its message, or "An unexpected error
      occurred"). */
  lemma ErrorMessages<T>(call: ApiCall<T>)
    ensures call.Completed? && IsSuccessful(call.response.code) && call.response.body.None? ==>
      SafeApiCall(call) == Error(Some(call.response.code), Some("Response body is null"))
    ensures call.Completed? && !IsSuccessful(call.response.code) ==>
      var m := SafeApiCall(call).message.value;
      && m[..|call.response.message|] == call.response.message
      && m[|call.response.message|..|call.response.message| + 3] == " - "
      && m[|call.response.message| + 3..] == call.response.errorBody.GetOr("Unknown error")
    ensures call.Threw? ==>
      SafeApiCall(call) == Error(None, Some(call.exceptionMessage.GetOr("An unexpected error occurred")))
  {
  }

  /** The classification depends on the status code and body only, never on
      the status message or error body, except for the text of a non-2xx
      error. */
  lemma ClassificationIgnoresMessages<T>(r1: HttpResponse<T>, r2: HttpResponse<T>)
    requires r1.code == r2.code && r1.body == r2.body
    ensures SafeApiCall(Completed(r1)).Success? == SafeApiCall(Completed(r2)).Success?
    ensures SafeApiCall(Completed(r1)).Error? ==> SafeApiCall(Completed(r1)).code == SafeApiCall(Completed(r2)).code
    ensures IsSuccessful(r1.code) ==> SafeApiCall(Completed(r1)) == SafeApiCall(Completed(r2))
  {
  }
}
