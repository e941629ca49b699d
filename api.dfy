/**
 * The generation endpoint as the forms see it: the request they build and
 * the outcome the awaited call ends in. The transport itself is not modelled.
 */
module Api {
  import opened Wrappers
  import opened JsValues

  /** The body posted to `/generate`. */
  datatype GenerationRequest = GenerationRequest(modality: string, model: string, payload: Form)

  /** A successful reply's `prompt` and `error` fields, each possibly absent. */
  datatype GenerationResponse = GenerationResponse(prompt: Option<string>, error: Option<string>)

  /** What a rejected call throws: an `APIError` with message and status, or anything else. */
  datatype Failure = ApiError(message: string, status: int) | OtherError

  datatype Outcome = Replied(response: GenerationResponse) | Threw(failure: Failure)

  /** The status of an error that never reached the server. */
  const TransportStatus := 0

  /** A non-2xx reply whose body parsed as a JSON object: its `error` field, or `"Request failed"`, with the HTTP status. */
  function HttpFailure(errorField: Option<string>, status: int): (f: Failure)
    ensures f.ApiError? && f.status == status && f.message != ""
    ensures errorField.Some? && errorField.value != "" ==> f.message == errorField.value
    ensures !(errorField.Some? && errorField.value != "") ==> f.message == "Request failed"
  {
    ApiError(if errorField.Some? && errorField.value != "" then errorField.value else "Request failed", status)
  }

  /** A fetch or JSON failure: its message, or `"Network error"`, with status 0. */
  function TransportFailure(message: Option<string>): (f: Failure)
    ensures f.ApiError? && f.status == TransportStatus && f.message != ""
    ensures message.Some? && message.value != "" ==> f.message == message.value
    ensures !(message.Some? && message.value != "") ==> f.message == "Network error"
  {
    ApiError(if message.Some? && message.value != "" then message.value else "Network error", TransportStatus)
  }
}
