/** The response check used where no response needs to be passed on. */
module ErrorHandler {
  import opened Common
  import opened Models
  import opened JsonHelper

  /**
   * Completes on a success status, on an error body that is JSON `null`;
   * raises the status when the body cannot be read as an error (or was read
   * before), and the API error otherwise.
   */
  function HandleApiError(parse: string -> Deserialized<KDriveErrorResponse>, response: HttpResponse): (outcome: Outcome<Exception>)
    ensures outcome.Pass? <==> DeserializeResponse(parse, response).Ok?
    ensures outcome.Fail? ==> outcome.error == DeserializeResponse(parse, response).error
  {
    if IsSuccessStatusCode(response.statusCode) then Pass
    else if response.bodyRead then Fail(HttpRequestException(StatusCode(response.statusCode)))
    else
      match parse(response.body)
      case Unparseable => Fail(HttpRequestException(StatusCode(response.statusCode)))
      case Null => Pass
      case Parsed(e) => Fail(ApiError(e))
  }
}
