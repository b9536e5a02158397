/**
 * How the client reads API responses: the decision every response goes
 * through (passed on, an API error, or a transport error), the session
 * start response, and the upload response.
 */
module JsonHelper {
  import opened Common
  import opened Text
  import opened Models

  /**
   * The exception thrown for an API error body: its message is
   * `{code}: {description}`, and building it from a body whose `error` is
   * null fails with a null dereference instead.
   */
  function ApiError(e: KDriveErrorResponse): Exception
  {
    match e.error
    case None => NullReferenceException
    case Some(d) => KDriveApiException(e, d.code + ": " + d.description)
  }

  /**
   * The response once a check has let it through: a failure status has had
   * its content stream read, which the check disposes of.
   */
  function AfterCheck(response: HttpResponse): HttpResponse
  {
    if IsSuccessStatusCode(response.statusCode) then response else response.(bodyRead := true)
  }

  /**
   * A success status passes the response on untouched. Otherwise the body is
   * read as an error: when that fails the status itself is raised as an
   * `HttpRequestException`; a JSON `null` body passes the response on; an
   * error body is raised as an API error. The content stream a check reads is
   * the one the response caches, so a second read meets a disposed stream and
   * fails like an unreadable body.
   */
  function DeserializeResponse(parse: string -> Deserialized<KDriveErrorResponse>, response: HttpResponse): Result<HttpResponse, Exception>
  {
    if IsSuccessStatusCode(response.statusCode) then Ok(response)
    else if response.bodyRead then Err(HttpRequestException(StatusCode(response.statusCode)))
    else
      match parse(response.body)
      case Unparseable => Err(HttpRequestException(StatusCode(response.statusCode)))
      case Null => Ok(response.(bodyRead := true))
      case Parsed(e) => Err(ApiError(e))
  }

  /** A success response is passed on whatever its body, which is never parsed. */
  lemma SuccessPassesThrough(parse: string -> Deserialized<KDriveErrorResponse>, other: string -> Deserialized<KDriveErrorResponse>, response: HttpResponse)
    requires IsSuccessStatusCode(response.statusCode)
    ensures DeserializeResponse(parse, response) == DeserializeResponse(other, response) == Ok(response)
  {
  }

  /** The outcomes, each with the inputs that give it. */
  lemma DeserializeResponseCases(parse: string -> Deserialized<KDriveErrorResponse>, response: HttpResponse)
    ensures var r := DeserializeResponse(parse, response);
      var failed := !IsSuccessStatusCode(response.statusCode);
      var unread := !response.bodyRead;
      && (r.Ok? <==> !failed || (unread && parse(response.body).Null?))
      && (r.Ok? ==> r.value == AfterCheck(response))
      && (r == Err(HttpRequestException(StatusCode(response.statusCode))) <==>
            failed && (!unread || parse(response.body).Unparseable?))
      && (r.Err? && r.error.KDriveApiException? <==>
            failed && unread && parse(response.body).Parsed? && parse(response.body).value.error.Some?)
      && (r.Err? && r.error.KDriveApiException? ==>
            var d := parse(response.body).value.error.value;
            r.error == KDriveApiException(parse(response.body).value, d.code + ": " + d.description))
      && (r == Err(NullReferenceException) <==>
            failed && unread && parse(response.body).Parsed? && parse(response.body).value.error.None?)
  {
  }

  /**
   * Checking a response a second time: a success response passes again
   * unchanged; a failure response that the first check let through (its body
   * was JSON `null`) has had its stream disposed, so the second check raises
   * its status.
   */
  lemma SecondCheck(parse: string -> Deserialized<KDriveErrorResponse>, response: HttpResponse)
    requires DeserializeResponse(parse, response).Ok?
    ensures DeserializeResponse(parse, DeserializeResponse(parse, response).value) ==
      if IsSuccessStatusCode(response.statusCode) then Ok(response)
      else Err(HttpRequestException(StatusCode(response.statusCode)))
  {
  }

  const MissingDataMessage: string := "Start session response is null or missing Data"
  const MissingPropertiesMessage: string := "Start session response is missing required properties"
  const NullTokenMessage: string := "Token is null"
  const NullUploadUrlMessage: string := "UploadUrl is null"

  /**
   * The session token and upload URL of a session start response, each the
   * text of its `data` property; malformed JSON fails in the deserialiser.
   */
  function ParseStartSessionResponse(parse: string -> Deserialized<KDriveResponse>, json: string): Result<(string, string), Exception>
  {
    match parse(json)
    case Unparseable => Err(JsonException)
    case Null => Err(InvalidOperationException(MissingDataMessage))
    case Parsed(root) =>
      if root.data.None? then Err(InvalidOperationException(MissingDataMessage))
      else
        var data := root.data.value;
        if "token" !in data || "upload_url" !in data then Err(InvalidOperationException(MissingPropertiesMessage))
        else if data["token"].None? then Err(InvalidOperationException(NullTokenMessage))
        else if data["upload_url"].None? then Err(InvalidOperationException(NullUploadUrlMessage))
        else Ok((data["token"].value, data["upload_url"].value))
  }

  /**
   * A session start succeeds exactly when the response has `data` holding a
   * non-null `token` and a non-null `upload_url`, and gives those two values;
   * every other well-formed response fails with an `InvalidOperationException`.
   */
  lemma StartSessionResponseCases(parse: string -> Deserialized<KDriveResponse>, json: string)
    ensures var r := ParseStartSessionResponse(parse, json);
      && (r.Ok? <==>
            && parse(json).Parsed? && parse(json).value.data.Some?
            && var data := parse(json).value.data.value;
               "token" in data && "upload_url" in data && data["token"].Some? && data["upload_url"].Some?)
      && (r.Ok? ==> var data := parse(json).value.data.value; r.value == (data["token"].value, data["upload_url"].value))
      && (r.Err? && !parse(json).Unparseable? ==> r.error.InvalidOperationException?)
      && (r.Err? && parse(json).Unparseable? ==> r.error == JsonException)
  {
  }

  /**
   * A token that is missing is reported before one that is null, and a null
   * token before a null upload URL.
   */
  lemma StartSessionErrorOrder(parse: string -> Deserialized<KDriveResponse>, json: string)
    requires parse(json).Parsed? && parse(json).value.data.Some?
    ensures var data := parse(json).value.data.value;
      var r := ParseStartSessionResponse(parse, json);
      && ("token" !in data || "upload_url" !in data ==> r == Err(InvalidOperationException(MissingPropertiesMessage)))
      && ("token" in data && "upload_url" in data && data["token"].None? ==> r == Err(InvalidOperationException(NullTokenMessage)))
  {
  }

  const UploadParseMessage: string := "Failed to parse upload response"

  /** The file record of an upload response: `data.file`, every step of which may be null. */
  function DeserializeUploadResponse(parse: string -> Deserialized<KDriveUploadResponseWrapper>, json: string): Result<KDriveUploadResponse, Exception>
  {
    match parse(json)
    case Unparseable => Err(JsonException)
    case Null => Err(InvalidOperationException(UploadParseMessage))
    case Parsed(w) =>
      if w.data.None? || w.data.value.file.None? then Err(InvalidOperationException(UploadParseMessage))
      else Ok(w.data.value.file.value)
  }

  /** The upload response gives the file record exactly when the wrapper, its data and its file are all there. */
  lemma UploadResponseCases(parse: string -> Deserialized<KDriveUploadResponseWrapper>, json: string)
    ensures var r := DeserializeUploadResponse(parse, json);
      && (r.Ok? <==> parse(json).Parsed? && parse(json).value.data.Some? && parse(json).value.data.value.file.Some?)
      && (r.Ok? ==> r.value == parse(json).value.data.value.file.value)
      && (r.Err? && !parse(json).Unparseable? ==> r.error == InvalidOperationException(UploadParseMessage))
  {
  }
}
