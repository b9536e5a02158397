/**
 * The data carriers of the client (API responses, errors, options), the
 * exceptions its operations can end with, and the foreign functions it calls
 * (SHA-256, URI escaping, JSON deserialisation), which are parameters of the
 * model rather than part of it.
 */
module Models {
  import opened Common

  datatype ConflictChoice = Error | Version | Rename

  /** The `error` object of an API error body. */
  datatype KDriveErrorDetail = KDriveErrorDetail(code: string, description: string)

  /** An API error body; `error` is `None` when the body holds `"error": null`. */
  datatype KDriveErrorResponse = KDriveErrorResponse(result: string, error: Option<KDriveErrorDetail>)

  /** The file record the server returns once an upload completes. */
  datatype KDriveUploadResponse = KDriveUploadResponse(
    id: int, name: string, path: Option<string>, directoryId: int, size: int,
    createdAt: int, lastModifiedAt: int, mimeType: string, hash: Option<string>)

  /** The `data` object the upload-response reader expects: it holds the file record under `file`. */
  datatype KDriveUploadData = KDriveUploadData(file: Option<KDriveUploadResponse>)

  datatype KDriveUploadResponseWrapper = KDriveUploadResponseWrapper(result: string, data: Option<KDriveUploadData>)

  /**
   * A generic API response. `data` maps each property name to the string form
   * of its value, `None` for a JSON null; the whole map is `None` for `"data": null`.
   */
  datatype KDriveResponse = KDriveResponse(result: string, data: Option<map<string, Option<string>>>)

  datatype KDriveClientOptions = KDriveClientOptions(
    parallelism: int, chunkSize: Option<int>, directUploadThresholdBytes: int, useAutoChunkSize: bool)

  const OneMiB: int := 1024 * 1024

  /** The options a client gets when the caller gives none. */
  function DefaultOptions(): KDriveClientOptions
  {
    KDriveClientOptions(4, None, OneMiB, true)
  }

  /** Why an `HttpRequestException` was raised. */
  datatype HttpCause =
    | Transport              // the connection failed (raised by the HTTP stack)
    | StatusCode(code: int)  // `EnsureSuccessStatusCode` on a failure status
    | RateLimitExceeded      // the rate limiter refused a lease and gave no hint
    | RetriesExhausted       // thrown after the retry loop, which the loop never reaches

  datatype Exception =
    | HttpRequestException(cause: HttpCause)
    | KDriveApiException(error: KDriveErrorResponse, message: string)
    | InvalidOperationException(message: string)
    | ArgumentException(message: string)
    | ArgumentNullException
    | NullReferenceException
    | OverflowException
    | ArgumentOutOfRangeException
    | JsonException
    | TaskCanceledException

  /** What a JSON deserialiser gives: a parse failure, a JSON `null`, or a value. */
  datatype Deserialized<+T> = Unparseable | Null | Parsed(value: T)

  /**
   * A response: its status, its body, and whether its content stream has
   * already been read (and disposed) by a response check.
   */
  datatype HttpResponse = HttpResponse(statusCode: int, body: string, bodyRead: bool)

  /** `HttpResponseMessage.IsSuccessStatusCode`. */
  predicate IsSuccessStatusCode(code: int) { 200 <= code <= 299 }

  /**
   * The library functions the client calls and this model leaves
   * uninterpreted: the SHA-256 digest (FIPS 180-4), `Uri.EscapeDataString`
   * (percent-encoding, section 2.1 of RFC 3986), the value of the `conflict`
   * upload parameter, and the three JSON readers.
   */
  datatype Platform = Platform(
    sha256: seq<byte> -> seq<byte>,
    escapeDataString: string -> string,
    conflictValue: string,
    parseErrorResponse: string -> Deserialized<KDriveErrorResponse>,
    parseResponse: string -> Deserialized<KDriveResponse>,
    parseUploadResponse: string -> Deserialized<KDriveUploadResponseWrapper>)
}
