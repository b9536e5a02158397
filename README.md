# kDrive upload client, modelled in Dafny

This project models the upload core of the `DriveClient` library. The library
is a C# client for the Infomaniak kDrive API. The model covers:

- the file and chunk objects, and how a file's content stream is split into
  numbered, hashed chunks (`Files`, `Chunks`, `Hex`);
- the upload parameter map and the wire form of every request (direct upload,
  session start, chunk, finish, cancel, download) (`RequestFactory`, with the
  string helpers of `Text`);
- the way every response is classified (passed on, API error, transport
  error), and the readers of the session-start and upload responses
  (`JsonHelper`, `ErrorHandler`);
- the retrying, rate-limited send (`Dispatch`);
- the upload operations: the direct and the chunked upload with its session
  life cycle, progress reports and the choice between the two (`Uploads`);
- the bandwidth probe behind automatic chunk sizing (`SpeedTest`);
- the client object itself (`Client.KDriveClient`). Its methods are imperative
  Dafny, and each is proved to produce exactly the result, the attempt count
  and the events that the matching function of `Dispatch`, `Uploads` or
  `SpeedTest` gives.

The network and the rate limiter together form an oracle, `Network`. It gives
the lease and the reply of each attempt, by attempt index and request. The
library functions the client calls (SHA-256, `Uri.EscapeDataString`, the JSON
readers, the conflict value) are fields of a `Platform` value and are left
uninterpreted. Everything the client causes that can be seen from outside is
recorded in order as an `Event`:

- a pause;
- a transmitted request;
- a chunk cleaned;
- a progress report.

A file's content stream keeps its read position. The file's total hash
digests the stream from that position and leaves it at the end, so the
model carries the position in the file's value (`FileView.position`), and
every operation that reads the total hash states where it leaves the stream.

A response carries a flag saying whether a response check has already read
its body. The check reads the body of a failure response and disposes of it,
so a second check of the same response cannot read it again.

In three places the source does something other than what it evidently
means to do (see "## Findings"): the progress formula, the body of the direct
upload, and the total hash the finish carries. The upload functions of
`Uploads` take a `Revision` for these: `AsWritten` is what the source does,
and `Intended` is the corrected behaviour. The client object follows
`AsWritten` throughout. Properties of each revision are stated separately.

## Model

| member | source | states |
|---|---|---|
| Hex.ToHexStringShape | DriveClient/Models/KDriveChunk.cs:11 | the hex text of n bytes has 2n characters, all upper-case hex digits |
| Hex.HexRoundTrip | DriveClient/Models/KDriveChunk.cs:11 | decoding the hex text gives back exactly the bytes encoded |
| Hex.ToHexStringInjective | DriveClient/Models/KDriveChunk.cs:11 | two byte strings have the same hex text if and only if they are equal |
| Chunks.NewChunkProperties | DriveClient/Models/KDriveChunk.cs:6-26 | a chunk keeps its content and number; its size is its content length; its hash string is the upper-case hex of the hash argument (two digits per byte) and decodes back to that argument, whatever the content |
| Chunks.ChunkHashInjective | DriveClient/Models/KDriveChunk.cs:11 | two chunks have equal hash strings if and only if they were given equal hash bytes |
| Text.Replace | DriveClient/Models/KDriveFile.cs:85 | replacing `/` by `:` keeps the length, leaves no `/`, and changes no other character |
| Text.ReplaceAbsent | DriveClient/Models/KDriveFile.cs:85 | a name without `/` reaches the escaping step unchanged |
| Files.Stream.Read | DriveClient/Models/KDriveFile.cs:70 | a memory-stream read copies min(count, remaining) bytes from the position into the buffer, advances the position by that many, and leaves the rest of the buffer alone |
| Files.KDriveFile.SplitIntoChunks | DriveClient/Models/KDriveFile.cs:62-77 | a negative size fails on the buffer allocation and a missing stream on the position reset, both with the chunks unchanged; otherwise the chunks of the content (as `ChunksOf` gives them) are appended to the chunks already there, and the stream position is 0 afterwards whatever it was before |
| Files.KDriveFile.AppendChunks | DriveClient/Models/KDriveFile.cs:70-74 | the read loop from position 0 appends exactly the chunks of the whole content, in order |
| Files.ChunksOfProperties | DriveClient/Models/KDriveFile.cs:65-74 | for a positive size, the contents of the chunks put back together are the content, their sizes sum to its length, there are ceil(n / size) of them, they are numbered 0, 1, 2, ..., each carries the hex digest of exactly its own bytes, and every chunk but the last holds exactly `size` bytes (the last holds 1 to `size`) |
| Files.ChunksOfContents | DriveClient/Models/KDriveFile.cs:70-73 | the chunk contents put back together are the content |
| Files.ChunksOfCount | DriveClient/Models/KDriveFile.cs:70-73 | a positive size gives ceil(n / size) chunks |
| Files.ChunksOfEmpty | DriveClient/Models/KDriveFile.cs:70 | empty content or a size of 0 gives no chunks |
| Files.ChunkCountExamples | DriveClientTests/KDriveFileTests.cs:10-30 | 2000, 2001, 2500 and 500 bytes in chunks of 1000 give 2, 3, 3 and 1 chunks |
| Files.KDriveFile.TotalChunkHash | DriveClient/Models/KDriveFile.cs:37-44 | as written: a missing stream fails; otherwise the hash is the digest of the stream from its current position, and the position is left at the end, so the file becomes its `AfterDigest` view |
| Files.FileView.StreamHash | DriveClient/Models/KDriveFile.cs:37-44 | the total hash a file gives is the hex digest of the bytes from its stream position to the end |
| Files.StreamHashAtStart | DriveClient/Models/KDriveFile.cs:37-44 | with the stream at its start (as a split leaves it), the total hash is the digest of the whole content |
| Files.StreamHashAfterDigest | DriveClient/Models/KDriveFile.cs:37-44 | once the total hash has been read, from any position, reading it again gives the digest of no bytes, and a further read moves the stream no more |
| Files.ContentHash | DriveClient/Models/KDriveFile.cs:37-44 | the total hash as intended: upper-case hex that decodes to the digest of the whole content |
| Files.TotalChunkHashTwice | DriveClient/Models/KDriveFile.cs:37-44 | read from position 0, the total hash is the digest of the content; read a second time, it is the digest of no bytes, equal to the first only when the digest cannot tell the content from empty input |
| Files.TotalChunkHashTwiceWitness | DriveClient/Models/KDriveFile.cs:37-44 | for the bytes 0, 1, 2, 3 (under a digest that tells them from empty input), the second reading differs from the digest of the content |
| Text.LowerIdempotent | DriveClient/Helpers/KDriveRequestFactory.cs:79 | lower-casing twice is lower-casing once |
| Text.LowerHexRoundTrip | DriveClient/Helpers/KDriveRequestFactory.cs:186 | the lower-cased hex of a digest is lower-case hex that decodes to the same digest |
| Text.HexIsBlankOnlyWhenEmpty | DriveClient/Helpers/KDriveRequestFactory.cs:185 | a hex string is null-or-white-space if and only if it is empty |
| Text.QueryRoundTrip | DriveClient/Helpers/KDriveRequestFactory.cs:19 | splitting a joined query at `&` and then at the first `=` recovers every pair when no key or value holds a separator |
| RequestFactory.Dictionary.Add | DriveClient/Helpers/KDriveRequestFactory.cs:147 | a key already present is refused with an `ArgumentException` and the map is unchanged; otherwise the pair is appended |
| RequestFactory.NewUploadParams | DriveClient/Helpers/KDriveRequestFactory.cs:121-126 | the new map holds the escaped name, the total size and the conflict value, in that order |
| RequestFactory.AddDirectoryParam | DriveClient/Helpers/KDriveRequestFactory.cs:144-152 | a directory id, even a blank one, is added as `directory_id`; otherwise a non-blank path is added as `directory_path`; otherwise it fails with an `ArgumentException` and adds nothing |
| RequestFactory.AddOptionalParam | DriveClient/Helpers/KDriveRequestFactory.cs:160-164 | a null or white-space value adds nothing; any other value is added under the key, or refused when the key is already present |
| RequestFactory.AddOptionalNumericParam | DriveClient/Helpers/KDriveRequestFactory.cs:172-176 | a value of 0 or less adds nothing; a positive value is added under the key, or refused when the key is already present |
| RequestFactory.AddOptionalChunkHash | DriveClient/Helpers/KDriveRequestFactory.cs:183-187 | a blank hash adds nothing; any other hash is added as `sha256:` and its lower-cased text |
| RequestFactory.AddOptionalParams | DriveClient/Helpers/KDriveRequestFactory.cs:129-132 | starting from a map without the optional keys, the four adds never fail, append exactly the optional entries that are set, and leave the digest key free |
| RequestFactory.BuildUploadQueryParams | DriveClient/Helpers/KDriveRequestFactory.cs:119-136 | filling the dictionary entry by entry gives exactly the map `UploadParams` describes for the file as it was, including its two failures (no directory; no content stream when the total hash is read); reading the total hash leaves the stream at the end unless the directory check failed first (`AfterUploadParams`) |
| RequestFactory.UploadParamsRequired | DriveClient/Helpers/KDriveRequestFactory.cs:119-152 | every map holds the escaped name, the total size and the conflict value, and exactly one directory key: `directory_id` when the file has one, else `directory_path` |
| RequestFactory.UploadParamsOptional | DriveClient/Helpers/KDriveRequestFactory.cs:129-133 | `with` is present if and only if the link target is not blank, `created_at`, `last_modified_at` and `total_chunks` if and only if their value is positive, and `total_chunk_hash` if and only if the digest is not empty, holding `sha256:` and the lower-cased total hash, the digest of the content from the stream position on |
| RequestFactory.UploadParamsUnique | DriveClient/Helpers/KDriveRequestFactory.cs:119-136 | no key occurs twice in the map, so no `Add` fails and the JSON object has distinct member names |
| RequestFactory.UploadDirectUrlRoundTrip | DriveClient/Helpers/KDriveRequestFactory.cs:19 | a server splitting the direct upload URL at `?`, `/`, `&` and `=` recovers the drive id and every parameter pair |
| RequestFactory.DirectAndStartAgree | DriveClient/Helpers/KDriveRequestFactory.cs:17-46 | the URL is the same as written and corrected; when no parameter value holds `&` or `=`, the pairs in the direct upload's query are the members of the session start's JSON body written as text |
| RequestFactory.DirectBodyMismatch | DriveClient/Helpers/KDriveRequestFactory.cs:22-26 | as written, the direct body is as long as its declared Content-Length if and only if every chunk after the first is empty |
| RequestFactory.DirectBodyWitness | DriveClient/Helpers/KDriveRequestFactory.cs:22-26 | a file split into chunks smaller than itself sends only its first chunk, under the Content-Length of the whole file |
| RequestFactory.DirectBodyComplete | DriveClient/Helpers/KDriveRequestFactory.cs:17-29 | with every chunk in the body, the body is as long as it declares, and for a file split by `SplitIntoChunks` it is exactly the content |
| RequestFactory.CreateUploadDirectRequest | DriveClient/Helpers/KDriveRequestFactory.cs:17-29 | builds the direct request as written from the file as it was: the parameters first (their failures first), then the first chunk, failing on a file without chunks; the stream is left as building the parameters leaves it |
| RequestFactory.CreateStartSessionRequest | DriveClient/Helpers/KDriveRequestFactory.cs:38-47 | builds the session start request from the file as it was, failing as the parameters fail; the stream is left as building the parameters leaves it |
| RequestFactory.DirectBodyFirstChunk | DriveClient/Helpers/KDriveRequestFactory.cs:19-26 | as written, a file split into chunks smaller than itself gets a direct body of its first `size` bytes only, declared at the length of the whole content |
| RequestFactory.HashValueOf | DriveClient/Helpers/KDriveRequestFactory.cs:186 | a written hash is `sha256:` then lower-case hex that decodes to the digest, with no `&` or `=` in it |
| RequestFactory.ChunkQueryRoundTrip | DriveClient/Helpers/KDriveRequestFactory.cs:58 | the chunk query holds exactly `chunk_number` (the number plus 1), `chunk_size` (the content length) and `chunk_hash` (`sha256:` and hex decoding to the chunk's hash bytes), each recoverable by a parser |
| RequestFactory.ChunkUrlSplit | DriveClient/Helpers/KDriveRequestFactory.cs:58 | the chunk URL splits at its only `?` into the upload host's chunk route and the chunk query |
| RequestFactory.ChunkRequestRoundTrip | DriveClient/Helpers/KDriveRequestFactory.cs:56-66 | the chunk upload is a POST to the session's chunk route on the upload host; its body is the chunk's bytes with a Content-Length equal to the chunk size |
| RequestFactory.FinishRequestDigest | DriveClient/Helpers/KDriveRequestFactory.cs:75-90 | the finish body with the digest of the content is the one member `total_chunk_hash`, holding `sha256:` and lower-case hex decoding to that digest; for a file whose stream is at its start this is the same value as in the upload parameters |
| RequestFactory.HashValueLowered | DriveClient/Helpers/KDriveRequestFactory.cs:79 | a hash already lower-cased is written the same way |
| RequestFactory.SessionRoutes | DriveClient/Helpers/KDriveRequestFactory.cs:86-100 | finish (version 3) and cancel (version 2, DELETE, no body) address the same drive and session token |
| RequestFactory.DownloadRoute | DriveClient/Helpers/KDriveRequestFactory.cs:109-112 | the download is a GET whose path names the drive and the file, both recoverable |
| RequestFactory.DriveRouteSegments | DriveClient/Helpers/KDriveRequestFactory.cs:42 | every drive route splits at `/` into the version, `drive`, the drive id (which parses back) and the remaining segments |
| JsonHelper.SuccessPassesThrough | DriveClient/Helpers/KDriveJsonHelper.cs:55-74 | a success status passes the response on unchanged, whatever the error reader would have said about its body |
| JsonHelper.DeserializeResponseCases | DriveClient/Helpers/KDriveJsonHelper.cs:53-75 | for a failure status: a body already read, or an unreadable one, raises the status as an `HttpRequestException`; a JSON `null` passes the response on with its body now read; an error body raises a `KDriveApiException` with that error and the message `code: description`, or a null dereference when its `error` is null; each outcome comes with exactly these inputs |
| JsonHelper.SecondCheck | DriveClient/Helpers/KDriveJsonHelper.cs:53-75 | checking again a response that passed: a success response passes unchanged; a failure response let through by a JSON `null` body has had its body disposed, so the second check raises its status as an `HttpRequestException` |
| JsonHelper.StartSessionResponseCases | DriveClient/Helpers/KDriveJsonHelper.cs:28-44 | the start succeeds if and only if `data` holds non-null `token` and `upload_url`, and then gives those two values; otherwise a readable response fails with an `InvalidOperationException` and an unreadable one with a JSON exception |
| JsonHelper.StartSessionErrorOrder | DriveClient/Helpers/KDriveJsonHelper.cs:36-43 | a missing `token` or `upload_url` key fails with the missing-properties error whatever the values; with both keys present, a null token fails with the null-token error |
| JsonHelper.UploadResponseCases | DriveClient/Helpers/KDriveJsonHelper.cs:17-20 | the file record is given if and only if the wrapper, its `data` and its `file` are all present; any other readable response fails with an `InvalidOperationException` |
| ErrorHandler.HandleApiError | DriveClient/Helpers/KDriveErrorHandler.cs:17-37 | it completes exactly when the response check passes the response on, and otherwise raises the same exception |
| Dispatch.SendAttempts | DriveClient/kDriveClient/KDriveClient.cs:176-205 | a send makes 1 to 3 attempts; its result is the last attempt's, unchanged (the third `HttpRequestException` is not wrapped); every earlier attempt failed with an `HttpRequestException`; fewer than three attempts means the last was not such a failure |
| Dispatch.SendSchedule | DriveClient/kDriveClient/KDriveClient.cs:174-202 | the events of a send are those of each attempt, with a pause of 500 ms after the first and 1000 ms after the second |
| Dispatch.OnlyTransportFailuresRetried | DriveClient/kDriveClient/KDriveClient.cs:198 | any exception other than an `HttpRequestException` (an API error among them) ends the send after its attempt |
| Dispatch.RateLimitedThenSent | DriveClient/kDriveClient/KDriveClient.cs:180-202 | a lease refused without a hint uses up an attempt and sends nothing; after 500 ms the next attempt goes ahead |
| Dispatch.RetryAfterHonoured | DriveClient/kDriveClient/KDriveClient.cs:180-196 | a lease refused with a hint waits that long and sends in the same attempt without asking again |
| Dispatch.SendOnceEvents | DriveClient/kDriveClient/KDriveClient.cs:180-196 | one attempt records at most a pause and the transmission, and an attempt that succeeded transmitted |
| Dispatch.SendEvents | DriveClient/kDriveClient/KDriveClient.cs:171-206 | a send records only pauses and transmissions of its own request, and one that succeeded transmitted it |
| Dispatch.SendChecked | DriveClient/Helpers/KDriveJsonHelper.cs:55-71 | a failure response that got through a send had its body read by the response check |
| Client.KDriveClient.SendAsync | DriveClient/kDriveClient/KDriveClient.cs:171-206 | the retry loop gives the result, attempt count and events of `Send`; the loop never runs out, so the final throw is unreachable |
| Client.KDriveClient.TryOnce | DriveClient/kDriveClient/KDriveClient.cs:180-196 | one pass of the loop: lease, optional pause, transmission and response check, as `SendOnce` gives them |
| Client.KDriveClient.SendWithErrorHandling | DriveClient/kDriveClient/KDriveClient.cs:214-219 | records the transmission; an exception from the HTTP stack propagates, and a response goes through the response check |
| Client.KDriveClient.constructor | DriveClient/kDriveClient/KDriveClient.cs:114-140 | the parallelism is copied; the threshold starts at 0; the chunk size is 0 with automatic sizing (until the probe sets it), otherwise the custom size, or 1 MiB when none is given (the threshold option is never read) |
| Client.KDriveClient.Create | DriveClient/kDriveClient/KDriveClient.cs:114-140 | a new client keeps the drive, platform, network and parallelism it was given and has no progress sink; without automatic sizing, construction always succeeds with threshold 0, the custom chunk size or 1 MiB, no attempts and no events; with it, construction succeeds exactly when the probe does, takes the probe's threshold, chunk size, attempts and events, and otherwise fails with the probe's exception |
| Client.KDriveClient.UploadAsync | DriveClient/kDriveClient/KDriveClient.cs:149-162 | the file is split with the client's chunk size and then uploaded as `UploadFile(AsWritten, ...)` says; the file is left as `FileAfterUpload` says: the new chunks stay on it, and the stream is back at its start after the split and at its end once the upload built its parameters |
| Uploads.UploadChoice | DriveClient/kDriveClient/KDriveClient.cs:151-161 | after a split, the total size is the content length; at most 1 MiB or at most the threshold goes direct, anything larger goes in chunks |
| Uploads.UploadLeavesStreamAtEnd | DriveClient/kDriveClient/KDriveClient.cs:149-162 | an upload that succeeds leaves the file with the chunks of the split after the ones it had, its stream at the end, and nothing else changed |
| Uploads.NothingToSendRejected | DriveClient/kDriveClient/Upload.cs:30-34 | empty content or a chunk size of 0 leaves a total size of 0, which the direct upload rejects before sending anything |
| Uploads.ExchangeOutcome | DriveClient/kDriveClient/Upload.cs:37-41 | the second response check after a send adds no event and no attempt; it passes a success response on unchanged, and a failure response that got through the first check (its body consumed) fails with its status as an `HttpRequestException`; only success responses get through |
| Uploads.ExchangeEvents | DriveClient/kDriveClient/Upload.cs:104-107 | an exchange uses at least one attempt, records only pauses and transmissions of its request, and one that got a response transmitted it |
| Client.KDriveClient.Exchange | DriveClient/kDriveClient/Upload.cs:133-136 | sending then checking the response again gives what `Uploads.Exchange` gives |
| Client.KDriveClient.UploadFileDirect | DriveClient/kDriveClient/Upload.cs:18-51 | gives the result and events of `UploadDirect(AsWritten, ...)`: the three checks in order, one request whose body is the first chunk only, then the file record read from the response; the file is left as `DirectFileAfter` says, with its stream at the end once the request was built |
| Uploads.DirectValidation | DriveClient/kDriveClient/Upload.cs:20-37 | no content, a blank name, or a total size of 0 is rejected, in that order, with its own `ArgumentException` and nothing sent; a file that sends anything passed all three checks and sends only its one request |
| Uploads.DirectSendsFirstChunk | DriveClient/kDriveClient/Upload.cs:37 | as written: a successful direct upload of a file split into chunks smaller than itself transmitted one request whose body is only its first chunk, the first `size` bytes, declared at the length of the whole content |
| Uploads.DirectSendsWholeFile | DriveClient/kDriveClient/Upload.cs:37 | as intended: a successful direct upload of a freshly split file transmitted one request whose body is the whole content, declared at its length |
| Client.KDriveClient.StartUploadSession | DriveClient/kDriveClient/Upload.cs:101-117 | gives the result and events of `StartSession` for the file as it was: build the request, exchange it, read the token and URL; building the parameters leaves the stream at its end (`AfterUploadParams`) |
| Uploads.StartSessionEvents | DriveClient/kDriveClient/Upload.cs:101-117 | a session starts only when its request can be built and was transmitted; nothing else is transmitted |
| Client.KDriveClient.UploadChunk | DriveClient/kDriveClient/Upload.cs:128-151 | gives the result and events of `Uploads.UploadChunk(AsWritten, ...)`: the chunk exchange, then the clean and, with a progress sink, the report (chunk number + 1) times the chunk size times 100 over the total size, capped at 100 |
| Uploads.FailedChunkNotCleaned | DriveClient/kDriveClient/Upload.cs:133-144 | a chunk whose upload failed is neither cleaned nor reported |
| Client.KDriveClient.UploadAllChunks | DriveClient/kDriveClient/Upload.cs:73-82 | the chunk loop gives the result and events of `UploadChunks(AsWritten, ...)`: every chunk in order with its report as written, each cleaned again after its upload, and the first failure ends it |
| Uploads.UploadChunksComplete | DriveClient/kDriveClient/Upload.cs:73-82 | when the loop succeeds, every chunk was transmitted and cleaned |
| Client.KDriveClient.UploadChunksThenFinish | DriveClient/kDriveClient/Upload.cs:73-85 | a degree of parallelism of 0 or below -1 fails with `ArgumentOutOfRangeException` before any chunk; otherwise every chunk, then the finish with the file's total hash read from where the stream stands, as `ChunksThenFinish(AsWritten, ...)` gives them; the read moves the stream to its end, and a refused parallelism or a chunk failure leaves it where it was |
| Uploads.ChunkLoopTransmits | DriveClient/kDriveClient/Upload.cs:73-82 | the chunk loop transmits nothing but the requests of the file's chunks |
| Uploads.NoFinishInChunkLoop | DriveClient/kDriveClient/Upload.cs:73-82 | the chunk loop never transmits a finish request |
| Uploads.NoFinishAfterChunkFailure | DriveClient/kDriveClient/Upload.cs:73-85 | when a chunk fails, the session body transmits no finish request, and with an accepted parallelism it fails with the chunk's exception |
| Uploads.FinishAfterChunks | DriveClient/kDriveClient/Upload.cs:73-85 | inside the session every transmission other than the finish comes before each transmission of the finish |
| Uploads.ParallelismRejected | DriveClient/kDriveClient/Upload.cs:73-91 | with a degree of parallelism of 0 or below -1, a started session is cancelled before any chunk: the upload records only the start and the cancel, and fails with `ArgumentOutOfRangeException`, or with the cancel's exception when the cancel fails |
| Client.KDriveClient.FinishUploadSession | DriveClient/kDriveClient/Upload.cs:160-176 | gives the result and events of `FinishSession`: the finish exchange, then the file record read from the response |
| Client.KDriveClient.CancelUploadSession | DriveClient/kDriveClient/Upload.cs:184-200 | gives the result and events of `CancelSession`: the cancel exchange, then the response body |
| Client.KDriveClient.UploadFileChunked | DriveClient/kDriveClient/Upload.cs:60-93 | gives the result and events of `UploadChunked(AsWritten, ...)`: no content is rejected; the start; the chunks and the finish; on a failure inside the session, the cancel, then the original exception or the cancel's; the file is left with its stream at the end once the start parameters were built (`AfterUploadParams`) |
| Uploads.StartFailureNotCancelled | DriveClient/kDriveClient/Upload.cs:69-71 | a session that could not be started is not cancelled; only the start request was transmitted, and its exception is the upload's |
| Uploads.SessionFailureCancelled | DriveClient/kDriveClient/Upload.cs:85-92 | a failure of a chunk or of the finish is followed by one cancel of the same session; the upload fails with the original exception when the cancel succeeds (which transmits the cancel) and with the cancel's exception when it fails |
| Uploads.ChunkedSuccess | DriveClient/kDriveClient/Upload.cs:73-85 | a successful chunked upload had an accepted degree of parallelism, started its session, transmitted and cleaned every chunk, and transmitted the finish carrying the digest of no bytes as written, or the digest of the whole content as intended |
| Uploads.FinishHashOfSession | DriveClient/kDriveClient/Upload.cs:85 | once the start parameters were built, the total hash the finish carries is the digest of no bytes as written and the digest of the whole content as intended |
| Uploads.FinishDigestMismatch | DriveClient/kDriveClient/Upload.cs:69-85 | as written, a successful chunked upload of a file whose stream is at its start announces the content digest in the start parameters (when that digest is not empty) and finishes with the digest of no bytes; the two agree only when the digest cannot tell the content from empty input |
| Uploads.PercentageOfTotal | DriveClient/kDriveClient/Upload.cs:147 | for a positive total, the percentage lies between 0 and 100, grows with the share, and is 100 for the whole |
| Uploads.ProgressBounded | DriveClient/kDriveClient/Upload.cs:146-148 | as intended: with bytes to upload, every report lies between 0 and 100 and the reports never go down from one chunk to the next |
| Uploads.ProgressFinal | DriveClient/kDriveClient/Upload.cs:146-148 | as intended: the report after the last chunk is 100 |
| Uploads.ProgressAsWrittenBounded | DriveClient/kDriveClient/Upload.cs:146-148 | as written, with a positive total size, every report lies between 0 and 100 |
| Uploads.ProgressAgreesOnFullChunks | DriveClient/kDriveClient/Upload.cs:146-147 | for every chunk of a split but the last, the report as written equals the bytes actually uploaded so far |
| Uploads.ProgressShortLastChunk | DriveClient/kDriveClient/Upload.cs:146-147 | 2001 bytes in chunks of 1000: as written, the report after the last chunk is 300/2001 percent, down from 200000/2001 after the chunk before, where the bytes uploaded give 100 |
| Client.KDriveClient.InitializeUploadStrategy | DriveClient/kDriveClient/SpeedTest.cs:17-83 | gives the result and events of `Probe`; the threshold and the chunk size are set to the probe's values when it succeeds and keep their old values when it fails |
| Client.KDriveClient.Measure | DriveClient/kDriveClient/SpeedTest.cs:19-27 | a custom size is taken for both values without sending anything; otherwise the test file is measured |
| Client.KDriveClient.MeasureTestFile | DriveClient/kDriveClient/SpeedTest.cs:29-54 | builds the test file, splits it, starts its session and measures its first chunk, as `ProbeTestFile` gives them |
| Client.KDriveClient.MeasureChunk | DriveClient/kDriveClient/SpeedTest.cs:54-80 | sends the chunk and checks its status, then cancels the session and computes the strategy, as `ProbeChunk` gives them |
| SpeedTest.ProbeCustom | DriveClient/kDriveClient/SpeedTest.cs:19-27 | a custom size becomes both the threshold and the chunk size, and no request is made |
| SpeedTest.TestFileOneChunk | DriveClient/kDriveClient/SpeedTest.cs:30-46 | the 1 MiB test buffer makes exactly one chunk, numbered 0, holding the whole buffer |
| SpeedTest.ProbeChunkEvents | DriveClient/kDriveClient/SpeedTest.cs:56-73 | only the chunk and the cancel are transmitted; a strategy comes only after both; a chunk refused by the server or by its status leaves the session open, with only the chunk transmitted |
| SpeedTest.ProbeSucceeded | DriveClient/kDriveClient/SpeedTest.cs:50-80 | a successful probe started a session for the test file, sent its chunk and cancelled the session, and transmitted nothing else; its strategy is the measured one |
| SpeedTest.ProbeOrder | DriveClient/kDriveClient/SpeedTest.cs:50-73 | a successful probe recorded the session start, then the test chunk, then the cancel, in that order, each transmitting only its own request |
| SpeedTest.MeasuredStrategy | DriveClient/kDriveClient/SpeedTest.cs:76-80 | for a positive time, the threshold is the speed in bytes per second (1048576000 divided by the milliseconds) and the chunk size (90% of it) never exceeds it; the chunk size is 0 exactly when the chunk took longer than 943718400 ms |

## Left out

- Files.Stream.Read: only the memory stream the file's content is held in is
  modelled. Streams that return fewer bytes than are available are not
  modelled, and neither are non-seekable streams whose `Position` setter
  throws `NotSupportedException`.
- Concurrency: `Parallel.ForEachAsync` uploads chunks in parallel. The model
  uploads them one after the other, so a failing chunk stops the chunks after
  it. The degree of parallelism is used only for the check of the loop's
  options (0 or below -1 fails with `ArgumentOutOfRangeException` inside the
  session); how many chunks are in flight at once is not modelled.
- Cancellation tokens, `async`/`await` and logging are not modelled.
- The HTTP stack and the rate limiter's fixed window are not modelled. They are
  an oracle that gives each attempt's lease and reply by attempt index, so the
  model states no property of the 59-requests-per-minute window.
- SHA-256, `Uri.EscapeDataString`, the JSON readers and `ConvertConflictChoice`
  are not modelled. They are uninterpreted `Platform` functions, and
  `ConvertConflictChoice` is a fixed string. JSON serialisation of request
  bodies is kept as an ordered list of members.
- The random test buffer and the stopwatch are parameters.
- SpeedTest.Measured: double arithmetic is modelled as exact integer
  division. An elapsed time of 0 gives an infinite speed, modelled as the
  largest 64-bit and 32-bit values. The cast of a larger speed to the chunk
  size is not modelled, because the 1 MiB buffer never reaches it.
- Uploads.Percentage: exact rationals, not doubles. A zero total gives
  infinity (capped to 100), NaN or negative infinity.
- `KDriveChunk.Clean()` is not part of this model, because its body is not
  defined in the source. It is recorded as an event and is assumed not to
  change the chunk's size.
- `Download.cs`, `GetVersion` and the `HttpClient` set-up (base address,
  headers) are not modelled. The download request itself is modelled.
- Query values other than the file name are written unescaped, as in the
  source. `UploadDirectUrlRoundTrip` therefore needs values without `&` or `=`.
- The wrapper type name the upload-response reader uses differs from the one
  the context files declare. The model reads `data.file` as the reader does.
- `HttpRequestException("Maximum retry attempts exceeded")` at
  KDriveClient.cs:205 is not modelled, because it is unreachable.
  `SendAsync` proves this: the loop exit is dead code.
- Text.ToLowerInvariant: lower-cases ASCII letters only. Other characters
  with a lower-case form are left unchanged. It is applied only to hex
  digests here, which are ASCII.
- The test classes call a six-argument constructor that the client does not
  have, so they are not used as a specification, apart from the chunk counts
  of `KDriveFileTests`.

## Findings

| source | as written | input that shows it | evidently intended | confidence | as-written member | corrected member |
|---|---|---|---|---|---|---|
| DriveClient/Models/KDriveFile.cs:37-44 | the total hash is the digest of the content stream from its current position, and reading it leaves the stream at the end; the chunked upload reads it once for the start parameters (KDriveRequestFactory.cs:133) and again for the finish (Upload.cs:85), so the finish carries the digest of no bytes | content 0, 1, 2, 3 (under a digest that tells it from empty input) uploaded in chunks: the start announces its digest, the finish sends the digest of empty input | the digest of the whole content, whatever the stream position | not executed | Uploads.FinishDigestMismatch | Uploads.ChunkedSuccess |
| DriveClient/Helpers/KDriveRequestFactory.cs:22-26 | the direct upload body is the first chunk's bytes only, while its Content-Length is the total size of all chunks | a file larger than the chunk size but at most 1 MiB, split into several chunks, sends only its first chunk | the body is the whole content, as long as it declares | not executed | Uploads.DirectSendsFirstChunk | Uploads.DirectSendsWholeFile |
| DriveClient/kDriveClient/Upload.cs:146-147 | the bytes uploaded so far are taken as (chunk number + 1) times this chunk's size, which is wrong for a short last chunk | 2001 bytes in chunks of 1000: after the last chunk the report is 300/2001 percent | the share of the bytes of all chunks uploaded so far, 100 after the last | not executed | Uploads.ProgressShortLastChunk | Uploads.ProgressFinal |
