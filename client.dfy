/**
 * The client object: its configuration, the retrying send every request
 * goes through, and the upload operations, each proved to do what the
 * corresponding function of `Dispatch`, `Uploads` or `SpeedTest` says. The
 * fields `attempts` and `events` record what the client has done: the index
 * of its next attempt and everything it caused.
 */
module Client {
  import opened Common
  import opened Text
  import opened Models
  import opened Chunks
  import opened Files
  import opened RequestFactory
  import opened JsonHelper
  import opened Dispatch
  import opened Uploads
  import opened SpeedTest

  class KDriveClient {
    const driveId: int
    const platform: Platform
    const network: Network
    const parallelism: int
    var directUploadThresholdBytes: int
    var dynamicChunkSizeBytes: int
    /** Whether a progress sink is set. */
    var reporting: bool
    var attempts: nat
    var events: seq<Event>

    function Environment(): Env
      reads this`reporting
    {
      Env(platform, network, driveId, parallelism, reporting)
    }

    /**
     * The configuration part of construction: the parallelism is copied; with
     * automatic sizing the two sizes are left at 0 for the measurement to set;
     * otherwise the chunk size is the custom one or 1 MiB. The threshold of
     * the options is never read.
     */
    constructor (driveId: int, options: KDriveClientOptions, platform: Platform, network: Network)
      ensures this.driveId == driveId && this.platform == platform && this.network == network
      ensures parallelism == options.parallelism && directUploadThresholdBytes == 0
      ensures dynamicChunkSizeBytes ==
        if options.useAutoChunkSize then 0
        else if options.chunkSize.None? then OneMiB
        else options.chunkSize.value
      ensures !reporting && attempts == 0 && events == []
    {
      this.driveId := driveId;
      this.platform := platform;
      this.network := network;
      this.parallelism := options.parallelism;
      directUploadThresholdBytes := 0;
      reporting := false;
      attempts := 0;
      events := [];
      if options.useAutoChunkSize {
        dynamicChunkSizeBytes := 0;
      } else if options.chunkSize.None? {
        dynamicChunkSizeBytes := OneMiB;
      } else {
        dynamicChunkSizeBytes := options.chunkSize.value;
      }
    }

    /**
     * The whole construction: configuration, then, with automatic sizing, the
     * measurement, whose exception is the constructor's. `buffer` is the
     * random test data and `elapsedMs` the stopwatch reading.
     */
    static method Create(driveId: int, options: KDriveClientOptions, platform: Platform, network: Network,
                         buffer: seq<byte>, elapsedMs: nat) returns (r: Result<KDriveClient, Exception>)
      ensures !options.useAutoChunkSize ==> r.Ok?
      ensures r.Ok? ==> fresh(r.value) && r.value.driveId == driveId && r.value.parallelism == options.parallelism
      ensures r.Ok? ==> r.value.platform == platform && r.value.network == network && !r.value.reporting
      ensures !options.useAutoChunkSize ==>
        && r.value.directUploadThresholdBytes == 0 && r.value.attempts == 0 && r.value.events == []
        && r.value.dynamicChunkSizeBytes == (if options.chunkSize.None? then OneMiB else options.chunkSize.value)
      ensures options.useAutoChunkSize ==>
        var run := Probe(Env(platform, network, driveId, options.parallelism, false), None, buffer, elapsedMs, 0);
        && (r.Ok? <==> run.result.Ok?)
        && (r.Err? ==> r.error == run.result.error)
        && (r.Ok? ==>
              && r.value.directUploadThresholdBytes == run.result.value.directUploadThresholdBytes
              && r.value.dynamicChunkSizeBytes == run.result.value.dynamicChunkSizeBytes
              && r.value.attempts == run.next && r.value.events == run.events)
    {
      var client := new KDriveClient(driveId, options, platform, network);
      if options.useAutoChunkSize {
        var o := client.InitializeUploadStrategy(None, buffer, elapsedMs);
        if o.Fail? {
          return Err(o.error);
        }
      }
      return Ok(client);
    }

    /**
     * The retry loop: up to three passes, each asking for a lease and sending;
     * an `HttpRequestException` before the last pass is followed by a pause
     * of 500 ms, doubled each time, and another pass. The loop never runs out:
     * the third pass always returns or throws.
     */
    method SendAsync(request: HttpRequest) returns (r: Result<HttpResponse, Exception>)
      modifies this`attempts, this`events
      ensures var run := Send(Environment(), request, old(attempts));
        r == run.result && attempts == run.next && events == old(events) + run.events
    {
      var maxRetries := 3;
      var delay: nat := 500;
      ghost var env := Environment();
      ghost var target := Send(env, request, attempts);
      ghost var before := events;
      var i := 0;
      while i < maxRetries
        invariant RetryState(env, request, target, before, events, i, delay, attempts)
      {
        ghost var k, recorded := attempts, events;
        var outcome := TryOnce(env, request);
        if !(Retried(outcome) && i < MaxRetries - 1) {
          RetryFromStop(env, request, target, before, recorded, i, delay, k);
          return outcome;
        }
        RetryFromContinue(env, request, target, before, recorded, i, delay, k);
        events := events + [Wait(delay)];
        delay := delay * 2;
        i := i + 1;
      }
      assert false;
      r := Err(HttpRequestException(RetriesExhausted));
    }

    /**
     * One pass of the retry loop: a lease is asked for; a refusal without a
     * hint fails before sending, one with a hint waits that long; then the
     * request is sent.
     */
    method TryOnce(ghost env: Env, request: HttpRequest) returns (outcome: Result<HttpResponse, Exception>)
      requires env == Environment()
      modifies this`attempts, this`events
      ensures outcome == SendOnce(env, request, old(attempts)).0
      ensures events == old(events) + SendOnce(env, request, old(attempts)).1
      ensures attempts == old(attempts) + 1 && Environment() == env
    {
      var attempt := network(attempts, request);
      attempts := attempts + 1;
      if attempt.lease == Refused(None) {
        return Err(HttpRequestException(RateLimitExceeded));
      }
      if attempt.lease.Refused? {
        events := events + [Wait(attempt.lease.retryAfter.value)];
      }
      outcome := SendWithErrorHandling(request, attempt.reply);
    }

    /** One transmission: the reply goes through the response check. */
    method SendWithErrorHandling(request: HttpRequest, reply: Reply) returns (r: Result<HttpResponse, Exception>)
      modifies this`events
      ensures events == old(events) + [Transmit(request)]
      ensures r == match reply
        case Thrown(e) => Err(e)
        case Delivered(response) => DeserializeResponse(platform.parseErrorResponse, response)
    {
      events := events + [Transmit(request)];
      match reply
      case Thrown(e) => r := Err(e);
      case Delivered(response) => r := DeserializeResponse(platform.parseErrorResponse, response);
    }

    /** Sending, then the response check again, as each upload step does. */
    method Exchange(request: HttpRequest) returns (r: Result<HttpResponse, Exception>)
      modifies this`attempts, this`events
      ensures var run := Uploads.Exchange(Environment(), request, old(attempts));
        r == run.result && attempts == run.next && events == old(events) + run.events
    {
      r := SendAsync(request);
      if r.Ok? {
        r := DeserializeResponse(platform.parseErrorResponse, r.value);
      }
    }

    /** The session start; building its parameters reads the file's total hash. */
    method StartUploadSession(file: KDriveFile) returns (r: Result<(string, string), Exception>)
      modifies this`attempts, this`events, file.content
      ensures var run := StartSession(Environment(), old(file.View()), old(attempts));
        r == run.result && attempts == run.next && events == old(events) + run.events
      ensures file.View() == AfterUploadParams(old(file.View()))
    {
      var request := CreateStartSessionRequest(platform, driveId, file);
      if request.Err? {
        return Err(request.error);
      }
      var response := Exchange(request.value);
      if response.Err? {
        return Err(response.error);
      }
      r := ParseStartSessionResponse(platform.parseResponse, response.value.body);
    }

    /**
     * One chunk, then its progress: the chunk's 1-based number times its
     * size, over the total size of the file.
     */
    method UploadChunk(url: string, token: string, view: FileView, i: nat) returns (o: Outcome<Exception>)
      requires i < |view.chunks|
      modifies this`attempts, this`events
      ensures var run := Uploads.UploadChunk(AsWritten, Environment(), url, token, view, i, old(attempts));
        (o.Pass? <==> run.result.Ok?) && (o.Fail? ==> run.result == Err(o.error))
        && attempts == run.next && events == old(events) + run.events
    {
      var chunk := view.chunks[i];
      var response := Exchange(ChunkRequest(url, token, driveId, chunk));
      if response.Err? {
        return Fail(response.error);
      }
      events := events + [Clean(chunk.chunkNumber)];
      if reporting {
        events := events + [Report(ProgressAsWritten(chunk, view.TotalSize()))];
      }
      return Pass;
    }

    method FinishUploadSession(token: string, totalChunkHash: string) returns (r: Result<KDriveUploadResponse, Exception>)
      modifies this`attempts, this`events
      ensures var run := FinishSession(Environment(), token, totalChunkHash, old(attempts));
        r == run.result && attempts == run.next && events == old(events) + run.events
    {
      var response := Exchange(FinishRequest(driveId, token, totalChunkHash));
      if response.Err? {
        return Err(response.error);
      }
      r := DeserializeUploadResponse(platform.parseUploadResponse, response.value.body);
    }

    method CancelUploadSession(token: string) returns (r: Result<string, Exception>)
      modifies this`attempts, this`events
      ensures var run := CancelSession(Environment(), token, old(attempts));
        r == run.result && attempts == run.next && events == old(events) + run.events
    {
      var response := Exchange(CancelRequest(driveId, token));
      if response.Err? {
        return Err(response.error);
      }
      r := Ok(response.value.body);
    }

    /**
     * The parallel loop's options, which refuse a degree of parallelism of 0
     * or below -1; then every chunk in order, then the finish with the
     * file's total hash, read from the stream where it stands.
     */
    method UploadChunksThenFinish(file: KDriveFile, token: string, url: string) returns (r: Result<KDriveUploadResponse, Exception>)
      requires file.content != null
      modifies this`attempts, this`events, file.content
      ensures var run := ChunksThenFinish(AsWritten, Environment(), old(file.View()), token, url, old(attempts));
        r == run.result && attempts == run.next && events == old(events) + run.events
      ensures file.View() ==
        if ValidParallelism(parallelism) && UploadChunks(AsWritten, Environment(), url, token, old(file.View()), 0, old(attempts)).result.Ok?
        then old(file.View()).AfterDigest() else old(file.View())
    {
      if !ValidParallelism(parallelism) {
        return Err(ArgumentOutOfRangeException);
      }
      ghost var env, before := Environment(), events;
      var view := file.View();
      var chunks := UploadAllChunks(view, token, url);
      if chunks.Err? {
        return Err(chunks.error);
      }
      ghost var body, k := events[|before|..], attempts;
      var hash := file.TotalChunkHash(platform.sha256);
      r := FinishUploadSession(token, hash.value);
      AppendAssoc(before, body, FinishSession(env, token, hash.value, k).events);
    }

    /** The chunk loop: every chunk in order, each cleaned once more after its upload; the first failure ends it. */
    method UploadAllChunks(view: FileView, token: string, url: string) returns (r: Result<(), Exception>)
      modifies this`attempts, this`events
      ensures var run := UploadChunks(AsWritten, Environment(), url, token, view, 0, old(attempts));
        r == run.result && attempts == run.next && events == old(events) + run.events
    {
      ghost var env := Environment();
      ghost var target := UploadChunks(AsWritten, env, url, token, view, 0, attempts);
      ghost var before := events;
      var i := 0;
      while i < |view.chunks|
        invariant ChunkLoop(AsWritten, env, url, token, view, target, before, events, i, attempts)
        invariant Environment() == env
      {
        ghost var k, recorded := attempts, events;
        var o := UploadChunk(url, token, view, i);
        if o.Fail? {
          ChunkLoopFailed(AsWritten, env, url, token, view, target, before, recorded, i, k);
          return Err(o.error);
        }
        ChunkLoopNext(AsWritten, env, url, token, view, target, before, recorded, i, k);
        events := events + [Clean(view.chunks[i].chunkNumber)];
        i := i + 1;
      }
      ChunkLoopDone(AsWritten, env, url, token, view, target, before, events, attempts);
      r := Ok(());
    }

    /**
     * The chunked upload: the session start, the chunks and the finish, and
     * the cancel when anything inside the session fails. The stream is read
     * to its end for the start parameters.
     */
    method UploadFileChunked(file: KDriveFile) returns (r: Result<KDriveUploadResponse, Exception>)
      modifies this`attempts, this`events, file.content
      ensures var run := UploadChunked(AsWritten, Environment(), old(file.View()), old(attempts));
        r == run.result && attempts == run.next && events == old(events) + run.events
      ensures file.View() == AfterUploadParams(old(file.View()))
    {
      if file.content == null {
        return Err(ArgumentException(ContentRequiredMessage));
      }
      ghost var env, before, k := Environment(), events, attempts;
      ghost var view := file.View();
      var started := StartUploadSession(file);
      if started.Err? {
        return Err(started.error);
      }
      ghost var start := StartSession(env, view, k);
      StartSessionEvents(env, view, k);
      StreamHashAfterDigest(platform.sha256, view);
      var (token, url) := started.value;
      ghost var afterStart := attempts;
      r := UploadChunksThenFinish(file, token, url);
      ghost var body := ChunksThenFinish(AsWritten, env, AfterUploadParams(view), token, url, afterStart);
      AppendAssoc(before, start.events, body.events);
      if r.Err? {
        ghost var afterBody := attempts;
        var cancel := CancelUploadSession(token);
        AppendAssoc(before, start.events + body.events, CancelSession(env, token, afterBody).events);
        if cancel.Err? {
          r := Err(cancel.error);
        }
      }
    }

    /**
     * The direct upload: the three checks, then one request built from the
     * file, which reads its total hash.
     */
    method UploadFileDirect(file: KDriveFile) returns (r: Result<KDriveUploadResponse, Exception>)
      modifies this`attempts, this`events, file.content
      ensures var run := UploadDirect(AsWritten, Environment(), old(file.View()), old(attempts));
        r == run.result && attempts == run.next && events == old(events) + run.events
      ensures file.View() == DirectFileAfter(old(file.View()))
    {
      var view := file.View();
      if file.content == null {
        return Err(ArgumentException(ContentRequiredMessage));
      } else if IsNullOrWhiteSpace(Some(file.name)) {
        return Err(ArgumentException(NameRequiredMessage));
      } else if view.TotalSize() <= 0 {
        return Err(ArgumentException(SizeRequiredMessage));
      }
      var request := CreateUploadDirectRequest(platform, driveId, file);
      if request.Err? {
        return Err(request.error);
      }
      var response := Exchange(request.value);
      if response.Err? {
        return Err(response.error);
      }
      r := DeserializeUploadResponse(platform.parseUploadResponse, response.value.body);
    }

    /**
     * Splits the file with the client's chunk size (the new chunks stay on
     * the file), then uploads it directly or in chunks by its total size.
     */
    method UploadAsync(file: KDriveFile) returns (r: Result<KDriveUploadResponse, Exception>)
      modifies this`attempts, this`events, file`chunks, file.content
      ensures var run := UploadFile(AsWritten, Environment(), old(file.View()), dynamicChunkSizeBytes, directUploadThresholdBytes, old(attempts));
        r == run.result && attempts == run.next && events == old(events) + run.events
      ensures file.View() == FileAfterUpload(platform.sha256, old(file.View()), dynamicChunkSizeBytes, directUploadThresholdBytes)
      ensures dynamicChunkSizeBytes >= 0 && file.content != null ==>
        file.chunks == old(file.chunks) + ChunksOf(platform.sha256, file.content.data, dynamicChunkSizeBytes)
      ensures dynamicChunkSizeBytes < 0 || file.content == null ==> file.chunks == old(file.chunks)
    {
      ghost var before := file.View();
      var o := file.SplitIntoChunks(platform.sha256, dynamicChunkSizeBytes);
      if o.Fail? {
        return Err(o.error);
      }
      assert file.View() == Split(platform.sha256, before, dynamicChunkSizeBytes);
      if DirectChosen(file.View().TotalSize(), directUploadThresholdBytes) {
        r := UploadFileDirect(file);
      } else {
        r := UploadFileChunked(file);
      }
    }

    /**
     * The measurement behind automatic sizing: sets the threshold and the
     * chunk size when it succeeds, and leaves them as they were otherwise.
     */
    method InitializeUploadStrategy(customChunkSize: Option<int>, buffer: seq<byte>, elapsedMs: nat) returns (o: Outcome<Exception>)
      modifies this`attempts, this`events, this`directUploadThresholdBytes, this`dynamicChunkSizeBytes
      ensures var run := Probe(Environment(), customChunkSize, buffer, elapsedMs, old(attempts));
        && (o.Pass? <==> run.result.Ok?) && (o.Fail? ==> run.result == Err(o.error))
        && attempts == run.next && events == old(events) + run.events
        && (o.Pass? ==>
              directUploadThresholdBytes == run.result.value.directUploadThresholdBytes
              && dynamicChunkSizeBytes == run.result.value.dynamicChunkSizeBytes)
        && (o.Fail? ==>
              directUploadThresholdBytes == old(directUploadThresholdBytes)
              && dynamicChunkSizeBytes == old(dynamicChunkSizeBytes))
    {
      ghost var env := Environment();
      var strategy := Measure(customChunkSize, buffer, elapsedMs);
      if strategy.Err? {
        return Fail(strategy.error);
      }
      directUploadThresholdBytes := strategy.value.directUploadThresholdBytes;
      dynamicChunkSizeBytes := strategy.value.dynamicChunkSizeBytes;
      assert Environment() == env;
      return Pass;
    }

    /**
     * A custom chunk size is taken as it is; otherwise the test file is measured.
     */
    method Measure(customChunkSize: Option<int>, buffer: seq<byte>, elapsedMs: nat) returns (r: Result<Strategy, Exception>)
      modifies this`attempts, this`events
      ensures var run := Probe(Environment(), customChunkSize, buffer, elapsedMs, old(attempts));
        r == run.result && attempts == run.next && events == old(events) + run.events
    {
      if customChunkSize.Some? {
        return Ok(Strategy(customChunkSize.value, customChunkSize.value));
      }
      r := MeasureTestFile(buffer, elapsedMs);
    }

    /** The test file is built from the buffer, its upload session started and its single chunk measured. */
    method MeasureTestFile(buffer: seq<byte>, elapsedMs: nat) returns (r: Result<Strategy, Exception>)
      modifies this`attempts, this`events
      ensures var run := ProbeTestFile(Environment(), buffer, elapsedMs, old(attempts));
        r == run.result && attempts == run.next && events == old(events) + run.events
    {
      ghost var env, before, k := Environment(), events, attempts;
      var content := new Stream(buffer);
      var testFile := new KDriveFile(TestFileName, content);
      testFile.directoryPath := Some(TestDirectory);
      var split := testFile.SplitIntoChunks(platform.sha256, |buffer|);
      var test := testFile.View();
      assert test == TestFile(platform.sha256, buffer);
      var started := StartUploadSession(testFile);
      if started.Err? {
        return Err(started.error);
      }
      if test.chunks == [] {
        return Err(InvalidOperationException(EmptySequenceMessage));
      }
      var (token, url) := started.value;
      ghost var afterStart := attempts;
      r := MeasureChunk(token, url, test.chunks[0], |buffer|, elapsedMs);
      AppendAssoc(before, StartSession(env, test, k).events,
                  ProbeChunk(env, token, url, test.chunks[0], |buffer|, elapsedMs, afterStart).events);
    }

    /** The test chunk is sent and its status checked, then the test session cancelled and the speed taken. */
    method MeasureChunk(token: string, url: string, chunk: KDriveChunk, bytes: nat, elapsedMs: nat) returns (r: Result<Strategy, Exception>)
      modifies this`attempts, this`events
      ensures var run := ProbeChunk(Environment(), token, url, chunk, bytes, elapsedMs, old(attempts));
        r == run.result && attempts == run.next && events == old(events) + run.events
    {
      ghost var env, before := Environment(), events;
      var response := SendAsync(ChunkRequest(url, token, driveId, chunk));
      if response.Err? {
        return Err(response.error);
      }
      if !IsSuccessStatusCode(response.value.statusCode) {
        return Err(HttpRequestException(StatusCode(response.value.statusCode)));
      }
      ghost var sent, afterSend := events[|before|..], attempts;
      var cancel := CancelUploadSession(token);
      AppendAssoc(before, sent, CancelSession(env, token, afterSend).events);
      if cancel.Err? {
        return Err(cancel.error);
      }
      r := Ok(Measured(bytes, elapsedMs));
    }
  }
}
