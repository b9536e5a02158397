/**
 * The upload operations of the client as functions of the file, the
 * environment and the index of the next attempt: the direct upload, the
 * chunked upload (session start, chunks, finish, and cancel on failure),
 * the progress reports, and the choice between the two uploads. Where the
 * client's behaviour departs from what it evidently intends (the progress
 * formula, the direct upload body, the digest sent with the finish), a
 * `Revision` parameter selects one or the other; the client follows
 * `AsWritten`.
 */
module Uploads {
  import opened Common
  import opened Hex
  import opened Text
  import opened Models
  import opened Chunks
  import opened Files
  import opened RequestFactory
  import opened JsonHelper
  import opened Dispatch

  /** The behaviour as the client has it, or as it evidently means to have it. */
  datatype Revision = AsWritten | Intended

  const ContentRequiredMessage: string := "File content is required"
  const NameRequiredMessage: string := "File name is required"
  const SizeRequiredMessage: string := "File size must be greater than 0"

  /** A run that failed before causing anything. */
  function Rejected<T>(e: Exception, k: nat): Run<T>
  {
    Run(Err(e), [], k)
  }

  /** Sending, then the response check a second time, as every upload step does. */
  function Exchange(env: Env, request: HttpRequest, k: nat): Run<HttpResponse>
  {
    var sent := Send(env, request, k);
    if sent.result.Err? then sent
    else Run(DeserializeResponse(env.platform.parseErrorResponse, sent.result.value), sent.events, sent.next)
  }

  /**
   * The second response check adds no event and no attempt. It passes a
   * success response on unchanged; a failure response that got through
   * sending (its body was JSON `null`) has had its body consumed, so the
   * second check raises its status. Only success responses get through.
   */
  lemma ExchangeOutcome(env: Env, request: HttpRequest, k: nat)
    ensures var sent, run := Send(env, request, k), Exchange(env, request, k);
      && run.events == sent.events && run.next == sent.next
      && (sent.result.Err? || IsSuccessStatusCode(sent.result.value.statusCode) ==> run.result == sent.result)
      && (sent.result.Ok? && !IsSuccessStatusCode(sent.result.value.statusCode) ==>
            run.result == Err(HttpRequestException(StatusCode(sent.result.value.statusCode))))
      && (run.result.Ok? ==> IsSuccessStatusCode(run.result.value.statusCode))
  {
    SendChecked(env, request, k);
  }

  /** The session start: the parameters as JSON, then the token and upload URL read from the response. */
  function StartSession(env: Env, view: FileView, k: nat): Run<(string, string)>
  {
    match StartSessionRequest(env.platform, env.driveId, view)
    case Err(e) => Rejected(e, k)
    case Ok(request) =>
      var sent := Exchange(env, request, k);
      match sent.result
      case Err(e) => Run(Err(e), sent.events, sent.next)
      case Ok(response) => Run(ParseStartSessionResponse(env.platform.parseResponse, response.body), sent.events, sent.next)
  }

  /**
   * The share of `uploaded` in `total` as a percentage, capped at 100, as
   * double arithmetic gives it: a zero total divides to positive infinity
   * (capped to 100), NaN or negative infinity.
   */
  function Percentage(uploaded: int, total: nat): Percent
  {
    if total == 0 then
      if uploaded > 0 then Finite(100.0) else if uploaded == 0 then NaN else NegativeInfinity
    else
      var ratio := (uploaded * 100) as real / total as real;
      Finite(if ratio < 100.0 then ratio else 100.0)
  }

  /** The progress reported after a chunk, as written: the chunk's 1-based number times its own size, over the total size. */
  function ProgressAsWritten(chunk: KDriveChunk, total: nat): Percent
  {
    Percentage((chunk.chunkNumber + 1) * chunk.ChunkSize(), total)
  }

  /** The progress after chunk `i`: the bytes of the chunks up to and including it, over the total size. */
  function Progress(cs: seq<KDriveChunk>, i: nat): Percent
    requires i < |cs|
  {
    Percentage(SumSizes(cs[..i + 1]), SumSizes(cs))
  }

  /** The progress reported after chunk `i` of the file. */
  function ChunkProgress(rev: Revision, view: FileView, i: nat): Percent
    requires i < |view.chunks|
  {
    match rev
    case AsWritten => ProgressAsWritten(view.chunks[i], view.TotalSize())
    case Intended => Progress(view.chunks, i)
  }

  /**
   * One chunk: the chunk request, then the chunk is cleaned and, when a
   * progress sink is set, the progress reported. A failure propagates before
   * either.
   */
  function UploadChunk(rev: Revision, env: Env, url: string, token: string, view: FileView, i: nat, k: nat): Run<()>
    requires i < |view.chunks|
  {
    var chunk := view.chunks[i];
    var sent := Exchange(env, ChunkRequest(url, token, env.driveId, chunk), k);
    if sent.result.Err? then Run(Err(sent.result.error), sent.events, sent.next)
    else
      var report := if env.reporting then [Report(ChunkProgress(rev, view, i))] else [];
      Run(Ok(()), sent.events + [Clean(chunk.chunkNumber)] + report, sent.next)
  }

  /**
   * The chunks from `i` on, one after the other, each cleaned once more
   * after its upload; the first failure ends the loop.
   */
  function UploadChunks(rev: Revision, env: Env, url: string, token: string, view: FileView, i: nat, k: nat): Run<()>
    requires i <= |view.chunks|
    decreases |view.chunks| - i
  {
    if i == |view.chunks| then Run(Ok(()), [], k)
    else
      var one := UploadChunk(rev, env, url, token, view, i, k);
      if one.result.Err? then one
      else
        var rest := UploadChunks(rev, env, url, token, view, i + 1, one.next);
        Run(rest.result, one.events + [Clean(view.chunks[i].chunkNumber)] + rest.events, rest.next)
  }

  /**
   * The chunk loop as a loop: before chunk `i`, the events recorded so far
   * followed by what the remaining chunks record are the events `before`
   * followed by those of the whole loop `target`.
   */
  predicate ChunkLoop(rev: Revision, env: Env, url: string, token: string, view: FileView, target: Run<()>, before: seq<Event>, events: seq<Event>, i: nat, k: nat)
  {
    i <= |view.chunks| &&
    var rest := UploadChunks(rev, env, url, token, view, i, k);
    target.result == rest.result && target.next == rest.next && before + target.events == events + rest.events
  }

  /** A chunk that fails ends the loop with its exception. */
  lemma ChunkLoopFailed(rev: Revision, env: Env, url: string, token: string, view: FileView, target: Run<()>, before: seq<Event>, events: seq<Event>, i: nat, k: nat)
    requires ChunkLoop(rev, env, url, token, view, target, before, events, i, k) && i < |view.chunks|
    requires UploadChunk(rev, env, url, token, view, i, k).result.Err?
    ensures var one := UploadChunk(rev, env, url, token, view, i, k);
      target.result == one.result && target.next == one.next && events + one.events == before + target.events
  {
  }

  /** A chunk that goes through is cleaned once more, and the loop moves on. */
  lemma ChunkLoopNext(rev: Revision, env: Env, url: string, token: string, view: FileView, target: Run<()>, before: seq<Event>, events: seq<Event>, i: nat, k: nat)
    requires ChunkLoop(rev, env, url, token, view, target, before, events, i, k) && i < |view.chunks|
    requires UploadChunk(rev, env, url, token, view, i, k).result.Ok?
    ensures var one := UploadChunk(rev, env, url, token, view, i, k);
      ChunkLoop(rev, env, url, token, view, target, before, events + one.events + [Clean(view.chunks[i].chunkNumber)], i + 1, one.next)
  {
    var one := UploadChunk(rev, env, url, token, view, i, k);
    UploadChunksStep(rev, env, url, token, view, i, k);
    RecordStep(target, UploadChunks(rev, env, url, token, view, i, k), UploadChunks(rev, env, url, token, view, i + 1, one.next),
               before, events, one.events + [Clean(view.chunks[i].chunkNumber)]);
    AppendAssoc(events, one.events, [Clean(view.chunks[i].chunkNumber)]);
  }

  /** A chunk that goes through is followed by its second clean and the loop from the next chunk. */
  lemma UploadChunksStep(rev: Revision, env: Env, url: string, token: string, view: FileView, i: nat, k: nat)
    requires i < |view.chunks| && UploadChunk(rev, env, url, token, view, i, k).result.Ok?
    ensures var one := UploadChunk(rev, env, url, token, view, i, k);
      var rest := UploadChunks(rev, env, url, token, view, i + 1, one.next);
      UploadChunks(rev, env, url, token, view, i, k) == Run(rest.result, one.events + [Clean(view.chunks[i].chunkNumber)] + rest.events, rest.next)
  {
  }

  /**
   * Moving a step from what a run has left to do to what it has recorded
   * keeps the recorded events followed by the remaining ones the same.
   */
  lemma RecordStep<T>(target: Run<T>, whole: Run<T>, rest: Run<T>, before: seq<Event>, events: seq<Event>, step: seq<Event>)
    requires target.result == whole.result && target.next == whole.next && before + target.events == events + whole.events
    requires whole == Run(rest.result, step + rest.events, rest.next)
    ensures target.result == rest.result && target.next == rest.next && before + target.events == events + step + rest.events
  {
    AppendAssoc(events, step, rest.events);
  }

  /** After the last chunk the loop has gone through. */
  lemma ChunkLoopDone(rev: Revision, env: Env, url: string, token: string, view: FileView, target: Run<()>, before: seq<Event>, events: seq<Event>, k: nat)
    requires ChunkLoop(rev, env, url, token, view, target, before, events, |view.chunks|, k)
    ensures target.result == Ok(()) && target.next == k && events == before + target.events
  {
  }

  /** The session finish with the total hash, then the file record read from the response. */
  function FinishSession(env: Env, token: string, totalChunkHash: string, k: nat): Run<KDriveUploadResponse>
  {
    var sent := Exchange(env, FinishRequest(env.driveId, token, totalChunkHash), k);
    match sent.result
    case Err(e) => Run(Err(e), sent.events, sent.next)
    case Ok(response) => Run(DeserializeUploadResponse(env.platform.parseUploadResponse, response.body), sent.events, sent.next)
  }

  /** The session cancel; gives the response body. */
  function CancelSession(env: Env, token: string, k: nat): Run<string>
  {
    var sent := Exchange(env, CancelRequest(env.driveId, token), k);
    match sent.result
    case Err(e) => Run(Err(e), sent.events, sent.next)
    case Ok(response) => Run(Ok(response.body), sent.events, sent.next)
  }

  /**
   * The total hash the finish carries: as written, the file's total hash
   * read once more from where the stream is; as intended, the digest of the
   * whole content.
   */
  function FinishHash(rev: Revision, sha256: seq<byte> -> seq<byte>, view: FileView): string
    requires view.content.Some?
  {
    match rev
    case AsWritten => view.StreamHash(sha256)
    case Intended => ContentHash(sha256, view.content.value)
  }

  /** The degrees of parallelism the parallel loop accepts: -1 (no limit) or a positive number. */
  predicate ValidParallelism(parallelism: int)
  {
    parallelism == -1 || parallelism > 0
  }

  /**
   * What runs inside the session on the file as the session start left it:
   * the options of the parallel loop are built with the client's degree of
   * parallelism, which fails when that degree is not accepted; then every
   * chunk, then the finish with the total hash.
   */
  function ChunksThenFinish(rev: Revision, env: Env, view: FileView, token: string, url: string, k: nat): Run<KDriveUploadResponse>
    requires view.content.Some?
  {
    if !ValidParallelism(env.parallelism) then Rejected(ArgumentOutOfRangeException, k)
    else
      var chunks := UploadChunks(rev, env, url, token, view, 0, k);
      if chunks.result.Err? then Run(Err(chunks.result.error), chunks.events, chunks.next)
      else
        var finish := FinishSession(env, token, FinishHash(rev, env.platform.sha256, view), chunks.next);
        Run(finish.result, chunks.events + finish.events, finish.next)
  }

  /**
   * The chunked upload: a file without content is rejected; a failed start
   * propagates as it is; a failure inside the session cancels it and is then
   * rethrown, unless the cancel fails too, whose exception then replaces it.
   * Building the start parameters read the file's total hash, so the
   * session runs on the file with its stream at the end.
   */
  function UploadChunked(rev: Revision, env: Env, view: FileView, k: nat): Run<KDriveUploadResponse>
  {
    if view.content.None? then Rejected(ArgumentException(ContentRequiredMessage), k)
    else
      var start := StartSession(env, view, k);
      if start.result.Err? then Run(Err(start.result.error), start.events, start.next)
      else
        var (token, url) := start.result.value;
        var body := ChunksThenFinish(rev, env, AfterUploadParams(view), token, url, start.next);
        if body.result.Ok? then Run(body.result, start.events + body.events, body.next)
        else
          var cancel := CancelSession(env, token, body.next);
          Run(Err(if cancel.result.Err? then cancel.result.error else body.result.error),
              start.events + body.events + cancel.events, cancel.next)
  }

  /** The direct upload request: as written, the first chunk's bytes; as intended, every chunk's. */
  function DirectRequest(rev: Revision, p: Platform, driveId: int, view: FileView): Result<HttpRequest, Exception>
  {
    match rev
    case AsWritten => UploadDirectRequestAsWritten(p, driveId, view)
    case Intended => UploadDirectRequest(p, driveId, view)
  }

  /**
   * The direct upload: content, name and size are checked in this order,
   * then one request is sent and the file record is read from the response.
   */
  function UploadDirect(rev: Revision, env: Env, view: FileView, k: nat): Run<KDriveUploadResponse>
  {
    if view.content.None? then Rejected(ArgumentException(ContentRequiredMessage), k)
    else if IsNullOrWhiteSpace(Some(view.name)) then Rejected(ArgumentException(NameRequiredMessage), k)
    else if view.TotalSize() <= 0 then Rejected(ArgumentException(SizeRequiredMessage), k)
    else
      match DirectRequest(rev, env.platform, env.driveId, view)
      case Err(e) => Rejected(e, k)
      case Ok(request) =>
        var sent := Exchange(env, request, k);
        match sent.result
        case Err(e) => Run(Err(e), sent.events, sent.next)
        case Ok(response) => Run(DeserializeUploadResponse(env.platform.parseUploadResponse, response.body), sent.events, sent.next)
  }

  /** Files of at most 1 MiB, or at most the threshold, go in one request. */
  predicate DirectChosen(totalSize: int, threshold: int)
  {
    totalSize <= OneMiB || totalSize <= threshold
  }

  /**
   * The file after its content is split into chunks of `chunkSize` bytes
   * appended to the ones it had, with its stream back at the start.
   */
  function Split(sha256: seq<byte> -> seq<byte>, view: FileView, chunkSize: nat): FileView
    requires view.content.Some?
  {
    view.(chunks := view.chunks + ChunksOf(sha256, view.content.value, chunkSize), position := 0)
  }

  /**
   * The upload entry point: split with the client's chunk size (a negative
   * size overflows the buffer allocation, a missing stream is dereferenced),
   * then direct or chunked by the total size.
   */
  function UploadFile(rev: Revision, env: Env, view: FileView, chunkSize: int, threshold: int, k: nat): Run<KDriveUploadResponse>
  {
    if chunkSize < 0 then Rejected(OverflowException, k)
    else if view.content.None? then Rejected(NullReferenceException, k)
    else
      var split := Split(env.platform.sha256, view, chunkSize);
      if DirectChosen(split.TotalSize(), threshold) then UploadDirect(rev, env, split, k) else UploadChunked(rev, env, split, k)
  }

  /** The file after a direct upload: once the three checks pass, building the request reads its total hash. */
  function DirectFileAfter(view: FileView): FileView
  {
    if view.content.Some? && !IsNullOrWhiteSpace(Some(view.name)) && view.TotalSize() > 0 then AfterUploadParams(view) else view
  }

  /** The file after the upload entry point: split, then as the chosen upload leaves it. */
  function FileAfterUpload(sha256: seq<byte> -> seq<byte>, view: FileView, chunkSize: int, threshold: int): FileView
  {
    if chunkSize < 0 || view.content.None? then view
    else
      var split := Split(sha256, view, chunkSize);
      if DirectChosen(split.TotalSize(), threshold) then DirectFileAfter(split) else AfterUploadParams(split)
  }

  // Properties of the chunked upload.

  /**
   * An exchange records only pauses and transmissions of its request, one
   * that got a response transmitted it, and every exchange costs an attempt.
   */
  lemma ExchangeEvents(env: Env, request: HttpRequest, k: nat)
    ensures forall e | e in Exchange(env, request, k).events :: e.Wait? || e == Transmit(request)
    ensures Exchange(env, request, k).result.Ok? ==> Transmit(request) in Exchange(env, request, k).events
    ensures Exchange(env, request, k).next > k
  {
    ExchangeOutcome(env, request, k);
    SendEvents(env, request, k);
    SendAttempts(env, request, k);
  }

  /** A session is started only when its request can be built, and nothing but that request is transmitted. */
  lemma StartSessionEvents(env: Env, view: FileView, k: nat)
    ensures var start := StartSession(env, view, k);
      var request := StartSessionRequest(env.platform, env.driveId, view);
      && (start.result.Ok? ==> request.Ok? && Transmit(request.value) in start.events)
      && (request.Err? ==> start.events == [])
      && (request.Ok? ==> forall e | e in start.events :: e.Wait? || e == Transmit(request.value))
  {
    if StartSessionRequest(env.platform, env.driveId, view).Ok? {
      ExchangeEvents(env, StartSessionRequest(env.platform, env.driveId, view).value, k);
    }
  }

  /** A chunk whose upload failed is neither cleaned nor reported. */
  lemma FailedChunkNotCleaned(rev: Revision, env: Env, url: string, token: string, view: FileView, i: nat, k: nat)
    requires i < |view.chunks|
    requires UploadChunk(rev, env, url, token, view, i, k).result.Err?
    ensures forall e | e in UploadChunk(rev, env, url, token, view, i, k).events :: !e.Clean? && !e.Report?
  {
    ExchangeEvents(env, ChunkRequest(url, token, env.driveId, view.chunks[i]), k);
  }

  /**
   * When the chunks from `i` on all went through, each of them was
   * transmitted and then cleaned.
   */
  lemma {:induction false} UploadChunksComplete(rev: Revision, env: Env, url: string, token: string, view: FileView, i: nat, k: nat)
    requires i <= |view.chunks|
    requires UploadChunks(rev, env, url, token, view, i, k).result.Ok?
    ensures var run := UploadChunks(rev, env, url, token, view, i, k);
      forall j | i <= j < |view.chunks| ::
        Transmit(ChunkRequest(url, token, env.driveId, view.chunks[j])) in run.events
        && Clean(view.chunks[j].chunkNumber) in run.events
    decreases |view.chunks| - i
  {
    if i < |view.chunks| {
      var one := UploadChunk(rev, env, url, token, view, i, k);
      ExchangeEvents(env, ChunkRequest(url, token, env.driveId, view.chunks[i]), k);
      var rest := UploadChunks(rev, env, url, token, view, i + 1, one.next);
      UploadChunksComplete(rev, env, url, token, view, i + 1, one.next);
      var run := UploadChunks(rev, env, url, token, view, i, k);
      assert run.events == one.events + [Clean(view.chunks[i].chunkNumber)] + rest.events;
      forall j | i <= j < |view.chunks|
        ensures Transmit(ChunkRequest(url, token, env.driveId, view.chunks[j])) in run.events
        ensures Clean(view.chunks[j].chunkNumber) in run.events
      {
        if j > i {
          assert Transmit(ChunkRequest(url, token, env.driveId, view.chunks[j])) in rest.events;
          assert Clean(view.chunks[j].chunkNumber) in rest.events;
        }
      }
    }
  }

  /** The chunk loop from chunk `i` on transmits nothing but the requests of those chunks. */
  lemma {:induction false} ChunkLoopTransmits(rev: Revision, env: Env, url: string, token: string, view: FileView, i: nat, k: nat)
    requires i <= |view.chunks|
    ensures forall e | e in UploadChunks(rev, env, url, token, view, i, k).events && e.Transmit? ::
      exists j | i <= j < |view.chunks| :: e == Transmit(ChunkRequest(url, token, env.driveId, view.chunks[j]))
    decreases |view.chunks| - i
  {
    if i < |view.chunks| {
      var one := UploadChunk(rev, env, url, token, view, i, k);
      ExchangeEvents(env, ChunkRequest(url, token, env.driveId, view.chunks[i]), k);
      if one.result.Ok? {
        var rest := UploadChunks(rev, env, url, token, view, i + 1, one.next);
        ChunkLoopTransmits(rev, env, url, token, view, i + 1, one.next);
        var run := UploadChunks(rev, env, url, token, view, i, k);
        assert run.events == one.events + [Clean(view.chunks[i].chunkNumber)] + rest.events;
        forall e | e in run.events && e.Transmit?
          ensures exists j | i <= j < |view.chunks| :: e == Transmit(ChunkRequest(url, token, env.driveId, view.chunks[j]))
        {
          if e !in rest.events {
            assert e == Transmit(ChunkRequest(url, token, env.driveId, view.chunks[i]));
          }
        }
      }
    }
  }

  /** The chunk loop never transmits a finish request: it transmits only chunk requests, whose bodies are bytes. */
  lemma NoFinishInChunkLoop(rev: Revision, env: Env, url: string, token: string, view: FileView, k: nat)
    ensures forall h :: Transmit(FinishRequest(env.driveId, token, h)) !in UploadChunks(rev, env, url, token, view, 0, k).events
  {
    ChunkLoopTransmits(rev, env, url, token, view, 0, k);
  }

  /**
   * A chunk that fails ends the session body before the finish: no finish
   * request is transmitted, and the chunk's exception is the body's.
   */
  lemma NoFinishAfterChunkFailure(rev: Revision, env: Env, view: FileView, token: string, url: string, k: nat)
    requires view.content.Some? && UploadChunks(rev, env, url, token, view, 0, k).result.Err?
    ensures var run := ChunksThenFinish(rev, env, view, token, url, k);
      && (ValidParallelism(env.parallelism) ==> run.result == Err(UploadChunks(rev, env, url, token, view, 0, k).result.error))
      && forall h :: Transmit(FinishRequest(env.driveId, token, h)) !in run.events
  {
    NoFinishInChunkLoop(rev, env, url, token, view, k);
  }

  /**
   * Events without `last`, then events that are pauses or `last`: every
   * other transmission comes before each occurrence of `last`.
   */
  lemma TransmitsBeforeLast(xs: seq<Event>, ys: seq<Event>, last: Event)
    requires last !in xs && forall e | e in ys :: e.Wait? || e == last
    ensures var zs := xs + ys;
      forall i, j | 0 <= i < |zs| && 0 <= j < |zs| && zs[i] == last && zs[j].Transmit? && zs[j] != last :: j < i
  {
    var zs := xs + ys;
    assert forall n | 0 <= n < |xs| :: zs[n] == xs[n] && xs[n] in xs;
    assert forall n | |xs| <= n < |zs| :: zs[n] == ys[n - |xs|] && ys[n - |xs|] in ys;
  }

  /**
   * Inside the session the finish comes last: every transmission other
   * than the finish request comes before each transmission of it.
   */
  lemma FinishAfterChunks(rev: Revision, env: Env, view: FileView, token: string, url: string, k: nat)
    requires view.content.Some?
    ensures var run := ChunksThenFinish(rev, env, view, token, url, k);
      var finish := Transmit(FinishRequest(env.driveId, token, FinishHash(rev, env.platform.sha256, view)));
      forall i, j | 0 <= i < |run.events| && 0 <= j < |run.events| && run.events[i] == finish && run.events[j].Transmit? && run.events[j] != finish :: j < i
  {
    var hash := FinishHash(rev, env.platform.sha256, view);
    var chunks := UploadChunks(rev, env, url, token, view, 0, k);
    NoFinishInChunkLoop(rev, env, url, token, view, k);
    if ValidParallelism(env.parallelism) && chunks.result.Ok? {
      ExchangeEvents(env, FinishRequest(env.driveId, token, hash), chunks.next);
      TransmitsBeforeLast(chunks.events, FinishSession(env, token, hash, chunks.next).events, Transmit(FinishRequest(env.driveId, token, hash)));
    }
  }

  /**
   * A degree of parallelism the parallel loop refuses fails inside the
   * started session, before any chunk: the session is cancelled, and the
   * upload records nothing but the start and the cancel.
   */
  lemma ParallelismRejected(rev: Revision, env: Env, view: FileView, k: nat)
    requires view.content.Some? && StartSession(env, view, k).result.Ok? && !ValidParallelism(env.parallelism)
    ensures var start := StartSession(env, view, k);
      var cancel := CancelSession(env, start.result.value.0, start.next);
      var run := UploadChunked(rev, env, view, k);
      && run.events == start.events + cancel.events
      && run.result == Err(if cancel.result.Err? then cancel.result.error else ArgumentOutOfRangeException)
  {
  }

  /**
   * A session that could not be started is not cancelled: nothing but the
   * start request was transmitted, and its exception is the upload's.
   */
  lemma StartFailureNotCancelled(rev: Revision, env: Env, view: FileView, k: nat)
    requires view.content.Some? && StartSession(env, view, k).result.Err?
    ensures var run := UploadChunked(rev, env, view, k);
      && run.result == Err(StartSession(env, view, k).result.error)
      && forall e | e in run.events :: e.Wait? || e == Transmit(StartSessionRequest(env.platform, env.driveId, view).value)
  {
    var r := StartSessionRequest(env.platform, env.driveId, view);
    if r.Ok? {
      ExchangeEvents(env, r.value, k);
    }
  }

  /**
   * A failure inside a started session (a chunk or the finish) is followed
   * by the cancel of that session, which is transmitted unless the rate
   * limiter refuses it every time; the exception is the original one, or the
   * cancel's when that fails too.
   */
  lemma SessionFailureCancelled(rev: Revision, env: Env, view: FileView, k: nat)
    requires view.content.Some? && StartSession(env, view, k).result.Ok?
    requires var (token, url) := StartSession(env, view, k).result.value;
      ChunksThenFinish(rev, env, AfterUploadParams(view), token, url, StartSession(env, view, k).next).result.Err?
    ensures var start := StartSession(env, view, k);
      var (token, url) := start.result.value;
      var body := ChunksThenFinish(rev, env, AfterUploadParams(view), token, url, start.next);
      var cancel := CancelSession(env, token, body.next);
      var run := UploadChunked(rev, env, view, k);
      && run.events == start.events + body.events + cancel.events
      && (cancel.result.Ok? ==> run.result == body.result && Transmit(CancelRequest(env.driveId, token)) in run.events)
      && (cancel.result.Err? ==> run.result == Err(cancel.result.error))
  {
    var start := StartSession(env, view, k);
    var (token, url) := start.result.value;
    var body := ChunksThenFinish(rev, env, AfterUploadParams(view), token, url, start.next);
    ExchangeEvents(env, CancelRequest(env.driveId, token), body.next);
  }

  /**
   * The total hash the finish of a started session carries: as written, the
   * digest of no bytes, since building the start parameters already read
   * the stream to its end; as intended, the digest of the whole content.
   */
  lemma FinishHashOfSession(rev: Revision, sha256: seq<byte> -> seq<byte>, view: FileView)
    requires view.content.Some? && DirectoryParam(view).Ok?
    ensures FinishHash(rev, sha256, AfterUploadParams(view)) ==
      match rev
      case AsWritten => ContentHash(sha256, [])
      case Intended => ContentHash(sha256, view.content.value)
  {
    StreamHashAfterDigest(sha256, view);
  }

  /**
   * A chunked upload that succeeds has transmitted every chunk and cleaned
   * each, then transmitted the finish carrying the total hash: the digest of
   * no bytes as written, the digest of the whole content as intended.
   */
  lemma ChunkedSuccess(rev: Revision, env: Env, view: FileView, k: nat)
    requires UploadChunked(rev, env, view, k).result.Ok?
    ensures view.content.Some? && StartSession(env, view, k).result.Ok? && ValidParallelism(env.parallelism)
    ensures var start := StartSession(env, view, k);
      var (token, url) := start.result.value;
      var run := UploadChunked(rev, env, view, k);
      var hash := if rev.AsWritten? then ContentHash(env.platform.sha256, []) else ContentHash(env.platform.sha256, view.content.value);
      && (forall j | 0 <= j < |view.chunks| ::
            Transmit(ChunkRequest(url, token, env.driveId, view.chunks[j])) in run.events
            && Clean(view.chunks[j].chunkNumber) in run.events)
      && Transmit(FinishRequest(env.driveId, token, hash)) in run.events
  {
    var start := StartSession(env, view, k);
    var (token, url) := start.result.value;
    var after := AfterUploadParams(view);
    StartSessionEvents(env, view, k);
    FinishHashOfSession(rev, env.platform.sha256, view);
    var chunks := UploadChunks(rev, env, url, token, after, 0, start.next);
    UploadChunksComplete(rev, env, url, token, after, 0, start.next);
    var hash := FinishHash(rev, env.platform.sha256, after);
    ExchangeEvents(env, FinishRequest(env.driveId, token, hash), chunks.next);
    var run := UploadChunked(rev, env, view, k);
    assert run.events == start.events + (chunks.events + FinishSession(env, token, hash, chunks.next).events);
  }

  /**
   * As written, a successful chunked upload of a file whose stream is at its
   * start announces the digest of the content in the start parameters (when
   * that digest is not empty) and then finishes with the digest of no
   * bytes, which differs from it whenever the digest tells the content from
   * empty input.
   */
  lemma FinishDigestMismatch(env: Env, view: FileView, k: nat)
    requires view.position == 0 && UploadChunked(AsWritten, env, view, k).result.Ok?
    ensures view.content.Some? && StartSession(env, view, k).result.Ok? && UploadParams(env.platform, view).Ok?
    ensures var sha256, data := env.platform.sha256, view.content.value;
      var token := StartSession(env, view, k).result.value.0;
      && Transmit(FinishRequest(env.driveId, token, ContentHash(sha256, []))) in UploadChunked(AsWritten, env, view, k).events
      && (sha256(data) != [] ==>
            Lookup(UploadParams(env.platform, view).value, "total_chunk_hash") == Some(TextValue(HashValue(ContentHash(sha256, data)))))
      && (ContentHash(sha256, []) == ContentHash(sha256, data) <==> sha256(data) == sha256([]))
  {
    ChunkedSuccess(AsWritten, env, view, k);
    StartSessionEvents(env, view, k);
    UploadParamsOptional(env.platform, view);
    StreamHashAtStart(env.platform.sha256, view);
    ToHexStringInjective(env.platform.sha256(view.content.value), env.platform.sha256([]));
  }

  // Properties of the progress reports.

  lemma SumSizesPrefix(cs: seq<KDriveChunk>, i: nat, j: nat)
    requires i <= j <= |cs|
    ensures SumSizes(cs[..i]) <= SumSizes(cs[..j]) <= SumSizes(cs)
  {
    assert cs[..j] == cs[..i] + cs[i..j];
    SumSizesAppend(cs[..i], cs[i..j]);
    assert cs == cs[..j] + cs[j..];
    SumSizesAppend(cs[..j], cs[j..]);
  }

  /** A share of a positive total: between 0 and 100, growing with the share, and 100 for the whole. */
  lemma PercentageOfTotal(a: nat, b: nat, t: nat)
    requires a <= b <= t && t > 0
    ensures Percentage(a, t).Finite? && Percentage(b, t).Finite?
    ensures 0.0 <= Percentage(a, t).value <= Percentage(b, t).value <= 100.0
    ensures Percentage(t, t) == Finite(100.0)
  {
    var rt := t as real;
    var ra, rb := (a * 100) as real / rt, (b * 100) as real / rt;
    assert ra * rt == (a * 100) as real;
    assert rb * rt == (b * 100) as real;
    assert (a * 100) as real <= (b * 100) as real;
    assert (rb - ra) * rt == ((b - a) * 100) as real;
    assert 0.0 <= ra <= rb;
    assert (t * 100) as real / rt == 100.0 by {
      assert 100.0 * rt == (t * 100) as real;
    }
  }

  /**
   * As intended, with some bytes to upload, every report lies between 0 and
   * 100, and the reports never go down from one chunk to the next.
   */
  lemma ProgressBounded(cs: seq<KDriveChunk>, i: nat, j: nat)
    requires i <= j < |cs| && SumSizes(cs) > 0
    ensures Progress(cs, i).Finite? && Progress(cs, j).Finite?
    ensures 0.0 <= Progress(cs, i).value <= Progress(cs, j).value <= 100.0
  {
    SumSizesPrefix(cs, i + 1, j + 1);
    PercentageOfTotal(SumSizes(cs[..i + 1]), SumSizes(cs[..j + 1]), SumSizes(cs));
  }

  /** As intended, the report after the last chunk is 100. */
  lemma ProgressFinal(cs: seq<KDriveChunk>)
    requires cs != [] && SumSizes(cs) > 0
    ensures Progress(cs, |cs| - 1) == Finite(100.0)
  {
    assert cs[..|cs|] == cs;
    PercentageOfTotal(0, 0, SumSizes(cs));
  }

  /** Taking one more chunk adds its size. */
  lemma SumSizesSnoc(cs: seq<KDriveChunk>, i: nat)
    requires i < |cs|
    ensures SumSizes(cs[..i + 1]) == SumSizes(cs[..i]) + |cs[i].content|
  {
    var front, last := cs[..i], cs[i];
    assert cs[..i + 1] == front + [last];
    SumSizesAppend(front, [last]);
    assert [last][1..] == [];
  }

  lemma {:induction false} FullPrefix(cs: seq<KDriveChunk>, size: nat, n: nat)
    requires n <= |cs| && forall j | 0 <= j < n :: |cs[j].content| == size
    ensures SumSizes(cs[..n]) == n * size
  {
    if n > 0 {
      FullPrefix(cs, size, n - 1);
      SumSizesSnoc(cs, n - 1);
      assert (n - 1) * size + size == n * size;
    }
  }

  /** For every chunk of a split but the last, the report as written is the bytes uploaded so far. */
  lemma ProgressAgreesOnFullChunks(sha256: seq<byte> -> seq<byte>, data: seq<byte>, size: nat, i: nat)
    requires size > 0 && i < |ChunksOf(sha256, data, size)| - 1
    ensures var cs := ChunksOf(sha256, data, size);
      ProgressAsWritten(cs[i], |data|) == Progress(cs, i)
  {
    var cs := ChunksOf(sha256, data, size);
    ChunksOfProperties(sha256, data, size);
    FullPrefix(cs, size, i + 1);
    assert WellFormedChunk(sha256, cs[i], i, size);
  }

  /**
   * As written, a report with a positive total size also lies between 0 and
   * 100: the formula is capped at 100 and never negative.
   */
  lemma ProgressAsWrittenBounded(chunk: KDriveChunk, total: nat)
    requires total > 0 && chunk.chunkNumber >= 0
    ensures ProgressAsWritten(chunk, total).Finite?
    ensures 0.0 <= ProgressAsWritten(chunk, total).value <= 100.0
  {
    var uploaded := (chunk.chunkNumber + 1) * chunk.ChunkSize();
    if uploaded <= total {
      PercentageOfTotal(uploaded, uploaded, total);
    } else {
      assert (uploaded * 100) as real >= 100.0 * (total as real);
      RealShareAtLeast((uploaded * 100) as real, total as real);
    }
  }

  /** A quotient whose dividend is at least 100 times its positive divisor is at least 100. */
  lemma RealShareAtLeast(x: real, t: real)
    requires t > 0.0 && x >= 100.0 * t
    ensures x / t >= 100.0
  {
  }

  /**
   * 2001 bytes in chunks of 1000: the last chunk holds one byte, and the
   * report after it, as written, is 3 * 1 * 100 / 2001 percent instead of
   * 100, down from 2 * 1000 * 100 / 2001 after the chunk before.
   */
  lemma ProgressShortLastChunk(sha256: seq<byte> -> seq<byte>, data: seq<byte>)
    requires |data| == 2001
    ensures var cs := ChunksOf(sha256, data, 1000);
      && |cs| == 3
      && ProgressAsWritten(cs[1], |data|) == Finite(200000.0 / 2001.0)
      && ProgressAsWritten(cs[2], |data|) == Finite(300.0 / 2001.0)
      && ProgressAsWritten(cs[2], |data|).value < ProgressAsWritten(cs[1], |data|).value
      && Progress(cs, 2) == Finite(100.0)
  {
    var cs := ChunksOf(sha256, data, 1000);
    ChunksOfProperties(sha256, data, 1000);
    assert WellFormedChunk(sha256, cs[1], 1, 1000);
    assert WellFormedChunk(sha256, cs[2], 2, 1000);
    FullPrefix(cs, 1000, 2);
    assert cs == cs[..2] + [cs[2]];
    SumSizesAppend(cs[..2], [cs[2]]);
    assert |cs[2].content| == 1;
    ProgressFinal(cs);
  }

  // Properties of the direct upload and of the choice between the two.

  /**
   * A file without content, with a blank name, or with no bytes in its
   * chunks is rejected, in that order, before anything is sent; only a file
   * that passes all three, and whose request can be built, is sent, as one
   * request.
   */
  lemma DirectValidation(rev: Revision, env: Env, view: FileView, k: nat)
    ensures var run := UploadDirect(rev, env, view, k);
      var request := DirectRequest(rev, env.platform, env.driveId, view);
      && (view.content.None? ==> run == Rejected(ArgumentException(ContentRequiredMessage), k))
      && (view.content.Some? && IsNullOrWhiteSpace(Some(view.name)) ==> run == Rejected(ArgumentException(NameRequiredMessage), k))
      && (view.content.Some? && !IsNullOrWhiteSpace(Some(view.name)) && view.TotalSize() == 0 ==>
            run == Rejected(ArgumentException(SizeRequiredMessage), k))
      && (run.events != [] ==>
            && view.content.Some? && !IsNullOrWhiteSpace(Some(view.name)) && view.TotalSize() > 0
            && request.Ok? && forall e | e in run.events :: e.Wait? || e == Transmit(request.value))
  {
    var r := DirectRequest(rev, env.platform, env.driveId, view);
    if r.Ok? {
      ExchangeEvents(env, r.value, k);
    }
  }

  /**
   * As written, a successful direct upload of a file split into chunks
   * smaller than itself transmitted one request whose body is only the
   * first chunk, the first `size` bytes, declared at the whole length.
   */
  lemma DirectSendsFirstChunk(env: Env, view: FileView, size: nat, k: nat)
    requires view.content.Some? && 0 < size < |view.content.value|
    requires view.chunks == ChunksOf(env.platform.sha256, view.content.value, size)
    requires UploadDirect(AsWritten, env, view, k).result.Ok?
    ensures UploadDirectRequestAsWritten(env.platform, env.driveId, view).Ok?
    ensures var request, data := UploadDirectRequestAsWritten(env.platform, env.driveId, view).value, view.content.value;
      && request.body == Binary(data[..size], |data|)
      && Transmit(request) in UploadDirect(AsWritten, env, view, k).events
  {
    var request := UploadDirectRequestAsWritten(env.platform, env.driveId, view).value;
    DirectBodyFirstChunk(env.platform, env.driveId, view, size);
    ExchangeEvents(env, request, k);
  }

  /**
   * As intended, a successful direct upload of a freshly split file
   * transmitted one request whose body is the whole content, declared at
   * its length.
   */
  lemma DirectSendsWholeFile(env: Env, view: FileView, size: nat, k: nat)
    requires size > 0 && view.content.Some? && view.chunks == ChunksOf(env.platform.sha256, view.content.value, size)
    requires UploadDirect(Intended, env, view, k).result.Ok?
    ensures UploadDirectRequest(env.platform, env.driveId, view).Ok?
    ensures var request := UploadDirectRequest(env.platform, env.driveId, view).value;
      && request.body == Binary(view.content.value, |view.content.value|)
      && Transmit(request) in UploadDirect(Intended, env, view, k).events
  {
    var request := UploadDirectRequest(env.platform, env.driveId, view).value;
    DirectBodyComplete(env.platform, env.driveId, view, size);
    ChunksOfProperties(env.platform.sha256, view.content.value, size);
    ExchangeEvents(env, request, k);
  }

  /**
   * Content that is empty, or a chunk size of 0, leaves a file without
   * chunks of its own with a total size of 0, which the direct upload then
   * rejects: nothing is sent.
   */
  lemma NothingToSendRejected(rev: Revision, env: Env, view: FileView, chunkSize: nat, threshold: int, k: nat)
    requires view.content.Some? && view.chunks == [] && !IsNullOrWhiteSpace(Some(view.name))
    requires view.content.value == [] || chunkSize == 0
    ensures UploadFile(rev, env, view, chunkSize, threshold, k) == Rejected(ArgumentException(SizeRequiredMessage), k)
  {
    ChunksOfEmpty(env.platform.sha256, view.content.value, chunkSize);
    assert Split(env.platform.sha256, view, chunkSize).chunks == [];
  }

  /**
   * For a file without chunks of its own and a positive chunk size, the
   * choice is made on the content length: at most 1 MiB or at most the
   * threshold goes direct, anything longer goes in chunks. A file that
   * already holds chunks keeps them in front of the new ones, so its total
   * size counts them too; `UploadFile` makes the same choice on that total,
   * for any file.
   */
  lemma UploadChoice(rev: Revision, env: Env, view: FileView, chunkSize: nat, threshold: int, k: nat)
    requires view.content.Some? && view.chunks == [] && chunkSize > 0
    ensures var split := Split(env.platform.sha256, view, chunkSize);
      var n := |view.content.value|;
      && split.TotalSize() == n
      && (n <= OneMiB || n <= threshold ==> UploadFile(rev, env, view, chunkSize, threshold, k) == UploadDirect(rev, env, split, k))
      && (n > OneMiB && n > threshold ==> UploadFile(rev, env, view, chunkSize, threshold, k) == UploadChunked(rev, env, split, k))
  {
    ChunksOfProperties(env.platform.sha256, view.content.value, chunkSize);
    assert Split(env.platform.sha256, view, chunkSize).chunks == ChunksOf(env.platform.sha256, view.content.value, chunkSize);
  }

  /**
   * An upload that succeeds leaves the file's stream at its end, the file
   * holding the chunks of the split after the ones it had, and everything
   * else as it was: the stream was read once by the split and again for
   * the total hash.
   */
  lemma UploadLeavesStreamAtEnd(rev: Revision, env: Env, view: FileView, chunkSize: int, threshold: int, k: nat)
    requires UploadFile(rev, env, view, chunkSize, threshold, k).result.Ok?
    ensures chunkSize >= 0 && view.content.Some?
    ensures FileAfterUpload(env.platform.sha256, view, chunkSize, threshold) ==
      view.(chunks := view.chunks + ChunksOf(env.platform.sha256, view.content.value, chunkSize),
            position := |view.content.value|)
  {
    var split := Split(env.platform.sha256, view, chunkSize);
    if DirectChosen(split.TotalSize(), threshold) {
      assert DirectRequest(rev, env.platform, env.driveId, split).Ok?;
    } else {
      StartSessionEvents(env, split, k);
    }
    assert UploadParams(env.platform, split).Ok?;
  }
}
