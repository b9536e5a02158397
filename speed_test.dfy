/**
 * The upload strategy the client measures when it is built with automatic
 * chunk sizing: a one-chunk session whose chunk upload is timed, then
 * cancelled. The random buffer and the stopwatch are parameters.
 */
module SpeedTest {
  import opened Common
  import opened Models
  import opened Chunks
  import opened Files
  import opened RequestFactory
  import opened JsonHelper
  import opened Dispatch
  import opened Uploads

  const TestFileName: string := "speedtest.dat"
  const TestDirectory: string := "/Private"
  const Int32Max: int := 0x7FFF_FFFF
  const Int64Max: int := 0x7FFF_FFFF_FFFF_FFFF

  /** The two values the measurement sets on the client. */
  datatype Strategy = Strategy(directUploadThresholdBytes: int, dynamicChunkSizeBytes: int)

  /** The test file: the buffer, split into chunks as long as the buffer, under `/Private/speedtest.dat`. */
  function TestFile(sha256: seq<byte> -> seq<byte>, buffer: seq<byte>): FileView
  {
    FileView(TestFileName, None, Some(TestDirectory), None, 0, 0, ChunksOf(sha256, buffer, |buffer|), Some(buffer), 0)
  }

  /**
   * The strategy from the bytes sent and the milliseconds the send took: the
   * threshold is the speed in bytes per second, the chunk size 90% of it,
   * each truncated. A zero time gives an infinite speed, which the
   * conversions saturate.
   */
  function Measured(bytes: nat, elapsedMs: nat): Strategy
  {
    if elapsedMs == 0 then Strategy(Int64Max, Int32Max)
    else Strategy(bytes * 1000 / elapsedMs, bytes * 900 / elapsedMs)
  }

  /**
   * The measurement. A custom chunk size is taken for both values without
   * sending anything. Otherwise the test file is measured.
   */
  function Probe(env: Env, customChunkSize: Option<int>, buffer: seq<byte>, elapsedMs: nat, k: nat): Run<Strategy>
  {
    if customChunkSize.Some? then Run(Ok(Strategy(customChunkSize.value, customChunkSize.value)), [], k)
    else ProbeTestFile(env, buffer, elapsedMs, k)
  }

  /** The measured branch of the probe: a session for the test file, then its first chunk. */
  function ProbeTestFile(env: Env, buffer: seq<byte>, elapsedMs: nat, k: nat): Run<Strategy>
  {
    var test := TestFile(env.platform.sha256, buffer);
    var start := StartSession(env, test, k);
    if start.result.Err? then Run(Err(start.result.error), start.events, start.next)
    else if test.chunks == [] then Run(Err(InvalidOperationException(EmptySequenceMessage)), start.events, start.next)
    else
      var (token, url) := start.result.value;
      var session := ProbeChunk(env, token, url, test.chunks[0], |buffer|, elapsedMs, start.next);
      Run(session.result, start.events + session.events, session.next)
  }

  /**
   * Inside the test session: the chunk is sent and its status checked, then
   * the session is cancelled; only a cancelled session gives a strategy.
   */
  function ProbeChunk(env: Env, token: string, url: string, chunk: KDriveChunk, bytes: nat, elapsedMs: nat, k: nat): Run<Strategy>
  {
    var sent := Send(env, ChunkRequest(url, token, env.driveId, chunk), k);
    if sent.result.Err? then Run(Err(sent.result.error), sent.events, sent.next)
    else if !IsSuccessStatusCode(sent.result.value.statusCode) then
      Run(Err(HttpRequestException(StatusCode(sent.result.value.statusCode))), sent.events, sent.next)
    else
      var cancel := CancelSession(env, token, sent.next);
      if cancel.result.Err? then Run(Err(cancel.result.error), sent.events + cancel.events, cancel.next)
      else Run(Ok(Measured(bytes, elapsedMs)), sent.events + cancel.events, cancel.next)
  }

  /** A custom chunk size becomes both the threshold and the chunk size, and nothing is sent. */
  lemma ProbeCustom(env: Env, size: int, buffer: seq<byte>, elapsedMs: nat, k: nat)
    ensures Probe(env, Some(size), buffer, elapsedMs, k) == Run(Ok(Strategy(size, size)), [], k)
  {
  }

  /** A 1 MiB buffer makes a test file of exactly one chunk, numbered 0, holding the whole buffer. */
  lemma TestFileOneChunk(sha256: seq<byte> -> seq<byte>, buffer: seq<byte>)
    requires |buffer| == OneMiB
    ensures var cs := TestFile(sha256, buffer).chunks;
      |cs| == 1 && cs[0].content == buffer && cs[0].chunkNumber == 0
  {
    var cs := TestFile(sha256, buffer).chunks;
    ChunksOfProperties(sha256, buffer, |buffer|);
    assert Contents(cs) == cs[0].content + Contents(cs[1..]);
  }

  /**
   * A test chunk that gets through is followed by the cancel of the session;
   * nothing but the chunk and the cancel is transmitted, and a strategy comes
   * only from a cancelled session. A refused chunk, by the server or by its
   * status, leaves the session open: only the chunk is transmitted.
   */
  lemma ProbeChunkEvents(env: Env, token: string, url: string, chunk: KDriveChunk, bytes: nat, elapsedMs: nat, k: nat)
    ensures var chunkRequest := ChunkRequest(url, token, env.driveId, chunk);
      var sent := Send(env, chunkRequest, k);
      var run := ProbeChunk(env, token, url, chunk, bytes, elapsedMs, k);
      && (forall e | e in run.events && e.Transmit? :: e.request == chunkRequest || e.request == CancelRequest(env.driveId, token))
      && (run.result.Ok? ==>
            && Transmit(chunkRequest) in run.events && Transmit(CancelRequest(env.driveId, token)) in run.events
            && run.result == Ok(Measured(bytes, elapsedMs)))
      && (sent.result.Err? || !IsSuccessStatusCode(sent.result.value.statusCode) ==>
            run.result.Err? && forall e | e in run.events :: e.Wait? || e == Transmit(chunkRequest))
  {
    var chunkRequest := ChunkRequest(url, token, env.driveId, chunk);
    var sent := Send(env, chunkRequest, k);
    SendEvents(env, chunkRequest, k);
    ExchangeEvents(env, CancelRequest(env.driveId, token), sent.next);
  }

  /**
   * A measurement that gives a strategy started a session for the test file,
   * sent its chunk and cancelled the session, and transmitted nothing else:
   * the test session is never finished.
   */
  lemma ProbeSucceeded(env: Env, buffer: seq<byte>, elapsedMs: nat, k: nat)
    requires Probe(env, None, buffer, elapsedMs, k).result.Ok?
    ensures var test := TestFile(env.platform.sha256, buffer);
      && StartSessionRequest(env.platform, env.driveId, test).Ok?
      && StartSession(env, test, k).result.Ok? && test.chunks != []
      && var (token, url) := StartSession(env, test, k).result.value;
      var run := Probe(env, None, buffer, elapsedMs, k);
      var chunkRequest := ChunkRequest(url, token, env.driveId, test.chunks[0]);
      && Transmit(chunkRequest) in run.events
      && Transmit(CancelRequest(env.driveId, token)) in run.events
      && (forall e | e in run.events && e.Transmit? ::
            || e.request == StartSessionRequest(env.platform, env.driveId, test).value
            || e.request == chunkRequest || e.request == CancelRequest(env.driveId, token))
      && run.result == Ok(Measured(|buffer|, elapsedMs))
  {
    var test := TestFile(env.platform.sha256, buffer);
    var start := StartSession(env, test, k);
    StartSessionEvents(env, test, k);
    var (token, url) := start.result.value;
    var session := ProbeChunk(env, token, url, test.chunks[0], |buffer|, elapsedMs, start.next);
    ProbeChunkEvents(env, token, url, test.chunks[0], |buffer|, elapsedMs, start.next);
    var run := Probe(env, None, buffer, elapsedMs, k);
    assert run == Run(session.result, start.events + session.events, session.next);
  }

  /**
   * A measurement that gives a strategy records the session start, then the
   * test chunk, then the cancel, each of the three transmitting only its own
   * request.
   */
  lemma ProbeOrder(env: Env, buffer: seq<byte>, elapsedMs: nat, k: nat)
    requires Probe(env, None, buffer, elapsedMs, k).result.Ok?
    ensures var test := TestFile(env.platform.sha256, buffer);
      && StartSessionRequest(env.platform, env.driveId, test).Ok?
      && StartSession(env, test, k).result.Ok? && test.chunks != []
      && var start := StartSession(env, test, k);
      var (token, url) := start.result.value;
      var chunkRequest := ChunkRequest(url, token, env.driveId, test.chunks[0]);
      var sent := Send(env, chunkRequest, start.next);
      var cancel := CancelSession(env, token, sent.next);
      && Probe(env, None, buffer, elapsedMs, k).events == start.events + sent.events + cancel.events
      && (forall e | e in start.events :: e.Wait? || e == Transmit(StartSessionRequest(env.platform, env.driveId, test).value))
      && (forall e | e in sent.events :: e.Wait? || e == Transmit(chunkRequest))
      && (forall e | e in cancel.events :: e.Wait? || e == Transmit(CancelRequest(env.driveId, token)))
  {
    var test := TestFile(env.platform.sha256, buffer);
    var start := StartSession(env, test, k);
    StartSessionEvents(env, test, k);
    var (token, url) := start.result.value;
    var chunkRequest := ChunkRequest(url, token, env.driveId, test.chunks[0]);
    var sent := Send(env, chunkRequest, start.next);
    SendEvents(env, chunkRequest, start.next);
    ExchangeEvents(env, CancelRequest(env.driveId, token), sent.next);
    AppendAssoc(start.events, sent.events, CancelSession(env, token, sent.next).events);
  }

  /**
   * With a positive time for the 1 MiB chunk, the threshold is the speed in
   * bytes per second and the chunk size is never above it; the chunk size is
   * 0, which no upload can use, exactly when the chunk took longer than
   * 943718400 ms.
   */
  lemma MeasuredStrategy(elapsedMs: nat)
    requires elapsedMs > 0
    ensures var s := Measured(OneMiB, elapsedMs);
      && s.directUploadThresholdBytes == 1048576000 / elapsedMs
      && 0 <= s.dynamicChunkSizeBytes <= s.directUploadThresholdBytes
      && (s.dynamicChunkSizeBytes == 0 <==> elapsedMs > 943718400)
  {
    var s := Measured(OneMiB, elapsedMs);
    assert OneMiB * 900 == 943718400;
    assert OneMiB * 1000 == 1048576000;
    DivMonotone(943718400, 1048576000, elapsedMs);
    if elapsedMs > 943718400 {
      assert 943718400 / elapsedMs == 0;
    } else {
      DivMonotone(elapsedMs, 943718400, elapsedMs);
      assert elapsedMs / elapsedMs == 1;
    }
  }

  lemma DivMonotone(a: nat, b: nat, d: nat)
    requires a <= b && d > 0
    ensures a / d <= b / d
  {
    var qa, qb := a / d, b / d;
    assert qa * d + a % d == a;
    assert qb * d + b % d == b;
    if qa > qb {
      assert qa >= qb + 1;
      assert qa * d >= (qb + 1) * d by { MulMonotone(qb + 1, qa, d); }
    }
  }
}
