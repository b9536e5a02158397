/**
 * How every request reaches the server: a rate-limiter lease, the
 * transmission, the response check, and up to three attempts with a
 * doubling pause after each transport failure. The rate limiter and the
 * server are an oracle indexed by attempt.
 */
module Dispatch {
  import opened Common
  import opened Models
  import opened RequestFactory
  import opened JsonHelper

  /** The rate limiter's answer: a permit, or a refusal with or without a retry-after hint in milliseconds. */
  datatype Lease = Acquired | Refused(retryAfter: Option<nat>)

  /** What the HTTP stack gives for one transmission: a response, or the exception it throws. */
  datatype Reply = Delivered(response: HttpResponse) | Thrown(error: Exception)

  datatype Attempt = Attempt(lease: Lease, reply: Reply)

  /** The lease and the reply of the attempt with a given index carrying a given request. */
  type Network = (nat, HttpRequest) -> Attempt

  /**
   * A progress value as the double arithmetic gives it: a number, or what
   * dividing by a zero total gives (infinity is clamped to 100 by the
   * minimum, negative infinity and NaN are not).
   */
  datatype Percent = Finite(value: real) | NaN | NegativeInfinity

  /** What the client does that can be seen from outside. */
  datatype Event =
    | Wait(ms: nat)
    | Transmit(request: HttpRequest)
    | Clean(chunkNumber: int)
    | Report(percent: Percent)

  /** An operation's value or exception, the events it caused, and the index of the next attempt. */
  datatype Run<+T> = Run(result: Result<T, Exception>, events: seq<Event>, next: nat)

  /**
   * What every operation of a client reads: the library functions, the
   * network, its drive, its degree of parallelism, and whether a progress
   * sink is set.
   */
  datatype Env = Env(platform: Platform, network: Network, driveId: int, parallelism: int, reporting: bool)

  const MaxRetries: nat := 3
  const InitialDelay: nat := 500

  /**
   * One pass of the retry loop: a refused lease without a hint fails as a
   * rate-limit `HttpRequestException` before anything is sent; with a hint
   * the client waits that long and sends anyway; the response goes through
   * the response check.
   */
  function SendOnce(env: Env, request: HttpRequest, k: nat): (Result<HttpResponse, Exception>, seq<Event>)
  {
    var attempt := env.network(k, request);
    if attempt.lease == Refused(None) then (Err(HttpRequestException(RateLimitExceeded)), [])
    else
      var pause := if attempt.lease.Refused? then [Wait(attempt.lease.retryAfter.value)] else [];
      var result := match attempt.reply
        case Thrown(e) => Err(e)
        case Delivered(response) => DeserializeResponse(env.platform.parseErrorResponse, response);
      (result, pause + [Transmit(request)])
  }

  predicate Retried(result: Result<HttpResponse, Exception>)
  {
    result.Err? && result.error.HttpRequestException?
  }

  /** The loop from pass `i`, pausing `delay` ms before the next one. */
  function RetryFrom(env: Env, request: HttpRequest, i: nat, delay: nat, k: nat): Run<HttpResponse>
    requires i < MaxRetries
    decreases MaxRetries - i
  {
    var (result, events) := SendOnce(env, request, k);
    if Retried(result) && i < MaxRetries - 1 then
      var rest := RetryFrom(env, request, i + 1, delay * 2, k + 1);
      Run(rest.result, events + [Wait(delay)] + rest.events, rest.next)
    else Run(result, events, k + 1)
  }

  function Send(env: Env, request: HttpRequest, k: nat): Run<HttpResponse>
  {
    RetryFrom(env, request, 0, InitialDelay, k)
  }

  /**
   * The retry loop as a loop: before pass `i`, the events recorded so far
   * followed by what the remaining passes record are the events `before`
   * followed by those of the whole send `target`.
   */
  predicate RetryState(env: Env, request: HttpRequest, target: Run<HttpResponse>, before: seq<Event>, events: seq<Event>, i: nat, delay: nat, k: nat)
  {
    i < MaxRetries &&
    var rest := RetryFrom(env, request, i, delay, k);
    target.result == rest.result && target.next == rest.next && before + target.events == events + rest.events
  }

  /** A pass that ends the loop gives the result, the attempt count and the events of the whole send. */
  lemma RetryFromStop(env: Env, request: HttpRequest, target: Run<HttpResponse>, before: seq<Event>, events: seq<Event>, i: nat, delay: nat, k: nat)
    requires RetryState(env, request, target, before, events, i, delay, k)
    requires !(Retried(SendOnce(env, request, k).0) && i < MaxRetries - 1)
    ensures target.result == SendOnce(env, request, k).0 && target.next == k + 1
    ensures events + SendOnce(env, request, k).1 == before + target.events
  {
  }

  /** Any other pass records its events and the pause, and the loop moves on to the next pass. */
  lemma RetryFromContinue(env: Env, request: HttpRequest, target: Run<HttpResponse>, before: seq<Event>, events: seq<Event>, i: nat, delay: nat, k: nat)
    requires RetryState(env, request, target, before, events, i, delay, k)
    requires Retried(SendOnce(env, request, k).0) && i < MaxRetries - 1
    ensures RetryState(env, request, target, before, events + SendOnce(env, request, k).1 + [Wait(delay)], i + 1, delay * 2, k + 1)
  {
    var rest := RetryFrom(env, request, i + 1, delay * 2, k + 1);
    var step := SendOnce(env, request, k).1 + [Wait(delay)];
    assert events + (step + rest.events) == (events + step) + rest.events;
  }

  lemma {:induction false} RetryFromAttempts(env: Env, request: HttpRequest, i: nat, delay: nat, k: nat)
    requires i < MaxRetries
    ensures var run := RetryFrom(env, request, i, delay, k);
      && k < run.next <= k + MaxRetries - i
      && run.result == SendOnce(env, request, run.next - 1).0
      && (forall j | k <= j < run.next - 1 :: Retried(SendOnce(env, request, j).0))
      && (run.next < k + MaxRetries - i ==> !Retried(run.result))
    decreases MaxRetries - i
  {
    var (result, events) := SendOnce(env, request, k);
    if Retried(result) && i < MaxRetries - 1 {
      RetryFromAttempts(env, request, i + 1, delay * 2, k + 1);
    }
  }

  /**
   * At most three attempts; the result is the last attempt's, unchanged
   * (the third `HttpRequestException` propagates as it is), and every attempt
   * before it failed with an `HttpRequestException`; fewer than three
   * attempts means the last one was not such a failure.
   */
  lemma SendAttempts(env: Env, request: HttpRequest, k: nat)
    ensures var run := Send(env, request, k);
      && k < run.next <= k + 3
      && run.result == SendOnce(env, request, run.next - 1).0
      && (forall j | k <= j < run.next - 1 :: Retried(SendOnce(env, request, j).0))
      && (run.next < k + 3 ==> !Retried(run.result))
  {
    RetryFromAttempts(env, request, 0, InitialDelay, k);
  }

  /** The events of the loop: each attempt's events, with a pause of 500 ms after the first and 1000 ms after the second. */
  lemma SendSchedule(env: Env, request: HttpRequest, k: nat)
    ensures var run := Send(env, request, k);
      run.events ==
        SendOnce(env, request, k).1
        + (if run.next >= k + 2 then [Wait(500)] + SendOnce(env, request, k + 1).1 else [])
        + (if run.next == k + 3 then [Wait(1000)] + SendOnce(env, request, k + 2).1 else [])
  {
    var r0 := SendOnce(env, request, k).0;
    if Retried(r0) {
      var r1 := SendOnce(env, request, k + 1).0;
      if Retried(r1) {
        assert RetryFrom(env, request, 2, 2000, k + 2) == Run(SendOnce(env, request, k + 2).0, SendOnce(env, request, k + 2).1, k + 3);
      }
    }
  }

  /** Any other exception, an API error among them, ends the loop after its attempt. */
  lemma OnlyTransportFailuresRetried(env: Env, request: HttpRequest, k: nat)
    requires SendOnce(env, request, k).0.Err? && !SendOnce(env, request, k).0.error.HttpRequestException?
    ensures Send(env, request, k) == Run(SendOnce(env, request, k).0, SendOnce(env, request, k).1, k + 1)
  {
  }

  /**
   * A refused lease without a hint costs an attempt and sends nothing; the
   * next attempt, after 500 ms, goes ahead.
   */
  lemma RateLimitedThenSent(env: Env, request: HttpRequest, k: nat, response: HttpResponse)
    requires env.network(k, request).lease == Refused(None)
    requires env.network(k + 1, request) == Attempt(Acquired, Delivered(response))
    requires IsSuccessStatusCode(response.statusCode)
    ensures Send(env, request, k) == Run(Ok(response), [Wait(500), Transmit(request)], k + 2)
  {
  }

  /** A refusal with a hint waits that long and sends in the same attempt, without asking for a lease again. */
  lemma RetryAfterHonoured(env: Env, request: HttpRequest, k: nat, ms: nat, response: HttpResponse)
    requires env.network(k, request) == Attempt(Refused(Some(ms)), Delivered(response))
    requires IsSuccessStatusCode(response.statusCode)
    ensures Send(env, request, k) == Run(Ok(response), [Wait(ms), Transmit(request)], k + 1)
  {
  }

  /** An attempt records at most a pause and the transmission, and one that succeeded transmitted. */
  lemma SendOnceEvents(env: Env, request: HttpRequest, k: nat)
    ensures forall e | e in SendOnce(env, request, k).1 :: e.Wait? || e == Transmit(request)
    ensures SendOnce(env, request, k).0.Ok? ==> Transmit(request) in SendOnce(env, request, k).1
  {
  }

  /**
   * Sending records only pauses and transmissions of the request itself,
   * and a request that was sent successfully was transmitted.
   */
  lemma SendEvents(env: Env, request: HttpRequest, k: nat)
    ensures forall e | e in Send(env, request, k).events :: e.Wait? || e == Transmit(request)
    ensures Send(env, request, k).result.Ok? ==> Transmit(request) in Send(env, request, k).events
  {
    SendAttempts(env, request, k);
    SendSchedule(env, request, k);
    SendOnceEvents(env, request, k);
    SendOnceEvents(env, request, k + 1);
    SendOnceEvents(env, request, k + 2);
  }

  /**
   * A response that got through with a failure status had its body read by
   * the check (the body was JSON `null`), so its content is no longer there
   * to be read again.
   */
  lemma SendChecked(env: Env, request: HttpRequest, k: nat)
    ensures var r := Send(env, request, k).result;
      r.Ok? && !IsSuccessStatusCode(r.value.statusCode) ==> r.value.bodyRead
  {
    var run := Send(env, request, k);
    SendAttempts(env, request, k);
    var reply := env.network(run.next - 1, request).reply;
    if reply.Delivered? {
      DeserializeResponseCases(env.platform.parseErrorResponse, reply.response);
    }
  }
}
