/**
 * The request executor of MistralDirectService: the closed error taxonomy,
 * the retryability rule, the set of transient URL errors, the capped
 * exponential backoff and the bounded retry loop `performRequest`.
 *
 * The URL session is an oracle `transport`: `transport(k)` is its answer to
 * the k-th call (counting from 0). Every call the loop makes is one attempt,
 * so the number of calls is the number of attempts.
 */
module Retry {
  import opened Wrappers
  import opened NetworkConfig

  /** `MistralError`. */
  datatype MistralError =
    | MissingAPIKey
    | InvalidResponse
    | ApiError(statusCode: int, message: string)
    | EmptyResponse
  {
    /** `isRetryable`. */
    predicate IsRetryable() {
      match this
      case ApiError(statusCode, _) => statusCode == 429 || 500 <= statusCode <= 504
      case MissingAPIKey | EmptyResponse | InvalidResponse => false
    }
  }

  /** Rate limiting and the server errors 500-504 are retried; nothing else ever is. */
  lemma RetryableStatuses(e: MistralError)
    ensures e.IsRetryable() <==> e.ApiError? && e.statusCode in {429, 500, 501, 502, 503, 504}
    ensures e.MissingAPIKey? || e.InvalidResponse? || e.EmptyResponse? ==> !e.IsRetryable()
  {
  }

  /** Foundation's `URLError.Code` raw values for the three transient conditions. */
  const TimedOut := -1001
  const NetworkConnectionLost := -1005
  const NotConnectedToInternet := -1009

  /** `isTransientURLError`. */
  predicate IsTransientUrlError(code: int) {
    code == TimedOut || code == NetworkConnectionLost || code == NotConnectedToInternet
  }

  /**
   * The transient URL errors are exactly Foundation's codes -1001 (timed
   * out), -1005 (network connection lost) and -1009 (not connected to the
   * internet); every other code, including a cancelled request (-999) or a
   * host that cannot be found (-1003), is not retried.
   */
  lemma TransientUrlErrorCodes(code: int)
    ensures IsTransientUrlError(code) <==> code == -1001 || code == -1005 || code == -1009
    ensures !IsTransientUrlError(-999) && !IsTransientUrlError(-1003)
  {
  }

  /**
   * What a call can throw: the service's own error, a `URLError` (by its
   * code) or the JSON decoder's error when a 200 body does not parse.
   */
  datatype Failure = Mistral(error: MistralError) | Url(code: int) | Decoding

  /**
   * One answer of the transport: an HTTP response with its status, the body
   * as the caller will decode it (`payload`) and the body as UTF-8 text
   * (`None` when it is not valid UTF-8); a response that is not an
   * `HTTPURLResponse`; or a `URLError` with its code.
   */
  datatype Response<P> =
    | Http(status: int, payload: P, text: Option<string>)
    | NonHttp
    | UrlFailure(code: int)

  const UnknownErrorText := "Unknown error"

  /** The error a non-200 response becomes; an undecodable body reads "Unknown error". */
  function ApiErrorOf(status: int, text: Option<string>): MistralError {
    ApiError(status, text.GetOr(UnknownErrorText))
  }

  /** How a call to `performRequest` ended, and how many transport calls it made. */
  datatype Trace<P> = Trace(result: Result<P, Failure>, calls: nat)

  /**
   * `performRequest` from attempt `attempt` on, following the source's
   * control flow: 200 returns; a non-200 status or a transient URL error
   * continues while `attempt < maxRetries` and the error is retryable;
   * everything else is thrown.
   */
  function RunFrom<P>(config: NetworkConfiguration, transport: nat -> Response<P>, attempt: nat): Trace<P>
    requires attempt <= config.maxRetries
    decreases config.maxRetries - attempt
  {
    match transport(attempt)
    case Http(status, payload, text) =>
      if status == 200 then Trace(Success(payload), attempt + 1)
      else if ApiErrorOf(status, text).IsRetryable() && attempt < config.maxRetries then
        RunFrom(config, transport, attempt + 1)
      else Trace(Failure(Mistral(ApiErrorOf(status, text))), attempt + 1)
    case NonHttp =>
      Trace(Failure(Mistral(InvalidResponse)), attempt + 1)
    case UrlFailure(code) =>
      if IsTransientUrlError(code) && attempt < config.maxRetries then
        RunFrom(config, transport, attempt + 1)
      else Trace(Failure(Url(code)), attempt + 1)
  }

  function Run<P>(config: NetworkConfiguration, transport: nat -> Response<P>): Trace<P>
    requires config.maxRetries >= 0
  {
    RunFrom(config, transport, 0)
  }

  /** The answers after which the loop tries again, as long as attempts remain. */
  predicate Retries<P>(response: Response<P>) {
    match response
    case Http(status, _, text) => status != 200 && ApiErrorOf(status, text).IsRetryable()
    case NonHttp => false
    case UrlFailure(code) => IsTransientUrlError(code)
  }

  /** What the caller receives when an answer ends the loop. */
  function Outcome<P>(response: Response<P>): Result<P, Failure> {
    match response
    case Http(status, payload, text) =>
      if status == 200 then Success(payload) else Failure(Mistral(ApiErrorOf(status, text)))
    case NonHttp => Failure(Mistral(InvalidResponse))
    case UrlFailure(code) => Failure(Url(code))
  }

  lemma {:induction false} RunFromCharacterized<P>(config: NetworkConfiguration, transport: nat -> Response<P>, attempt: nat)
    requires attempt <= config.maxRetries
    ensures var t := RunFrom(config, transport, attempt);
      && attempt < t.calls <= config.maxRetries + 1
      && (forall k :: attempt <= k < t.calls - 1 ==> Retries(transport(k)))
      && (t.calls <= config.maxRetries ==> !Retries(transport(t.calls - 1)))
      && t.result == Outcome(transport(t.calls - 1))
    decreases config.maxRetries - attempt
  {
    if attempt < config.maxRetries && Retries(transport(attempt)) {
      RunFromCharacterized(config, transport, attempt + 1);
    }
  }

  /**
   * The whole retry policy in one statement: the loop makes between 1 and
   * maxRetries + 1 calls; every call but the last got an answer that is
   * retried; the last call's answer is not retried unless the budget is
   * spent; and the caller receives exactly what that last answer means.
   */
  lemma RunCharacterized<P>(config: NetworkConfiguration, transport: nat -> Response<P>)
    requires config.maxRetries >= 0
    ensures var t := Run(config, transport);
      && 1 <= t.calls <= config.maxRetries + 1
      && (forall k :: 0 <= k < t.calls - 1 ==> Retries(transport(k)))
      && (t.calls <= config.maxRetries ==> !Retries(transport(t.calls - 1)))
      && t.result == Outcome(transport(t.calls - 1))
  {
    RunFromCharacterized(config, transport, 0);
  }

  /** An answer that is not retried ends the loop after that single call. */
  lemma {:induction false} FinalFirstAnswerEndsLoop<P>(config: NetworkConfiguration, transport: nat -> Response<P>)
    requires config.maxRetries >= 0
    requires !Retries(transport(0))
    ensures Run(config, transport).calls == 1
    ensures Run(config, transport).result == Outcome(transport(0))
  {
    RunCharacterized(config, transport);
  }

  /** A 200 returns its payload after one call. */
  lemma SuccessReturnsAtOnce<P>(config: NetworkConfiguration, transport: nat -> Response<P>)
    requires config.maxRetries >= 0
    requires transport(0).Http? && transport(0).status == 200
    ensures Run(config, transport) == Trace(Success(transport(0).payload), 1)
  {
  }

  /** A status that is neither 200 nor retryable is thrown as `apiError` after one call. */
  lemma NonRetryableStatusFailsAtOnce<P>(config: NetworkConfiguration, transport: nat -> Response<P>)
    requires config.maxRetries >= 0
    requires transport(0).Http? && transport(0).status != 200
    requires !(transport(0).status == 429 || 500 <= transport(0).status <= 504)
    ensures Run(config, transport).calls == 1
    ensures Run(config, transport).result ==
      Failure(Mistral(ApiError(transport(0).status, transport(0).text.GetOr(UnknownErrorText))))
  {
  }

  /** A response that is not HTTP is thrown as `invalidResponse` after one call. */
  lemma NonHttpFailsAtOnce<P>(config: NetworkConfiguration, transport: nat -> Response<P>)
    requires config.maxRetries >= 0
    requires transport(0).NonHttp?
    ensures Run(config, transport) == Trace(Failure(Mistral(InvalidResponse)), 1)
  {
  }

  /** A URL error outside the transient set propagates after one call. */
  lemma OtherUrlErrorPropagatesAtOnce<P>(config: NetworkConfiguration, transport: nat -> Response<P>)
    requires config.maxRetries >= 0
    requires transport(0).UrlFailure? && !IsTransientUrlError(transport(0).code)
    ensures Run(config, transport) == Trace(Failure(Url(transport(0).code)), 1)
  {
  }

  /**
   * A server that always answers the same retryable status is called
   * exactly maxRetries + 1 times, and the last `apiError` is thrown: the
   * trailing `throw lastError` is never reached.
   */
  lemma {:induction false} PersistentRetryableStatusExhaustsBudget<P>(
    config: NetworkConfiguration, transport: nat -> Response<P>, status: int)
    requires config.maxRetries >= 0
    requires status == 429 || 500 <= status <= 504
    requires forall k :: transport(k).Http? && transport(k).status == status
    ensures Run(config, transport).calls == config.maxRetries + 1
    ensures Run(config, transport).result ==
      Failure(Mistral(ApiError(status, transport(config.maxRetries).text.GetOr(UnknownErrorText))))
  {
    RunCharacterized(config, transport);
    var t := Run(config, transport);
    assert Retries(transport(t.calls - 1));
  }

  /**
   * A transient URL error is retried while attempts remain and rethrown on
   * the last one.
   */
  lemma {:induction false} PersistentTransientUrlErrorRethrown<P>(
    config: NetworkConfiguration, transport: nat -> Response<P>, code: int)
    requires config.maxRetries >= 0
    requires IsTransientUrlError(code)
    requires forall k :: transport(k) == UrlFailure(code)
    ensures Run(config, transport) == Trace(Failure(Url(code)), config.maxRetries + 1)
  {
    RunCharacterized(config, transport);
    var t := Run(config, transport);
    assert Retries(transport(t.calls - 1));
  }

  lemma {:induction false} RunFromReadsOnlyMaxRetries<P>(
    c1: NetworkConfiguration, c2: NetworkConfiguration, transport: nat -> Response<P>, attempt: nat)
    requires c1.maxRetries == c2.maxRetries && attempt <= c1.maxRetries
    ensures RunFrom(c1, transport, attempt) == RunFrom(c2, transport, attempt)
    decreases c1.maxRetries - attempt
  {
    if attempt < c1.maxRetries {
      RunFromReadsOnlyMaxRetries(c1, c2, transport, attempt + 1);
    }
  }

  /**
   * The loop's outcome and its delays depend on the configuration only
   * through maxRetries and baseRetryDelay: the timeouts play no part.
   */
  lemma OnlyRetrySettingsMatter<P>(c1: NetworkConfiguration, c2: NetworkConfiguration, transport: nat -> Response<P>)
    requires c1.maxRetries == c2.maxRetries >= 0 && c1.baseRetryDelay == c2.baseRetryDelay
    ensures Run(c1, transport) == Run(c2, transport)
    ensures forall k :: k >= 1 ==> Backoff(c1, k) == Backoff(c2, k)
  {
    RunFromReadsOnlyMaxRetries(c1, c2, transport, 0);
    forall k | k >= 1
      ensures Backoff(c1, k) == Backoff(c2, k)
    {
    }
  }

  /** The cap on a single backoff delay, in seconds. */
  const MaxBackoff: real := 30.0

  /** `base * pow(2.0, n)`: the base delay doubled n times. */
  function Doubled(base: real, n: nat): real {
    if n == 0 then base else 2.0 * Doubled(base, n - 1)
  }

  function Min(a: real, b: real): real {
    if a <= b then a else b
  }

  /** The sleep before attempt `attempt` (>= 1): `min(baseRetryDelay * 2^(attempt-1), 30)`. */
  function Backoff(config: NetworkConfiguration, attempt: nat): real
    requires attempt >= 1
  {
    Min(Doubled(config.baseRetryDelay, attempt - 1), MaxBackoff)
  }

  lemma {:induction false} DoubledSign(base: real, n: nat)
    ensures base >= 0.0 ==> Doubled(base, n) >= base
  {
    if n > 0 {
      DoubledSign(base, n - 1);
    }
  }

  /** No delay exceeds the cap, and none is shorter than the base delay when that is not negative. */
  lemma BackoffBounded(config: NetworkConfiguration, attempt: nat)
    requires attempt >= 1
    ensures Backoff(config, attempt) <= MaxBackoff
    ensures 0.0 <= config.baseRetryDelay <= MaxBackoff ==> Backoff(config, attempt) >= config.baseRetryDelay
  {
    DoubledSign(config.baseRetryDelay, attempt - 1);
  }

  /** Each delay doubles the one before it until it reaches the cap. */
  lemma BackoffDoubles(config: NetworkConfiguration, attempt: nat)
    requires attempt >= 1
    ensures Backoff(config, attempt + 1) == Min(2.0 * Backoff(config, attempt), MaxBackoff)
  {
  }

  /** The presets sleep 1, 2, 4 s (default) and 2, 4 s (transcription); the cap binds by the sixth attempt. */
  lemma PresetBackoffs()
    ensures Backoff(Default, 1) == 1.0 && Backoff(Default, 2) == 2.0 && Backoff(Default, 3) == 4.0
    ensures Backoff(Transcription, 1) == 2.0 && Backoff(Transcription, 2) == 4.0
    ensures Backoff(Default, 6) == MaxBackoff
  {
  }

  /**
   * `performRequest`: attempts 0...maxRetries; before every attempt but the
   * first it sleeps `Backoff` seconds (recorded in `delays`), then asks the
   * transport once. Returns what the caller gets and how many calls were
   * made.
   */
  method PerformRequest<P>(config: NetworkConfiguration, transport: nat -> Response<P>)
    returns (result: Result<P, Failure>, calls: nat, delays: seq<real>)
    requires config.maxRetries >= 0
    ensures Trace(result, calls) == Run(config, transport)
    ensures 1 <= calls <= config.maxRetries + 1
    ensures |delays| == calls - 1
    ensures forall k :: 0 <= k < |delays| ==> delays[k] == Backoff(config, k + 1)
  {
    var lastError: Failure := Mistral(InvalidResponse);
    calls, delays := 0, [];
    var attempt: nat := 0;
    while attempt <= config.maxRetries
      invariant attempt <= config.maxRetries
      invariant calls == attempt
      invariant |delays| == if attempt == 0 then 0 else attempt - 1
      invariant forall k :: 0 <= k < |delays| ==> delays[k] == Backoff(config, k + 1)
      invariant RunFrom(config, transport, attempt) == Run(config, transport)
      decreases config.maxRetries - attempt
    {
      if attempt > 0 {
        delays := delays + [Backoff(config, attempt)];
      }
      calls := calls + 1;
      match transport(attempt) {
        case Http(status, payload, text) =>
          if status != 200 {
            var error := ApiError(status, text.GetOr(UnknownErrorText));
            if error.IsRetryable() && attempt < config.maxRetries {
              lastError := Mistral(error);
              attempt := attempt + 1;
              continue;
            }
            // thrown, caught by the MistralError handler, which fails the same test and rethrows
            return Failure(Mistral(error)), calls, delays;
          }
          return Success(payload), calls, delays;
        case NonHttp =>
          // invalidResponse is never retryable, so its handler rethrows it
          return Failure(Mistral(InvalidResponse)), calls, delays;
        case UrlFailure(code) =>
          if IsTransientUrlError(code) && attempt < config.maxRetries {
            lastError := Url(code);
            attempt := attempt + 1;
            continue;
          }
          // the last attempt rethrows; a non-transient URLError is not caught at all
          return Failure(Url(code)), calls, delays;
      }
    }
    // every path through the last attempt returns or throws
    assert false;
    result := Failure(lastError);
  }
}
