/**
 * The API error taxonomy: the `ApiError` record and its class predicates, the
 * user-facing message chosen by first match, the construction of an error
 * from a failed HTTP response, the mapping of whatever `fetch` throws into an
 * `ApiError`, and `retryAsync`, the retry loop with capped exponential backoff.
 *
 * Network I/O is not modelled: a response (or what `fetch` threw) is an input,
 * the awaited function of `retryAsync` is the sequence of its outcomes, and a
 * sleep is a delay appended to a record of sleeps.
 */
module ApiErrors {
  import opened Wrappers
  import opened Text

  // ---------------------------------------------------------------------------
  // The error record and its classes
  // ---------------------------------------------------------------------------

  /** An `ApiError`: HTTP status, machine code and message (its `details` are not modelled). */
  datatype ApiError = ApiError(statusCode: int, code: string, message: string) {

    predicate IsAuthError() {
      statusCode == 401 || code == "UNAUTHORIZED"
    }

    predicate IsPermissionError() {
      statusCode == 403 || code == "FORBIDDEN"
    }

    predicate IsValidationError() {
      statusCode == 400 || code == "VALIDATION_ERROR"
    }

    predicate IsServerError() {
      statusCode >= 500
    }

    predicate IsNetworkError() {
      code == "NETWORK_ERROR" || statusCode == 0
    }

    predicate IsTimeoutError() {
      code == "TIMEOUT_ERROR"
    }
  }

  /** The classes of the taxonomy, and Unclassified for an error in none of them. */
  datatype ErrorKind = Auth | Permission | Validation | Network | Timeout | Server | Unclassified

  /** The order in which `getUserMessage` tries the classes. */
  const Priority: seq<ErrorKind> := [Auth, Permission, Validation, Network, Timeout, Server]

  /** Whether `e` belongs to class `k`. */
  predicate InKind(e: ApiError, k: ErrorKind) {
    match k
    case Auth => e.IsAuthError()
    case Permission => e.IsPermissionError()
    case Validation => e.IsValidationError()
    case Network => e.IsNetworkError()
    case Timeout => e.IsTimeoutError()
    case Server => e.IsServerError()
    case Unclassified => false
  }

  /** The class `getUserMessage` settles on: the first class in Priority that `e` belongs to. */
  function Kind(e: ApiError): (k: ErrorKind)
    ensures k == Unclassified <==> forall i :: 0 <= i < |Priority| ==> !InKind(e, Priority[i])
    ensures k != Unclassified ==> exists i :: (0 <= i < |Priority| && Priority[i] == k && InKind(e, k)
                                               && forall j :: 0 <= j < i ==> !InKind(e, Priority[j]))
  {
    FirstKind(e, Priority)
  }

  /** The first class in `kinds` that `e` belongs to. */
  function FirstKind(e: ApiError, kinds: seq<ErrorKind>): (k: ErrorKind)
    requires Unclassified !in kinds
    ensures k == Unclassified <==> forall i :: 0 <= i < |kinds| ==> !InKind(e, kinds[i])
    ensures k != Unclassified ==> exists i :: (0 <= i < |kinds| && kinds[i] == k && InKind(e, k)
                                               && forall j :: 0 <= j < i ==> !InKind(e, kinds[j]))
  {
    if kinds == [] then Unclassified
    else if InKind(e, kinds[0]) then kinds[0]
    else
      assert forall i :: 1 <= i < |kinds| ==> kinds[i] == kinds[1..][i - 1];
      FirstKind(e, kinds[1..])
  }

  const SessionExpiredMessage := "Sua sessão expirou. Por favor, faça login novamente."
  const ForbiddenMessage := "Você não tem permissão para acessar este recurso."
  const InvalidDataMessage := "Os dados fornecidos são inválidos. Verifique e tente novamente."
  const ConnectionMessage := "Erro de conexão. Verifique sua internet e tente novamente."
  const TimeoutMessage := "A requisição demorou muito tempo. Tente novamente."
  const ServerMessage := "O servidor está com problemas. Tente novamente mais tarde."
  const UnknownMessage := "Ocorreu um erro desconhecido."

  function KindMessage(k: ErrorKind): string
    requires k != Unclassified
  {
    match k
    case Auth => SessionExpiredMessage
    case Permission => ForbiddenMessage
    case Validation => InvalidDataMessage
    case Network => ConnectionMessage
    case Timeout => TimeoutMessage
    case Server => ServerMessage
  }

  /**
   * `getUserMessage`: the fixed message of the first class that matches, and
   * for an unclassified error its own message, or the generic text when that
   * message is empty.
   */
  function UserMessage(e: ApiError): (r: string)
    ensures Kind(e) != Unclassified ==> r == KindMessage(Kind(e))
    ensures Kind(e) == Unclassified ==> r == (if e.message != "" then e.message else UnknownMessage)
    ensures r != ""
  {
    match Kind(e)
    case Unclassified => if e.message != "" then e.message else UnknownMessage
    case k => KindMessage(k)
  }

  /** Authentication wins over every other class: a 500 with code UNAUTHORIZED reads as an expired session. */
  lemma AuthWinsOverServer(message: string)
    ensures UserMessage(ApiError(500, "UNAUTHORIZED", message)) == SessionExpiredMessage
  {
  }

  /** The class of an error, and so the message of a classified one, never depends on the error's own message text. */
  lemma ClassifiedMessageIgnoresText(e: ApiError, text: string)
    requires Kind(e) != Unclassified
    ensures UserMessage(e) == UserMessage(e.(message := text))
    ensures Kind(e.(message := text)) == Kind(e)
  {
    SameStatusAndCodeSameKind(e, e.(message := text), Priority);
  }

  /** Two errors with the same status and code settle on the same class. */
  lemma {:induction false} SameStatusAndCodeSameKind(e1: ApiError, e2: ApiError, kinds: seq<ErrorKind>)
    requires Unclassified !in kinds
    requires e1.statusCode == e2.statusCode && e1.code == e2.code
    ensures FirstKind(e1, kinds) == FirstKind(e2, kinds)
  {
    if kinds != [] && !InKind(e1, kinds[0]) {
      SameStatusAndCodeSameKind(e1, e2, kinds[1..]);
    }
  }

  // ---------------------------------------------------------------------------
  // Building an error from a failed response; `apiFetch`'s catch
  // ---------------------------------------------------------------------------

  /**
   * What `response.json()` yields: a parse failure (with the parser's
   * message), the JSON value `null`, or any other value, whose `code` and
   * `message` properties are given as strings ("" when absent or falsy).
   */
  datatype Body = NotJson(parseError: string) | JsonNull | Json(code: string, message: string)

  datatype Response = Response(ok: bool, status: nat, statusText: string, body: Body)

  /** A thrown value: an ApiError, a TypeError, any other Error (with its message), or a non-Error value. */
  datatype Thrown = ApiErr(error: ApiError) | TypeErr(message: string) | OtherError(message: string) | NonError

  /** `err instanceof Error ? err.message : fallback`. */
  function MessageOr(t: Thrown, fallback: string): (r: string)
    ensures t.NonError? ==> r == fallback
    ensures t.ApiErr? ==> r == t.error.message
    ensures t.TypeErr? || t.OtherError? ==> r == t.message
  {
    match t
    case ApiErr(e) => e.message
    case TypeErr(m) => m
    case OtherError(m) => m
    case NonError => fallback
  }

  const RequestFailedMessage := "Erro na requisição"

  /** The TypeError text a V8-based browser gives for reading `code` from `null`. */
  const NullReadMessage := "Cannot read properties of null (reading 'code')"

  /**
   * The fields of the `ApiError` thrown for a non-ok response: the body's
   * code, else `HTTP_<status>`; the body's message, else the status text,
   * else the generic text.
   */
  function ErrorFromResponse(status: nat, statusText: string, code: string, message: string): (e: ApiError)
    ensures e.statusCode == status
    ensures code != "" ==> e.code == code
    ensures code == "" ==> |e.code| > 5 && e.code[..5] == "HTTP_"
                           && AllDigits(e.code[5..]) && DecimalValue(e.code[5..]) == status
    ensures code == "" ==> e.code == "HTTP_" + DecimalString(status)
    ensures message != "" ==> e.message == message
    ensures message == "" && statusText != "" ==> e.message == statusText
    ensures message == "" && statusText == "" ==> e.message == RequestFailedMessage
  {
    var fallbackCode := "HTTP_" + DecimalString(status);
    assert fallbackCode[5..] == DecimalString(status);
    DecimalRoundTrip(status);
    ApiError(status,
             if code != "" then code else fallbackCode,
             if message != "" then message else if statusText != "" then statusText else RequestFailedMessage)
  }

  /**
   * `handleApiResponse`: an ok response yields its parsed body; a non-ok one
   * throws an ApiError built by fallback (an unparsable body counts as `{}`).
   * A `null` body makes the property read throw a TypeError.
   */
  function HandleApiResponse(r: Response): (res: Result<Body, Thrown>)
    ensures r.ok ==> (res.Success? <==> !r.body.NotJson?)
    ensures res.Success? ==> r.ok && res.value == r.body
    ensures !r.ok && r.body.NotJson? ==> res == Failure(ApiErr(ErrorFromResponse(r.status, r.statusText, "", "")))
    ensures !r.ok && r.body.Json? ==>
              res == Failure(ApiErr(ErrorFromResponse(r.status, r.statusText, r.body.code, r.body.message)))
    ensures !r.ok && r.body.JsonNull? ==> res == Failure(TypeErr(NullReadMessage))
    ensures r.ok && r.body.NotJson? ==> res == Failure(OtherError(r.body.parseError))
  {
    if r.ok then
      match r.body
      case NotJson(m) => Failure(OtherError(m))
      case _ => Success(r.body)
    else
      match r.body
      case NotJson(_) => Failure(ApiErr(ErrorFromResponse(r.status, r.statusText, "", "")))
      case JsonNull => Failure(TypeErr(NullReadMessage))
      case Json(code, message) => Failure(ApiErr(ErrorFromResponse(r.status, r.statusText, code, message)))
  }

  const NetworkErrorMessage := "Erro de conexão. Verifique sua internet."
  const UnknownErrorMessage := "Erro desconhecido"

  /**
   * `apiFetch`'s catch: an ApiError is rethrown as it is, a TypeError becomes
   * a network error (status 0), anything else an UNKNOWN_ERROR with status 500.
   */
  function AsApiError(t: Thrown): (e: ApiError)
    ensures t.ApiErr? ==> e == t.error
    ensures t.TypeErr? ==> e.statusCode == 0 && e.code == "NETWORK_ERROR" && e.message == NetworkErrorMessage
                           && e.IsNetworkError()
    ensures t.OtherError? || t.NonError? ==> e.statusCode == 500 && e.code == "UNKNOWN_ERROR" && e.IsServerError()
    ensures t.OtherError? ==> e.message == t.message
    ensures t.NonError? ==> e.message == UnknownErrorMessage
  {
    match t
    case ApiErr(e) => e
    case TypeErr(_) => ApiError(0, "NETWORK_ERROR", NetworkErrorMessage)
    case _ => ApiError(500, "UNKNOWN_ERROR", MessageOr(t, UnknownErrorMessage))
  }

  /**
   * `apiFetch`: `fetched` is what `fetch` settled with; every failure leaves
   * as an ApiError.
   */
  function ApiFetch(fetched: Result<Response, Thrown>): (res: Result<Body, ApiError>)
    ensures fetched.Failure? ==> res == Failure(AsApiError(fetched.error))
    ensures fetched.Success? ==> (res.Success? <==> fetched.value.ok && !fetched.value.body.NotJson?)
    ensures res.Success? ==> res.value == fetched.value.body
    ensures fetched.Success? && res.Failure? ==> res.error == AsApiError(HandleApiResponse(fetched.value).error)
  {
    match fetched
    case Failure(t) => Failure(AsApiError(t))
    case Success(response) =>
      match HandleApiResponse(response)
      case Success(body) => Success(body)
      case Failure(t) => Failure(AsApiError(t))
  }

  /**
   * A failed response with a usable body surfaces with its own status and the
   * fallback fields: the body's code and message when present (an unparsable
   * body reads as `{}`), else `HTTP_<status>` and the status text or the
   * generic text.
   */
  lemma FailedResponseKeepsStatus(r: Response)
    requires !r.ok && !r.body.JsonNull?
    ensures ApiFetch(Success(r)).Failure?
    ensures ApiFetch(Success(r)).error.statusCode == r.status
    ensures r.body.Json? && r.body.code != "" ==> ApiFetch(Success(r)).error.code == r.body.code
    ensures r.body.Json? ==>
              ApiFetch(Success(r)) == Failure(ErrorFromResponse(r.status, r.statusText, r.body.code, r.body.message))
    ensures r.body.NotJson? ==> ApiFetch(Success(r)) == Failure(ErrorFromResponse(r.status, r.statusText, "", ""))
  {
  }

  /** An ok response whose body does not parse surfaces as an UNKNOWN_ERROR with status 500 and the parser's message. */
  lemma OkUnparsableIsUnknownError(r: Response)
    requires r.ok && r.body.NotJson?
    ensures ApiFetch(Success(r)) == Failure(ApiError(500, "UNKNOWN_ERROR", r.body.parseError))
  {
  }

  /**
   * A failed response whose body is the JSON value `null` surfaces as a
   * network error with status 0, whatever its real status was.
   */
  lemma NullBodyReadsAsNetworkError(r: Response)
    requires !r.ok && r.body.JsonNull?
    ensures ApiFetch(Success(r)) == Failure(ApiError(0, "NETWORK_ERROR", NetworkErrorMessage))
    ensures UserMessage(ApiFetch(Success(r)).error) == ConnectionMessage
  {
    var e := ApiError(0, "NETWORK_ERROR", NetworkErrorMessage);
    assert HandleApiResponse(r) == Failure(TypeErr(NullReadMessage));
    assert ApiFetch(Success(r)) == Failure(e);
    assert FirstKind(e, Priority[3..]) == Network;
    assert Priority[3..] == Priority[2..][1..] && Priority[2..] == Priority[1..][1..];
    assert Kind(e) == Network;
  }

  // ---------------------------------------------------------------------------
  // retryAsync
  // ---------------------------------------------------------------------------

  datatype RetryOptions = RetryOptions(maxAttempts: int, initialDelayMs: real, maxDelayMs: real, backoffMultiplier: real)

  const DefaultRetryOptions := RetryOptions(3, 1000.0, 10000.0, 2.0)

  /** How one call of the retried function settled. */
  datatype Outcome<T> = Returns(value: T) | Throws(reason: Thrown)

  /** How `retryAsync` settles; RejectedUndefined is `throw lastError` before any call was made. */
  datatype Settled<T> = Resolved(value: T) | Rejected(reason: Thrown) | RejectedUndefined

  function Settle<T>(o: Outcome<T>): Settled<T> {
    match o
    case Returns(v) => Resolved(v)
    case Throws(t) => Rejected(t)
  }

  /** Errors worth another attempt: anything but a validation or authentication ApiError. */
  predicate Retryable(t: Thrown) {
    !(t.ApiErr? && (t.error.IsValidationError() || t.error.IsAuthError()))
  }

  function Min(a: real, b: real): real {
    if a <= b then a else b
  }

  /** The delay after `delay`: `Math.min(delay * backoffMultiplier, maxDelayMs)`. */
  function Grow(opts: RetryOptions, delay: real): real {
    Min(delay * opts.backoffMultiplier, opts.maxDelayMs)
  }

  /** The k-th sleep (from 0): the initial delay, then each the previous times the multiplier, capped. */
  function Delay(opts: RetryOptions, k: nat): real
  {
    if k == 0 then opts.initialDelayMs else Grow(opts, Delay(opts, k - 1))
  }

  /** The first n sleeps. */
  function Backoff(opts: RetryOptions, n: nat): (r: seq<real>)
    ensures |r| == n
    ensures forall k :: 0 <= k < n ==> r[k] == Delay(opts, k)
  {
    if n == 0 then [] else Backoff(opts, n - 1) + [Delay(opts, n - 1)]
  }

  function MaxCalls(opts: RetryOptions): nat {
    if opts.maxAttempts > 0 then opts.maxAttempts else 0
  }

  predicate FailsRetryably<T>(o: Outcome<T>) {
    o.Throws? && Retryable(o.reason)
  }

  /**
   * `retryAsync`: `fn(k)` is how the (k+1)-th call settles. Calls continue
   * while they fail with a retryable error and attempts remain; between two
   * calls the loop sleeps for the next delay of the schedule.
   */
  method RetryAsync<T>(fn: nat -> Outcome<T>, opts: RetryOptions)
    returns (result: Settled<T>, calls: nat, sleeps: seq<real>)
    ensures calls <= MaxCalls(opts)
    ensures opts.maxAttempts >= 1 ==> calls >= 1
    ensures forall k :: 0 <= k < calls - 1 ==> FailsRetryably(fn(k))
    ensures calls > 0 && calls < opts.maxAttempts ==> !FailsRetryably(fn(calls - 1))
    ensures calls > 0 ==> result == Settle(fn(calls - 1))
    ensures calls == 0 ==> result == RejectedUndefined
    ensures sleeps == Backoff(opts, if calls == 0 then 0 else calls - 1)
  {
    var lastError: Option<Thrown> := None;
    var delay := opts.initialDelayMs;
    calls, sleeps := 0, [];
    var attempt := 1;
    while attempt <= opts.maxAttempts
      invariant attempt == calls + 1
      invariant calls <= MaxCalls(opts)
      invariant calls > 0 ==> attempt <= opts.maxAttempts
      invariant forall k :: 0 <= k < calls ==> FailsRetryably(fn(k))
      invariant sleeps == Backoff(opts, calls) && delay == Delay(opts, calls)
      invariant lastError == if calls == 0 then None else Some(fn(calls - 1).reason)
      decreases opts.maxAttempts - attempt
    {
      var outcome := fn(calls);
      calls := calls + 1;
      if outcome.Returns? {
        return Resolved(outcome.value), calls, sleeps;
      }
      lastError := Some(outcome.reason);
      if !Retryable(outcome.reason) {
        return Rejected(outcome.reason), calls, sleeps;
      }
      if attempt == opts.maxAttempts {
        break;
      }
      sleeps := sleeps + [delay];
      delay := Grow(opts, delay);
      attempt := attempt + 1;
    }
    result := if lastError.Some? then Rejected(lastError.value) else RejectedUndefined;
  }

  /** When the initial delay is within the cap, no sleep is longer than the cap. */
  lemma {:induction false} BackoffCapped(opts: RetryOptions, n: nat)
    requires opts.initialDelayMs <= opts.maxDelayMs
    ensures forall k :: 0 <= k < n ==> Backoff(opts, n)[k] <= opts.maxDelayMs
  {
    forall k | 0 <= k < n ensures Delay(opts, k) <= opts.maxDelayMs {
      DelayCapped(opts, k);
    }
  }

  /** Whatever the options, every sleep after the first is at most the cap, since each is taken through `Math.min`. */
  lemma {:induction false} LaterSleepsCapped(opts: RetryOptions, n: nat)
    ensures forall k :: 1 <= k < n ==> Backoff(opts, n)[k] <= opts.maxDelayMs
  {
    forall k | 1 <= k < n ensures Backoff(opts, n)[k] <= opts.maxDelayMs {
      assert Delay(opts, k) == Grow(opts, Delay(opts, k - 1));
    }
  }

  lemma DelayCapped(opts: RetryOptions, k: nat)
    requires opts.initialDelayMs <= opts.maxDelayMs
    ensures Delay(opts, k) <= opts.maxDelayMs
  {
    if k > 0 {
      assert Delay(opts, k) == Grow(opts, Delay(opts, k - 1));
    }
  }

  /**
   * When the initial delay is between 0 and the cap and the multiplier is at
   * least one, the sleeps never shrink and never pass the cap.
   */
  lemma {:induction false} BackoffMonotone(opts: RetryOptions, k: nat)
    requires 0.0 <= opts.initialDelayMs <= opts.maxDelayMs && opts.backoffMultiplier >= 1.0
    ensures 0.0 <= Delay(opts, k) <= Delay(opts, k + 1) <= opts.maxDelayMs
  {
    if k > 0 {
      BackoffMonotone(opts, k - 1);
    }
    GrowBetween(opts, Delay(opts, k));
  }

  /** Growing a delay within the cap by a multiplier of at least one never shrinks it or passes the cap. */
  lemma GrowBetween(opts: RetryOptions, delay: real)
    requires 0.0 <= delay <= opts.maxDelayMs && opts.backoffMultiplier >= 1.0
    ensures delay <= Grow(opts, delay) <= opts.maxDelayMs
  {
    assert delay * (opts.backoffMultiplier - 1.0) >= 0.0;
  }

  /** The default options sleep 1000 ms and then 2000 ms across their three attempts. */
  lemma DefaultSchedule()
    ensures Backoff(DefaultRetryOptions, 2) == [1000.0, 2000.0]
  {
    assert Delay(DefaultRetryOptions, 1) == 2000.0;
  }
}
