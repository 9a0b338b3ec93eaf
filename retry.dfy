/** The attempt logic of `make_request_with_retry` (scraper/scraper.py): which
    failures are retried, when the last one is re-raised, and how many
    attempts are made. The network is a function from the attempt number to
    what that attempt got back; delays, headers and the session are not modelled. */
module Retry {

  /** What one `session.get(url)` attempt produced. */
  datatype Outcome =
    | Responded(status: int)     // a response arrived with this status code
    | TimedOut                   // `requests.exceptions.Timeout`
    | ConnectionFailed           // `requests.exceptions.ConnectionError`
    | OtherFailure               // any other exception

  /** The exception `make_request_with_retry` lets escape. */
  datatype Failure =
    | TimeoutError
    | ConnectionError
    | HttpError(status: int)
    | OtherError
    | AllAttemptsFailed          // the `RequestException` raised after the loop

  datatype RequestResult =
    | Success(status: int, attempts: nat)
    | Raised(error: Failure, attempts: nat)

  const TooManyRequests: int := 429

  /** `response.raise_for_status()` raises for 4xx and 5xx codes. */
  predicate IsHttpError(status: int)
  {
    400 <= status < 600
  }

  /** Outcomes that are retried while attempts remain: timeouts, connection
      errors, 429 responses and unexpected exceptions. */
  predicate IsTransient(o: Outcome)
  {
    match o
    case Responded(s) => s == TooManyRequests
    case _ => true
  }

  /** The exception a failing outcome turns into. */
  function FailureOf(o: Outcome): Failure
  {
    match o
    case Responded(s) => HttpError(s)
    case TimedOut => TimeoutError
    case ConnectionFailed => ConnectionError
    case OtherFailure => OtherError
  }

  /** The result once attempt `a` (counting from 0) has got `o` and the loop
      stops there: a success, or the failure re-raised. */
  function Settle(o: Outcome, a: nat): RequestResult
  {
    if o.Responded? && !IsHttpError(o.status) then Success(o.status, a + 1)
    else Raised(FailureOf(o), a + 1)
  }

  /** The loop goes no further after this outcome at attempt `a`. */
  predicate Stops(o: Outcome, a: nat, maxRetries: int)
  {
    (o.Responded? && !IsHttpError(o.status)) || !IsTransient(o) || a == maxRetries
  }

  /** The loop from attempt `a` on. */
  function RetryFrom(net: nat -> Outcome, maxRetries: int, a: nat): RequestResult
    requires a <= maxRetries
    decreases maxRetries - a
  {
    if Stops(net(a), a, maxRetries) then Settle(net(a), a)
    else RetryFrom(net, maxRetries, a + 1)
  }

  /** What `make_request_with_retry(url, max_retries)` returns or raises. With a
      negative `max_retries` the loop is empty and the final `raise` is reached. */
  function RetryResultOf(net: nat -> Outcome, maxRetries: int): RequestResult
  {
    if maxRetries < 0 then Raised(AllAttemptsFailed, 0)
    else RetryFrom(net, maxRetries, 0)
  }

  /** `make_request_with_retry`: attempts in a loop until one settles. */
  method MakeRequestWithRetry(net: nat -> Outcome, maxRetries: int) returns (r: RequestResult)
    ensures r == RetryResultOf(net, maxRetries)
  {
    var attempt: nat := 0;
    while attempt < maxRetries + 1
      invariant attempt <= maxRetries || (maxRetries < 0 && attempt == 0)
      invariant maxRetries >= 0 ==> RetryResultOf(net, maxRetries) == RetryFrom(net, maxRetries, attempt)
      decreases maxRetries - attempt
    {
      var o := net(attempt);
      match o {
        case Responded(s) =>
          if !IsHttpError(s) {
            return Success(s, attempt + 1);
          }
          if s != TooManyRequests || attempt == maxRetries {
            return Raised(HttpError(s), attempt + 1);
          }
        case TimedOut =>
          if attempt == maxRetries {
            return Raised(TimeoutError, attempt + 1);
          }
        case ConnectionFailed =>
          if attempt == maxRetries {
            return Raised(ConnectionError, attempt + 1);
          }
        case OtherFailure =>
          if attempt == maxRetries {
            return Raised(OtherError, attempt + 1);
          }
      }
      attempt := attempt + 1;
    }
    return Raised(AllAttemptsFailed, 0);
  }

  // ---------------------------------------------------------------------------
  // Properties
  // ---------------------------------------------------------------------------

  function AttemptsOf(r: RequestResult): nat
  {
    match r
    case Success(_, n) => n
    case Raised(_, n) => n
  }

  /** The loop settles at the first attempt that stops it: every earlier attempt
      was transient, and the result is that attempt's success or failure. */
  lemma {:induction false} RetryFromSettlesAtFirstStop(net: nat -> Outcome, maxRetries: int, a: nat)
    requires a <= maxRetries
    ensures var k := AttemptsOf(RetryFrom(net, maxRetries, a)) - 1;
            a <= k <= maxRetries
            && RetryFrom(net, maxRetries, a) == Settle(net(k), k)
            && Stops(net(k), k, maxRetries)
            && forall b :: a <= b < k ==> !Stops(net(b), b, maxRetries)
    decreases maxRetries - a
  {
    if !Stops(net(a), a, maxRetries) {
      RetryFromSettlesAtFirstStop(net, maxRetries, a + 1);
    }
  }

  /** At most `max_retries + 1` attempts are made, and at least one when
      `max_retries >= 0`. */
  lemma AttemptBound(net: nat -> Outcome, maxRetries: int)
    ensures AttemptsOf(RetryResultOf(net, maxRetries)) <= if maxRetries < 0 then 0 else maxRetries + 1
    ensures maxRetries >= 0 ==> AttemptsOf(RetryResultOf(net, maxRetries)) >= 1
  {
    if maxRetries >= 0 {
      RetryFromSettlesAtFirstStop(net, maxRetries, 0);
    }
  }

  /** An HTTP error other than 429 is raised at once, with no further attempt. */
  lemma NonRateLimitErrorRaisedImmediately(net: nat -> Outcome, maxRetries: int, k: nat)
    requires k <= maxRetries
    requires net(k).Responded? && IsHttpError(net(k).status) && net(k).status != TooManyRequests
    requires forall b :: 0 <= b < k ==> IsTransient(net(b))
    ensures RetryResultOf(net, maxRetries) == Raised(HttpError(net(k).status), k + 1)
  {
    assert Stops(net(k), k, maxRetries);
    RetryFromSettlesAtFirstStop(net, maxRetries, 0);
  }

  /** When every attempt fails transiently, the last failure is re-raised after
      exactly `max_retries + 1` attempts; the `RequestException` after the loop
      is never the answer when `max_retries >= 0`. */
  lemma ExhaustedRetriesReraiseLastFailure(net: nat -> Outcome, maxRetries: int)
    requires maxRetries >= 0
    requires forall b :: 0 <= b <= maxRetries ==> IsTransient(net(b))
    ensures RetryResultOf(net, maxRetries) == Raised(FailureOf(net(maxRetries)), maxRetries + 1)
  {
    RetryFromSettlesAtFirstStop(net, maxRetries, 0);
  }

  /** A success is the first non-error response, after only transient failures. */
  lemma SuccessMeansEarlierAttemptsWereTransient(net: nat -> Outcome, maxRetries: int)
    requires RetryResultOf(net, maxRetries).Success?
    ensures var n := AttemptsOf(RetryResultOf(net, maxRetries));
            n >= 1 && net(n - 1) == Responded(RetryResultOf(net, maxRetries).status)
            && !IsHttpError(net(n - 1).status)
            && forall b :: 0 <= b < n - 1 ==> IsTransient(net(b))
  {
    RetryFromSettlesAtFirstStop(net, maxRetries, 0);
  }

  /** The exception after the loop is raised exactly when `max_retries` is negative. */
  lemma AllAttemptsFailedOnlyWithoutAttempts(net: nat -> Outcome, maxRetries: int)
    ensures RetryResultOf(net, maxRetries) == Raised(AllAttemptsFailed, 0) <==> maxRetries < 0
  {
    if maxRetries >= 0 {
      RetryFromSettlesAtFirstStop(net, maxRetries, 0);
    }
  }
}
