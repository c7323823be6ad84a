/** The retry state machine of packages/etl/src/lib/http.ts. The network is an
    oracle: `net(a)` is what attempt `a` (counted from 0) yields, whether a
    response or an exception. Timers, abort signals and the sleeps themselves
    are not run: the sleeps are returned as a trace of their lengths. */
module Http {
  import opened Wrappers
  import opened Strings

  /** Defaults of `fetchWithRetry`'s retry options, in attempts and milliseconds. */
  const DefaultMaxRetries: int := 3
  const DefaultRetryDelay: int := 5_000
  /** The header every request carries unless the caller overrides it. */
  const UserAgent: string := "Mozilla/5.0 (Windows NT 10.0; Win64; x64)"
  /** The error thrown when the loop runs no attempt at all. */
  const UnreachableMessage: string := "fetchWithRetry: unreachable"

  /** What one request yields: a response, or an exception (a network failure,
      or the abort fired by the time limit) with its message. */
  datatype Outcome =
    | Response(status: int, statusText: string, body: string)
    | Failure(message: string)

  /** `response.ok`: the status is in 200..299. */
  predicate IsOk(o: Outcome)
  {
    o.Response? && 200 <= o.status <= 299
  }

  /** The message of the error a failed attempt ends with: the exception's own,
      or `HTTP <status>: <statusText>` for a response that is not ok. */
  function ErrorMessage(o: Outcome): string
  {
    match o
    case Response(status, statusText, _) => "HTTP " + IntToString(status) + ": " + statusText
    case Failure(message) => message
  }

  /** `FetchOptions`; an absent member takes its default when read. */
  datatype FetchOptions = FetchOptions(
    timeout: Option<int>,
    maxRetries: Option<int>,
    retryDelay: Option<int>,
    headers: map<string, string>)
  {
    function MaxRetries(): int
    {
      maxRetries.GetOr(DefaultMaxRetries)
    }

    function RetryDelay(): int
    {
      retryDelay.GetOr(DefaultRetryDelay)
    }
  }

  /** `{ ...DEFAULT_HEADERS, ...headers }`: the caller's headers win, and the
      user agent is sent unless the caller replaced it. */
  function MergedHeaders(headers: map<string, string>): (m: map<string, string>)
    ensures "User-Agent" in m
    ensures "User-Agent" !in headers ==> m["User-Agent"] == UserAgent
    ensures forall k :: k in headers ==> k in m && m[k] == headers[k]
    ensures forall k :: k in m ==> k in headers || k == "User-Agent"
  {
    map["User-Agent" := UserAgent] + headers
  }

  /** The waits after the first `n` failed attempts: `delay * (a + 1)` after
      attempt `a`, so the wait grows linearly. */
  function Backoff(delay: int, n: nat): (waits: seq<int>)
    ensures |waits| == n
    ensures forall a :: 0 <= a < n ==> waits[a] == delay * (a + 1)
  {
    if n == 0 then [] else Backoff(delay, n - 1) + [delay * n]
  }

  /** What `fetchWithRetry` promises, given the attempt outcomes: with no
      attempt allowed it throws the "unreachable" error; otherwise it stops at
      the first ok response, or throws the last attempt's error after
      `maxRetries` failures, and it waits only between attempts. */
  predicate Retried(net: nat -> Outcome, maxRetries: int, delay: int,
                    result: Result<string>, attempts: nat, sleeps: seq<int>)
  {
    if maxRetries <= 0 then
      result == Err(UnreachableMessage) && attempts == 0 && sleeps == []
    else
      && 1 <= attempts <= maxRetries
      && (forall a :: 0 <= a < attempts - 1 ==> !IsOk(net(a)))
      && sleeps == Backoff(delay, attempts - 1)
      && (IsOk(net(attempts - 1)) ==> result == Ok(net(attempts - 1).body))
      && (!IsOk(net(attempts - 1)) ==> attempts == maxRetries && result == Err(ErrorMessage(net(attempts - 1))))
  }

  /** `fetchWithRetry(url, opts)`. */
  method FetchWithRetry(opts: FetchOptions, net: nat -> Outcome)
    returns (result: Result<string>, attempts: nat, sleeps: seq<int>)
    ensures Retried(net, opts.MaxRetries(), opts.RetryDelay(), result, attempts, sleeps)
    ensures result.Ok? <==> exists a :: 0 <= a < opts.MaxRetries() && IsOk(net(a))
    ensures attempts <= opts.MaxRetries() || attempts == 0
  {
    var maxRetries := opts.MaxRetries();
    var delay := opts.RetryDelay();
    sleeps := [];
    attempts := 0;
    var attempt: nat := 0;
    while attempt < maxRetries
      invariant attempt == 0 || attempt < maxRetries
      invariant attempts == attempt
      invariant forall a :: 0 <= a < attempt ==> !IsOk(net(a))
      invariant sleeps == Backoff(delay, attempt)
      decreases maxRetries - attempt
    {
      var outcome := net(attempt);
      attempts := attempt + 1;
      if IsOk(outcome) {
        result := Ok(outcome.body);
        return;
      }
      if attempt == maxRetries - 1 {
        result := Err(ErrorMessage(outcome));
        return;
      }
      sleeps := sleeps + [delay * (attempt + 1)];
      attempt := attempt + 1;
    }
    result := Err(UnreachableMessage);
  }

  /** The promise fixes the run: given the outcomes, there is one result, one
      attempt count and one sleep trace. */
  lemma RetriedUnique(net: nat -> Outcome, maxRetries: int, delay: int,
                      r1: Result<string>, n1: nat, s1: seq<int>,
                      r2: Result<string>, n2: nat, s2: seq<int>)
    requires Retried(net, maxRetries, delay, r1, n1, s1)
    requires Retried(net, maxRetries, delay, r2, n2, s2)
    ensures r1 == r2 && n1 == n2 && s1 == s2
  {
    if maxRetries > 0 {
      if n1 < n2 {
        assert false;
      } else if n2 < n1 {
        assert false;
      }
    }
  }

  /** A source that always fails costs exactly `maxRetries` attempts and
      `maxRetries - 1` waits, and the error surfaced is the last attempt's. */
  lemma AlwaysFailing(net: nat -> Outcome, maxRetries: int, delay: int,
                      result: Result<string>, attempts: nat, sleeps: seq<int>)
    requires maxRetries > 0
    requires forall a: nat :: !IsOk(net(a))
    requires Retried(net, maxRetries, delay, result, attempts, sleeps)
    ensures attempts == maxRetries
    ensures |sleeps| == maxRetries - 1
    ensures result == Err(ErrorMessage(net(maxRetries - 1)))
  {
  }

  /** With the default options a dead source is tried three times, with waits
      of 5 s and then 10 s. */
  lemma DefaultScheduleOnFailure(net: nat -> Outcome, result: Result<string>, attempts: nat, sleeps: seq<int>)
    requires forall a: nat :: !IsOk(net(a))
    requires Retried(net, DefaultMaxRetries, DefaultRetryDelay, result, attempts, sleeps)
    ensures attempts == 3
    ensures sleeps == [5_000, 10_000]
  {
    AlwaysFailing(net, DefaultMaxRetries, DefaultRetryDelay, result, attempts, sleeps);
  }

  function Sum(xs: seq<int>): int
  {
    if |xs| == 0 then 0 else Sum(xs[..|xs| - 1]) + xs[|xs| - 1]
  }

  /** The waits add up to `delay * n * (n + 1) / 2`. */
  lemma {:induction false} BackoffTotal(delay: int, n: nat)
    ensures 2 * Sum(Backoff(delay, n)) == delay * n * (n + 1)
  {
    if n > 0 {
      var w := Backoff(delay, n);
      assert w[..n - 1] == Backoff(delay, n - 1);
      BackoffTotal(delay, n - 1);
      assert delay * n * (n + 1) == delay * (n - 1) * n + 2 * (delay * n);
    }
  }

  /** `fetchText(url, timeout)`: one attempt; the body of an ok response, and
      `null` for any other status or any exception. It never throws. */
  function FetchText(o: Outcome): (r: Option<string>)
    ensures r.Some? <==> IsOk(o)
    ensures r.Some? ==> r.value == o.body
  {
    if IsOk(o) then Some(o.body) else None
  }

  /** `fetchText` succeeds exactly when a single-attempt `fetchWithRetry`
      would, with the same body; it only replaces the thrown error by `null`. */
  lemma FetchTextIsOneAttempt(net: nat -> Outcome, delay: int,
                              result: Result<string>, attempts: nat, sleeps: seq<int>)
    requires Retried(net, 1, delay, result, attempts, sleeps)
    ensures attempts == 1 && sleeps == []
    ensures FetchText(net(0)).Some? <==> result.Ok?
    ensures result.Ok? ==> FetchText(net(0)) == Some(result.value)
  {
  }
}
