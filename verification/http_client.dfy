/** The API client's request loop (`ApiClient.request`): up to `maxRetries + 1` attempts,
    exponential backoff between retryable failures, and an optional hook that refreshes the
    session after a 401/403 and retries at once. The transport and the hook are oracles
    indexed by the attempt number. */
module HttpClient {
  import opened Wrappers

  const MaxRetries: int := 3
  const BaseDelayMs: nat := 1000
  const MaxDelayMs: nat := 30000

  /** What an axios failure exposes to the loop: whether a response arrived, its status,
      and the error code (`ECONNRESET`, `ETIMEDOUT`, ...). */
  datatype HttpError = HttpError(hasResponse: bool, status: int, code: string)

  /** One transport call: a response body or an error. */
  datatype Attempt<B> = Response(body: B) | Failure(err: HttpError)

  /** How `request` ends: it returns a body, or it throws an error (`throw null` is
      `Thrown(None)`, which happens only when `maxRetries` is negative). */
  datatype Outcome<B> = Returned(body: B) | Thrown(err: Option<HttpError>)

  /** The observable run: the outcome, how many transport calls were made, and the
      deterministic part of every backoff slept, in order. */
  datatype Run<B> = Run(outcome: Outcome<B>, calls: nat, backoffs: seq<nat>)

  /** 401 or 403 with a response. */
  predicate IsAuthError(e: HttpError) {
    e.hasResponse && (e.status == 401 || e.status == 403)
  }

  /** No response, a 5xx status, or a connection reset / timeout code. */
  predicate IsRetryable(e: HttpError) {
    !e.hasResponse || e.status >= 500 || e.code == "ECONNRESET" || e.code == "ETIMEDOUT"
  }

  function Pow2(n: nat): (r: nat)
    ensures r >= 1
  {
    if n == 0 then 1 else 2 * Pow2(n - 1)
  }

  /** The deterministic part of `getBackoffDelay`: `min(1000 * 2^attempt, 30000)`. */
  function Backoff(attempt: nat): (d: nat)
    ensures BaseDelayMs <= d <= MaxDelayMs
    ensures d == MaxDelayMs || d == BaseDelayMs * Pow2(attempt)
    ensures d <= BaseDelayMs * Pow2(attempt)
  {
    if BaseDelayMs * Pow2(attempt) < MaxDelayMs then BaseDelayMs * Pow2(attempt) else MaxDelayMs
  }

  lemma {:induction false} Pow2Monotone(a: nat, b: nat)
    requires a <= b
    ensures Pow2(a) <= Pow2(b)
    decreases b
  {
    if a < b {
      Pow2Monotone(a, b - 1);
    }
  }

  /** Later attempts never wait less. */
  lemma BackoffMonotone(a: nat, b: nat)
    requires a <= b
    ensures Backoff(a) <= Backoff(b)
  {
    Pow2Monotone(a, b);
  }

  /** From the sixth attempt on (index 5) the delay is the 30-second cap. */
  lemma BackoffCapped(a: nat)
    requires a >= 5
    ensures Backoff(a) == MaxDelayMs
  {
    Pow2Monotone(5, a);
    assert Pow2(5) == 32;
  }

  /** What the `catch` block does with an error at attempt `a`. */
  datatype Reaction = Refresh | Retry | Rethrow

  function React(e: HttpError, a: int, maxRetries: int, hasHook: bool, refreshed: bool): (r: Reaction)
    ensures r == Refresh <==> IsAuthError(e) && hasHook && refreshed
    ensures r == Retry <==> !(IsAuthError(e) && hasHook && refreshed) && IsRetryable(e) && a < maxRetries
  {
    if IsAuthError(e) && hasHook && refreshed then Refresh
    else if IsRetryable(e) && a < maxRetries then Retry
    else Rethrow
  }

  /** The loop from attempt `a` on, `last` being the error recorded so far. */
  function RunFrom<B>(maxRetries: int, transport: nat -> Attempt<B>, hasHook: bool,
                      refresh: nat -> bool, a: nat, last: Option<HttpError>): (r: Run<B>)
    ensures a > maxRetries ==> r == Run(Thrown(last), 0, [])
    ensures a <= maxRetries ==> 1 <= r.calls <= maxRetries + 1 - a
    ensures |r.backoffs| <= r.calls
    decreases maxRetries + 1 - a
  {
    if a > maxRetries then Run(Thrown(last), 0, [])
    else match transport(a)
      case Response(b) => Run(Returned(b), 1, [])
      case Failure(e) =>
        match React(e, a, maxRetries, hasHook, hasHook && IsAuthError(e) && refresh(a))
        case Refresh =>
          var rest := RunFrom(maxRetries, transport, hasHook, refresh, a + 1, Some(e));
          Run(rest.outcome, rest.calls + 1, rest.backoffs)
        case Retry =>
          var rest := RunFrom(maxRetries, transport, hasHook, refresh, a + 1, Some(e));
          Run(rest.outcome, rest.calls + 1, [Backoff(a)] + rest.backoffs)
        case Rethrow => Run(Thrown(Some(e)), 1, [])
  }

  /** `options.maxRetries ?? RETRY.maxRetries` */
  function RetryLimit(option: Option<int>): (n: int)
    ensures option.None? ==> n == MaxRetries
    ensures option.Some? ==> n == option.value
  {
    if option.Some? then option.value else MaxRetries
  }

  /** `request`, written as the source's loop. The refresh hook is asked only for an auth
      error and only when one is installed, as in the source. */
  method Request<B>(retryOption: Option<int>, transport: nat -> Attempt<B>, hasHook: bool, refresh: nat -> bool)
    returns (outcome: Outcome<B>, calls: nat, backoffs: seq<nat>)
    ensures Run(outcome, calls, backoffs) == RunFrom(RetryLimit(retryOption), transport, hasHook, refresh, 0, None)
  {
    var maxRetries := RetryLimit(retryOption);
    ghost var total := RunFrom(maxRetries, transport, hasHook, refresh, 0, None);
    var lastError: Option<HttpError> := None;
    calls, backoffs := 0, [];
    var attempt: nat := 0;
    while attempt <= maxRetries
      invariant calls == attempt
      invariant Tracks(total, RunFrom(maxRetries, transport, hasHook, refresh, attempt, lastError), calls, backoffs)
      decreases maxRetries + 1 - attempt
    {
      var answer := transport(attempt);
      match answer {
        case Response(b) =>
          ResponseStep(maxRetries, transport, hasHook, refresh, attempt, lastError, b, total, backoffs);
          return Returned(b), calls + 1, backoffs;
        case Failure(e) =>
          var refreshed := false;
          if IsAuthError(e) && hasHook {
            refreshed := refresh(attempt);
          }
          if IsAuthError(e) && hasHook && refreshed {
            RefreshStep(maxRetries, transport, hasHook, refresh, attempt, lastError, e, total, backoffs);
            lastError := Some(e);
            calls, attempt := calls + 1, attempt + 1;
            continue;
          }
          if IsRetryable(e) && attempt < maxRetries {
            RetryStep(maxRetries, transport, hasHook, refresh, attempt, lastError, e, total, backoffs);
            lastError := Some(e);
            backoffs := backoffs + [Backoff(attempt)];
            calls, attempt := calls + 1, attempt + 1;
            continue;
          }
          RethrowStep(maxRetries, transport, hasHook, refresh, attempt, lastError, e, total, backoffs);
          return Thrown(Some(e)), calls + 1, backoffs;
      }
    }
    ExhaustedStep(maxRetries, transport, hasHook, refresh, attempt, lastError, total, backoffs);
    outcome := Thrown(lastError);
  }

  /** The whole run `total` is what was observed so far followed by the run `r` of the
      remaining attempts. */
  ghost predicate Tracks<B>(total: Run<B>, r: Run<B>, calls: nat, backoffs: seq<nat>) {
    total == Run(r.outcome, calls + r.calls, backoffs + r.backoffs)
  }

  /** Past the last attempt the run ends by throwing the error recorded so far. */
  lemma ExhaustedStep<B>(maxRetries: int, transport: nat -> Attempt<B>, hasHook: bool, refresh: nat -> bool,
                         a: nat, last: Option<HttpError>, total: Run<B>, backoffs: seq<nat>)
    requires a > maxRetries
    requires Tracks(total, RunFrom(maxRetries, transport, hasHook, refresh, a, last), a, backoffs)
    ensures total == Run(Thrown(last), a, backoffs)
  {
    assert backoffs + [] == backoffs;
  }

  /** A response at attempt `a` ends the run with its body. */
  lemma ResponseStep<B>(maxRetries: int, transport: nat -> Attempt<B>, hasHook: bool, refresh: nat -> bool,
                        a: nat, last: Option<HttpError>, b: B, total: Run<B>, backoffs: seq<nat>)
    requires a <= maxRetries && transport(a) == Response(b)
    requires Tracks(total, RunFrom(maxRetries, transport, hasHook, refresh, a, last), a, backoffs)
    ensures total == Run(Returned(b), a + 1, backoffs)
  {
    assert backoffs + [] == backoffs;
  }

  /** After a refreshed auth error the loop goes on without a backoff. */
  lemma RefreshStep<B>(maxRetries: int, transport: nat -> Attempt<B>, hasHook: bool, refresh: nat -> bool,
                       a: nat, last: Option<HttpError>, e: HttpError, total: Run<B>, backoffs: seq<nat>)
    requires a <= maxRetries && transport(a) == Failure(e)
    requires IsAuthError(e) && hasHook && refresh(a)
    requires Tracks(total, RunFrom(maxRetries, transport, hasHook, refresh, a, last), a, backoffs)
    ensures Tracks(total, RunFrom(maxRetries, transport, hasHook, refresh, a + 1, Some(e)), a + 1, backoffs)
  {
    StepOnFailure(maxRetries, transport, hasHook, refresh, a, last, e);
  }

  /** After a retryable failure the loop goes on after the attempt's backoff. */
  lemma RetryStep<B>(maxRetries: int, transport: nat -> Attempt<B>, hasHook: bool, refresh: nat -> bool,
                     a: nat, last: Option<HttpError>, e: HttpError, total: Run<B>, backoffs: seq<nat>)
    requires a < maxRetries && transport(a) == Failure(e)
    requires !(IsAuthError(e) && hasHook && refresh(a)) && IsRetryable(e)
    requires Tracks(total, RunFrom(maxRetries, transport, hasHook, refresh, a, last), a, backoffs)
    ensures Tracks(total, RunFrom(maxRetries, transport, hasHook, refresh, a + 1, Some(e)), a + 1, backoffs + [Backoff(a)])
  {
    StepOnFailure(maxRetries, transport, hasHook, refresh, a, last, e);
    var rest := RunFrom(maxRetries, transport, hasHook, refresh, a + 1, Some(e));
    assert backoffs + ([Backoff(a)] + rest.backoffs) == (backoffs + [Backoff(a)]) + rest.backoffs;
  }

  /** Any other failure is thrown at once. */
  lemma RethrowStep<B>(maxRetries: int, transport: nat -> Attempt<B>, hasHook: bool, refresh: nat -> bool,
                       a: nat, last: Option<HttpError>, e: HttpError, total: Run<B>, backoffs: seq<nat>)
    requires a <= maxRetries && transport(a) == Failure(e)
    requires !(IsAuthError(e) && hasHook && refresh(a)) && !(IsRetryable(e) && a < maxRetries)
    requires Tracks(total, RunFrom(maxRetries, transport, hasHook, refresh, a, last), a, backoffs)
    ensures total == Run(Thrown(Some(e)), a + 1, backoffs)
  {
    StepOnFailure(maxRetries, transport, hasHook, refresh, a, last, e);
    assert backoffs + [] == backoffs;
  }

  /** One step of the loop on a failure at attempt `a`, by the `catch` block's reaction. */
  lemma StepOnFailure<B>(maxRetries: int, transport: nat -> Attempt<B>, hasHook: bool,
                         refresh: nat -> bool, a: nat, last: Option<HttpError>, e: HttpError)
    requires a <= maxRetries && transport(a) == Failure(e)
    ensures var r := RunFrom(maxRetries, transport, hasHook, refresh, a, last);
      var rest := RunFrom(maxRetries, transport, hasHook, refresh, a + 1, Some(e));
      match React(e, a, maxRetries, hasHook, hasHook && IsAuthError(e) && refresh(a))
      case Refresh => r == Run(rest.outcome, rest.calls + 1, rest.backoffs)
      case Retry => r == Run(rest.outcome, rest.calls + 1, [Backoff(a)] + rest.backoffs)
      case Rethrow => r == Run(Thrown(Some(e)), 1, [])
  {
  }

  /** A returned body is the answer of the last transport call. */
  lemma {:induction false} ReturnedIsLastAnswer<B>(maxRetries: int, transport: nat -> Attempt<B>,
                                                  hasHook: bool, refresh: nat -> bool, a: nat, last: Option<HttpError>)
    requires RunFrom(maxRetries, transport, hasHook, refresh, a, last).outcome.Returned?
    ensures var r := RunFrom(maxRetries, transport, hasHook, refresh, a, last);
      r.calls >= 1 && transport(a + r.calls - 1) == Response(r.outcome.body)
    decreases maxRetries + 1 - a
  {
    if a <= maxRetries && transport(a).Failure? {
      ReturnedIsLastAnswer(maxRetries, transport, hasHook, refresh, a + 1, Some(transport(a).err));
    }
  }

  function Backoffs(n: nat): (ds: seq<nat>)
    ensures |ds| == n && forall i :: 0 <= i < n ==> ds[i] == Backoff(i)
  {
    seq(n, i requires 0 <= i => Backoff(i))
  }

  /** After retryable failures at attempts `a..k-1`, an error that is neither retryable nor
      refreshed at attempt `k` is thrown as it is: `k + 1 - a` calls and one backoff per
      earlier failure. With `a == k == 0` this is the rethrow on the first occurrence. */
  lemma {:induction false} FirstHardErrorThrown<B>(maxRetries: int, transport: nat -> Attempt<B>,
                                                  hasHook: bool, refresh: nat -> bool, a: nat, k: nat, last: Option<HttpError>)
    requires a <= k <= maxRetries
    requires forall i: nat :: a <= i < k ==> (transport(i).Failure?
      && React(transport(i).err, i, maxRetries, hasHook, hasHook && IsAuthError(transport(i).err) && refresh(i)) == Retry)
    requires transport(k).Failure?
    requires React(transport(k).err, k, maxRetries, hasHook, hasHook && IsAuthError(transport(k).err) && refresh(k)) == Rethrow
    ensures var r := RunFrom(maxRetries, transport, hasHook, refresh, a, last);
      r.outcome == Thrown(Some(transport(k).err)) && r.calls == k + 1 - a
      && r.backoffs == Backoffs(k)[a..]
    decreases k - a
  {
    if a < k {
      FirstHardErrorThrown(maxRetries, transport, hasHook, refresh, a + 1, k, Some(transport(a).err));
      assert Backoffs(k)[a..] == [Backoff(a)] + Backoffs(k)[a + 1..];
    }
  }

  /** When every attempt fails with a retryable error and no refresh, the loop makes
      `maxRetries + 1` calls, sleeps `maxRetries` backoffs and throws the last error. */
  lemma AllRetryableExhausts<B>(maxRetries: nat, transport: nat -> Attempt<B>, hasHook: bool, refresh: nat -> bool)
    requires forall i: nat :: i <= maxRetries ==> (transport(i).Failure? && IsRetryable(transport(i).err)
      && !(hasHook && IsAuthError(transport(i).err) && refresh(i)))
    ensures var r := RunFrom(maxRetries, transport, hasHook, refresh, 0, None);
      r.outcome == Thrown(Some(transport(maxRetries).err)) && r.calls == maxRetries + 1
      && r.backoffs == Backoffs(maxRetries)
  {
    FirstHardErrorThrown(maxRetries, transport, hasHook, refresh, 0, maxRetries, None);
    assert Backoffs(maxRetries)[0..] == Backoffs(maxRetries);
  }

  /** A refreshed auth failure uses up an attempt but sleeps no backoff: when every attempt
      from `a` on is refreshed, no delay is slept, and after the last attempt the loop
      throws the last auth error. */
  lemma {:induction false} RefreshesSleepNothing<B>(maxRetries: int, transport: nat -> Attempt<B>,
                                                   hasHook: bool, refresh: nat -> bool, a: nat, last: Option<HttpError>)
    requires a <= maxRetries
    requires forall i: nat :: a <= i <= maxRetries ==> (transport(i).Failure?
      && IsAuthError(transport(i).err) && hasHook && refresh(i))
    ensures var r := RunFrom(maxRetries, transport, hasHook, refresh, a, last);
      r.backoffs == [] && r.calls == maxRetries + 1 - a
      && r.outcome == Thrown(Some(transport(maxRetries).err))
    decreases maxRetries - a
  {
    if a < maxRetries {
      RefreshesSleepNothing(maxRetries, transport, hasHook, refresh, a + 1, Some(transport(a).err));
    }
  }

  /** With attempts left, a failure that is not refreshed leads to another call exactly
      when it is retryable; a retry first sleeps this attempt's backoff, and any other error
      is thrown after this one call. */
  lemma RetryableDecidesRetry<B>(maxRetries: int, transport: nat -> Attempt<B>, hasHook: bool,
                                 refresh: nat -> bool, a: nat, last: Option<HttpError>, e: HttpError)
    requires a < maxRetries && transport(a) == Failure(e)
    requires !(hasHook && IsAuthError(e) && refresh(a))
    ensures var r := RunFrom(maxRetries, transport, hasHook, refresh, a, last);
      (r.calls > 1 <==> IsRetryable(e))
      && (IsRetryable(e) ==> |r.backoffs| >= 1 && r.backoffs[0] == Backoff(a))
      && (!IsRetryable(e) ==> r == Run(Thrown(Some(e)), 1, []))
  {
    StepOnFailure(maxRetries, transport, hasHook, refresh, a, last, e);
  }

  /** Without a refresh hook, a 401 or 403 is never retried (unless its code is a reset or a
      timeout): it is thrown after this one call. */
  lemma AuthErrorWithoutHookThrown<B>(maxRetries: int, transport: nat -> Attempt<B>, refresh: nat -> bool,
                                      a: nat, last: Option<HttpError>, e: HttpError)
    requires a <= maxRetries && transport(a) == Failure(e)
    requires IsAuthError(e) && e.code != "ECONNRESET" && e.code != "ETIMEDOUT"
    ensures RunFrom(maxRetries, transport, false, refresh, a, last) == Run(Thrown(Some(e)), 1, [])
  {
    StepOnFailure(maxRetries, transport, false, refresh, a, last, e);
  }
}
