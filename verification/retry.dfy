/**
  The retry wrapper of the generation service (services/geminiService.ts):
  a call is attempted up to `retries` times; a failure that mentions or
  carries status 429 or 500 is transient and is followed by an exponential
  backoff sleep, any other failure is rethrown at once.

  The wrapped call is modelled as `fn: nat -> Outcome<T>`, the outcome of
  the attempt with that index, and the random part of each sleep as
  `jitter: nat -> Jitter`. A run records what was returned or thrown, how
  many times `fn` was called and the delays slept, in order.
 */
module Retry {
  import opened Types
  import opened Strings

  /** The caught error: its `message` and `status` properties, either of which may be missing. */
  datatype ApiError = ApiError(message: Option<string>, status: Option<int>)

  datatype Outcome<T> = Success(value: T) | Failure(error: ApiError)

  /** The random part of a backoff delay in whole milliseconds. */
  type Jitter = j: int | 0 <= j < 1000

  const BaseDelayMs: nat := 2000
  const DefaultRetries: int := 3

  function Pow2(i: nat): (p: nat)
    ensures p >= 1
  {
    if i == 0 then 1 else 2 * Pow2(i - 1)
  }

  predicate MessageMentions(e: ApiError, code: string) {
    e.message.Some? && Contains(e.message.value, code)
  }

  predicate IsRateLimit(e: ApiError) {
    MessageMentions(e, "429") || e.status == Some(429)
  }

  /** Only 500 counts; other 5xx statuses are terminal. */
  predicate IsServerError(e: ApiError) {
    MessageMentions(e, "500") || e.status == Some(500)
  }

  predicate IsTransient(e: ApiError) {
    IsRateLimit(e) || IsServerError(e)
  }

  /** The attempt with this outcome failed and will be retried after a sleep. */
  predicate FailedTransiently<T>(o: Outcome<T>) {
    o.Failure? && IsTransient(o.error)
  }

  /** The sleep after transient failure number `i` (counting from 0). */
  function BackoffDelay(i: nat, j: Jitter): (ms: int)
    ensures Pow2(i) * BaseDelayMs <= ms < Pow2(i) * BaseDelayMs + 1000
  {
    Pow2(i) * BaseDelayMs + j
  }

  /** How the wrapper settles: a returned value, or a thrown error (`None` is a thrown `undefined`). */
  datatype Settled<T> = Returned(value: T) | Thrown(error: Option<ApiError>)

  datatype Run<T> = Run(settled: Settled<T>, calls: nat, delays: seq<int>)

  /**
    The loop from attempt `i` on, with `lastError` the error of the previous
    attempt. The calls made are attempts `i .. calls-1`; every one of them
    but the last failed transiently; the result is the last call's value or
    error, or `lastError` when no call was made; a delay is slept after each
    transient failure, including the final one.
   */
  function RetryLoop<T>(fn: nat -> Outcome<T>, jitter: nat -> Jitter, retries: int, i: nat,
                        lastError: Option<ApiError>): (run: Run<T>)
    ensures i <= run.calls
    ensures run.calls <= if retries > i then retries else i
    ensures forall a :: i <= a < run.calls - 1 ==> FailedTransiently(fn(a))
    ensures run.settled.Returned? ==> run.calls > i && fn(run.calls - 1) == Success(run.settled.value)
    ensures run.settled.Thrown? && run.calls == i ==> run.settled.error == lastError
    ensures run.settled.Thrown? && run.calls > i ==>
      fn(run.calls - 1).Failure? && run.settled.error == Some(fn(run.calls - 1).error)
    ensures run.calls > i && !FailedTransiently(fn(run.calls - 1)) ==> |run.delays| == run.calls - i - 1
    ensures (run.calls == i || FailedTransiently(fn(run.calls - 1))) ==> |run.delays| == run.calls - i
    ensures forall k :: 0 <= k < |run.delays| ==> run.delays[k] == BackoffDelay(i + k, jitter(i + k))
    decreases if i < retries then retries - i else 0
  {
    if i >= retries then Run(Thrown(lastError), i, [])
    else
      match fn(i)
      case Success(v) => Run(Returned(v), i + 1, [])
      case Failure(e) =>
        if IsTransient(e) then
          var rest := RetryLoop(fn, jitter, retries, i + 1, Some(e));
          Run(rest.settled, rest.calls, [BackoffDelay(i, jitter(i))] + rest.delays)
        else Run(Thrown(Some(e)), i + 1, [])
  }

  /** `withRetry(fn, retries)`: the loop from the first attempt, with nothing caught yet. */
  function WithRetry<T>(fn: nat -> Outcome<T>, jitter: nat -> Jitter, retries: int): (run: Run<T>)
    ensures run.calls <= if retries > 0 then retries else 0
    ensures |run.delays| <= run.calls
    ensures forall k :: 0 <= k < |run.delays| ==>
      Pow2(k) * BaseDelayMs <= run.delays[k] < Pow2(k) * BaseDelayMs + 1000
  {
    RetryLoop(fn, jitter, retries, 0, None)
  }

  /** Every attempt before `k` failed transiently. */
  predicate TransientBefore<T>(fn: nat -> Outcome<T>, k: nat) {
    forall a :: 0 <= a < k ==> FailedTransiently(fn(a))
  }

  /**
    From attempt `i` on, when attempts `i .. k-1` fail transiently and
    attempt `k < retries` does not, the loop makes exactly the calls up to
    `k` and sleeps once per transient failure.
   */
  lemma {:induction false} LoopStopsAt<T>(fn: nat -> Outcome<T>, jitter: nat -> Jitter, retries: int,
                                          i: nat, lastError: Option<ApiError>, k: nat)
    requires i <= k < retries
    requires forall a :: i <= a < k ==> FailedTransiently(fn(a))
    requires !FailedTransiently(fn(k))
    ensures var run := RetryLoop(fn, jitter, retries, i, lastError);
      && run.calls == k + 1
      && |run.delays| == k - i
      && (fn(k).Success? ==> run.settled == Returned(fn(k).value))
      && (fn(k).Failure? ==> run.settled == Thrown(Some(fn(k).error)))
    decreases k - i
  {
    if i < k {
      LoopStopsAt(fn, jitter, retries, i + 1, Some(fn(i).error), k);
    }
  }

  /** From attempt `i` on, when every remaining attempt fails transiently, all are made and the last error is thrown. */
  lemma {:induction false} LoopExhausts<T>(fn: nat -> Outcome<T>, jitter: nat -> Jitter, retries: int,
                                           i: nat, lastError: Option<ApiError>)
    requires i < retries
    requires forall a :: i <= a < retries ==> FailedTransiently(fn(a))
    ensures var run := RetryLoop(fn, jitter, retries, i, lastError);
      && run.calls == retries
      && |run.delays| == retries - i
      && run.settled == Thrown(Some(fn(retries - 1).error))
    decreases retries - i
  {
    if i + 1 < retries {
      LoopExhausts(fn, jitter, retries, i + 1, Some(fn(i).error));
    }
  }

  /** Success on attempt `k+1` (counting from one) returns its value after `k+1` calls and `k` sleeps. */
  lemma RetrySucceeds<T>(fn: nat -> Outcome<T>, jitter: nat -> Jitter, retries: int, k: nat)
    requires k < retries
    requires TransientBefore(fn, k) && fn(k).Success?
    ensures WithRetry(fn, jitter, retries) ==
      Run(Returned(fn(k).value), k + 1, WithRetry(fn, jitter, retries).delays)
    ensures |WithRetry(fn, jitter, retries).delays| == k
  {
    LoopStopsAt(fn, jitter, retries, 0, None, k);
  }

  /** A terminal failure is rethrown unchanged, with no sleep after it and no further call. */
  lemma RetryStopsOnTerminal<T>(fn: nat -> Outcome<T>, jitter: nat -> Jitter, retries: int, k: nat)
    requires k < retries
    requires TransientBefore(fn, k) && fn(k).Failure? && !IsTransient(fn(k).error)
    ensures WithRetry(fn, jitter, retries).settled == Thrown(Some(fn(k).error))
    ensures WithRetry(fn, jitter, retries).calls == k + 1
    ensures |WithRetry(fn, jitter, retries).delays| == k
  {
    LoopStopsAt(fn, jitter, retries, 0, None, k);
  }

  /** When every attempt fails transiently, each is followed by a sleep and the last error is thrown. */
  lemma RetryExhausted<T>(fn: nat -> Outcome<T>, jitter: nat -> Jitter, retries: int)
    requires retries >= 1
    requires TransientBefore(fn, retries)
    ensures WithRetry(fn, jitter, retries).settled == Thrown(Some(fn(retries - 1).error))
    ensures WithRetry(fn, jitter, retries).calls == retries
    ensures |WithRetry(fn, jitter, retries).delays| == retries
  {
    LoopExhausts(fn, jitter, retries, 0, None);
  }

  /** With no attempts allowed the call is never made and `undefined` is thrown. */
  lemma RetryWithoutAttempts<T>(fn: nat -> Outcome<T>, jitter: nat -> Jitter, retries: int)
    requires retries <= 0
    ensures WithRetry(fn, jitter, retries) == Run(Thrown(None), 0, [])
  {
  }

  /** With the default of three attempts, two rate-limit failures then a success give the value after two sleeps. */
  lemma TwoRateLimitsThenSuccess(fn: nat -> Outcome<string>, jitter: nat -> Jitter)
    requires fn(0) == Failure(ApiError(None, Some(429))) && fn(1) == Failure(ApiError(None, Some(429)))
    requires fn(2) == Success("ok")
    ensures WithRetry(fn, jitter, DefaultRetries).settled == Returned("ok")
    ensures WithRetry(fn, jitter, DefaultRetries).calls == 3
    ensures WithRetry(fn, jitter, DefaultRetries).delays == [BackoffDelay(0, jitter(0)), BackoffDelay(1, jitter(1))]
  {
    RetrySucceeds(fn, jitter, DefaultRetries, 2);
  }

  /** Without a message, only the statuses 429 and 500 are retried; 502, 503 and 504 are not. */
  lemma StatusClassification(status: int)
    ensures IsTransient(ApiError(None, Some(status))) <==> status == 429 || status == 500
  {
  }

  /**
    The classification reads the message text, so a parse error whose message
    happens to quote a position such as 500 is retried like a server fault.
   */
  lemma ParseErrorMentioningPositionIsRetried()
    ensures IsTransient(ApiError(Some("Unexpected token in JSON at position 500"), None))
  {
    var m := "Unexpected token in JSON at position 500";
    assert OccursAt(m, "500", 37);
  }

}
