/** The resilient call to the chat-completion provider (`call_openai_with_retry`).
    The provider itself is not modelled: `answer(k)` is what the k-th outbound
    call (counting from 0) returns, either a completion or a failure carrying
    the exception's text and, when the exception has one, its HTTP status.
    Each `sleep(ms)` is recorded by appending `ms` to a list of waits. */
module Retry {
  import opened Wrappers
  import opened Text

  const MaxRetries: nat := 3
  const InitialBackoffMs: nat := 1000
  const MaxBackoffMs: nat := 10000

  function Pow2(n: nat): (r: nat)
    ensures r >= 1
  {
    if n == 0 then 1 else 2 * Pow2(n - 1)
  }

  lemma {:induction false} Pow2Monotone(a: nat, b: nat)
    requires a <= b
    ensures Pow2(a) <= Pow2(b)
    decreases b
  {
    if a < b {
      Pow2Monotone(a, b - 1);
    }
  }

  /** The wait before the attempt after `attempt` (0-based):
      `min(INITIAL_BACKOFF_MS * 2 ** attempt, MAX_BACKOFF_MS)`. */
  function Backoff(attempt: nat): (ms: nat)
    ensures InitialBackoffMs <= ms <= MaxBackoffMs
  {
    var doubled := InitialBackoffMs * Pow2(attempt);
    if doubled < MaxBackoffMs then doubled else MaxBackoffMs
  }

  /** Each wait is twice the previous one until it reaches the cap. */
  lemma BackoffDoubles(attempt: nat)
    ensures Backoff(attempt + 1) == if 2 * Backoff(attempt) < MaxBackoffMs then 2 * Backoff(attempt) else MaxBackoffMs
  {
    assert Pow2(attempt + 1) == 2 * Pow2(attempt);
  }

  /** Waits never shrink from one attempt to the next. */
  lemma BackoffMonotone(a: nat, b: nat)
    requires a <= b
    ensures Backoff(a) <= Backoff(b)
  {
    Pow2Monotone(a, b);
  }

  /** The waits recorded before attempt `n`: one per earlier attempt. */
  function Backoffs(n: nat): (waits: seq<nat>)
    ensures |waits| == n
  {
    seq(n, i requires 0 <= i < n => Backoff(i))
  }

  /** With three attempts the only waits that can happen are 1000 ms and then 2000 ms. */
  lemma BackoffsUpToLast()
    ensures Backoffs(0) == []
    ensures Backoffs(1) == [1000]
    ensures Backoffs(2) == [1000, 2000]
  {
    assert Pow2(1) == 2;
  }

  /** What one outbound call gives back. */
  datatype Outcome<T> =
    | Success(completion: T)
    | Failure(message: string, status: Option<int>)

  /** The exceptions `call_openai_with_retry` ends with. */
  datatype CallError =
    | InvalidApiKey
    | RateLimited
    | QuotaExceeded
    | RetriesExhausted
    | NotRetryable(message: string, status: Option<int>)

  /** The text of each exception, as the caller sees it with `str(error)`. */
  function Message(e: CallError): string {
    match e
    case InvalidApiKey => "Invalid OpenAI API key. Please check your .env file."
    case RateLimited => "OpenAI API rate limit exceeded. Please try again later."
    case QuotaExceeded => "OpenAI API quota exceeded. Please check your billing."
    case RetriesExhausted =>
      "Connection to OpenAI failed after " + NatToDecimal(MaxRetries)
      + " attempts. This may be due to network issues or OpenAI service unavailability."
      + " Please check your internet connection and try again."
    case NotRetryable(message, _) => message
  }

  /** Each error the call ends with on its own carries its own text, so a
      caller can tell them apart by `str(error)`. */
  lemma FixedMessagesDistinct()
    ensures Message(InvalidApiKey) != Message(RateLimited)
    ensures Message(InvalidApiKey) != Message(QuotaExceeded)
    ensures Message(RateLimited) != Message(QuotaExceeded)
  {
    StatusMessageLengths();
  }

  /** The lengths of the three status texts. */
  lemma StatusMessageLengths()
    ensures |Message(InvalidApiKey)| == 52 && |Message(RateLimited)| == 55 && |Message(QuotaExceeded)| == 53
  {
    var key, rate, quota := Message(InvalidApiKey), Message(RateLimited), Message(QuotaExceeded);
    assert |key| == 52 && |rate| == 55 && |quota| == 53;
  }

  /** The exhaustion text differs from each of the three status texts. */
  lemma ExhaustedMessageDistinct()
    ensures Message(RetriesExhausted) != Message(InvalidApiKey)
    ensures Message(RetriesExhausted) != Message(RateLimited)
    ensures Message(RetriesExhausted) != Message(QuotaExceeded)
  {
    ExhaustedMessageIsLong();
    StatusMessageLengths();
  }

  /** The exhaustion text is longer than any of the three status texts. */
  lemma ExhaustedMessageIsLong()
    ensures |Message(RetriesExhausted)| > 55
  {
    var parts := " attempts. This may be due to network issues or OpenAI service unavailability."
                 + " Please check your internet connection and try again.";
    assert |parts| > 55;
  }

  /** The exhaustion message names the number of attempts, 3. */
  lemma ExhaustedMessageNamesAttempts()
    ensures Message(RetriesExhausted)
         == "Connection to OpenAI failed after " + "3"
          + " attempts. This may be due to network issues or OpenAI service unavailability."
          + " Please check your internet connection and try again."
  {
    assert NatToDecimal(MaxRetries) == [DigitChar(3)] == "3";
  }

  /** The error a status code ends the call with at once, if it is one of those. */
  function StatusError(status: Option<int>): (e: Option<CallError>)
    ensures e.Some? <==> status == Some(401) || status == Some(429) || status == Some(402)
    ensures e == Some(InvalidApiKey) <==> status == Some(401)
    ensures e == Some(RateLimited) <==> status == Some(429)
    ensures e == Some(QuotaExceeded) <==> status == Some(402)
  {
    if status == Some(401) then Some(InvalidApiKey)
    else if status == Some(429) then Some(RateLimited)
    else if status == Some(402) then Some(QuotaExceeded)
    else None
  }

  /** The words whose presence in the lower-cased text makes a failure retryable. */
  const RetryWords: seq<string> := ["connection", "timeout", "network", "fetch failed"]

  /** A failure worth retrying: its lower-cased text mentions a connection,
      timeout, network or fetch failure, or it carries a server-error status. */
  function IsRetryable(message: string, status: Option<int>): (r: bool)
    ensures r <==> (status.Some? && status.value >= 500)
                   || exists k: nat, i: nat :: k < |RetryWords| && OccursAt(Lower(message), RetryWords[k], i)
  {
    var text := Lower(message);
    var mentioned := Contains(text, "connection") || Contains(text, "timeout") || Contains(text, "network")
                     || Contains(text, "fetch failed");
    assert RetryWords[0] == "connection" && RetryWords[1] == "timeout";
    assert RetryWords[2] == "network" && RetryWords[3] == "fetch failed";
    assert mentioned <==> exists k: nat, i: nat :: k < |RetryWords| && OccursAt(text, RetryWords[k], i) by {
      forall k: nat, i: nat | k < |RetryWords| && OccursAt(text, RetryWords[k], i) ensures mentioned {
        assert Contains(text, RetryWords[k]);
      }
      if mentioned {
        var k: nat :| k < |RetryWords| && Contains(text, RetryWords[k]);
        var word := RetryWords[k];
        assert Contains(text, word);
        var i: nat :| OccursAt(text, word, i);
      }
    }
    mentioned || (status.Some? && status.value >= 500)
  }

  /** How a failure is handled. */
  datatype Verdict = Fatal(error: CallError) | Transient

  /** The classification of a failure. The three special status codes are
      looked at first, so they decide even when the text says "timeout";
      otherwise a retryable failure is transient and any other failure is
      raised again unchanged. */
  function Classify(message: string, status: Option<int>): (v: Verdict)
    ensures StatusError(status).Some? ==> v == Fatal(StatusError(status).value)
    ensures StatusError(status).None? ==> (v == Transient <==> IsRetryable(message, status))
    ensures v.Fatal? && v.error.NotRetryable? <==> StatusError(status).None? && !IsRetryable(message, status)
    ensures v.Fatal? && v.error.NotRetryable? ==> v.error == NotRetryable(message, status)
    ensures v != Fatal(RetriesExhausted)
  {
    match StatusError(status)
    case Some(e) => Fatal(e)
    case None => if IsRetryable(message, status) then Transient else Fatal(NotRetryable(message, status))
  }

  predicate RetryableFailure<T>(o: Outcome<T>) {
    o.Failure? && Classify(o.message, o.status) == Transient
  }

  /** The attempt (0-based) that ends the call, searching from attempt `a`:
      the first one that is not a retryable failure, or the last attempt. */
  function StopFrom<T>(answer: nat -> Outcome<T>, a: nat): (k: nat)
    requires a < MaxRetries
    ensures a <= k < MaxRetries
    ensures forall j :: a <= j < k ==> RetryableFailure(answer(j))
    ensures k < MaxRetries - 1 ==> !RetryableFailure(answer(k))
    decreases MaxRetries - a
  {
    if a == MaxRetries - 1 || !RetryableFailure(answer(a)) then a else StopFrom(answer, a + 1)
  }

  /** How the call ends when `o` is the outcome of its final attempt. */
  function Ending<T>(o: Outcome<T>): Result<T, CallError> {
    match o
    case Success(v) => Ok(v)
    case Failure(message, status) =>
      match Classify(message, status)
      case Fatal(e) => Err(e)
      case Transient => Err(RetriesExhausted)
  }

  /** Everything one call of `call_openai_with_retry` does: its result, the
      waits it sleeps, and how many outbound calls it makes. */
  datatype Run<T> = Run(result: Result<T, CallError>, waits: seq<nat>, calls: nat)

  /** The run, described without the loop: the call ends on the attempt
      `StopFrom(answer, 0)` and has waited once before every later attempt. */
  function Expected<T>(answer: nat -> Outcome<T>): Run<T> {
    var k := StopFrom(answer, 0);
    Run(Ending(answer(k)), Backoffs(k), k + 1)
  }

  /** `call_openai_with_retry`: up to `MaxRetries` attempts, each failure
      classified; the loop sleeps `Backoff(attempt)` before the next attempt. */
  method CallWithRetry<T>(answer: nat -> Outcome<T>)
    returns (result: Result<T, CallError>, waits: seq<nat>, calls: nat)
    ensures Run(result, waits, calls) == Expected(answer)
  {
    waits := [];
    calls := 0;
    var attempt: nat := 0;
    while attempt < MaxRetries
      invariant attempt < MaxRetries
      invariant calls == attempt
      invariant waits == Backoffs(attempt)
      invariant forall j :: 0 <= j < attempt ==> RetryableFailure(answer(j))
    {
      var outcome := answer(attempt);
      calls := calls + 1;
      match outcome {
        case Success(completion) =>
          result := Ok(completion);
          return;
        case Failure(message, status) =>
          if status == Some(401) {
            result := Err(InvalidApiKey);
            return;
          }
          if status == Some(429) {
            result := Err(RateLimited);
            return;
          }
          if status == Some(402) {
            result := Err(QuotaExceeded);
            return;
          }
          if !IsRetryable(message, status) {
            result := Err(NotRetryable(message, status));
            return;
          }
          if attempt == MaxRetries - 1 {
            result := Err(RetriesExhausted);
            return;
          }
          waits := waits + [Backoff(attempt)];
          attempt := attempt + 1;
      }
    }
    // the trailing `raise last_error` cannot be reached: the last attempt always returns or raises
    assert false;
  }

  /** Every run makes between one and `MaxRetries` calls, waits once between
      consecutive calls, never longer than the cap, each wait longer than the
      one before; it succeeds exactly when its last call succeeded, and it
      reports exhaustion only after the last allowed attempt. */
  lemma RunShape<T>(answer: nat -> Outcome<T>)
    ensures 1 <= Expected(answer).calls <= MaxRetries
    ensures |Expected(answer).waits| == Expected(answer).calls - 1
    ensures forall i :: 0 <= i < |Expected(answer).waits| ==> Expected(answer).waits[i] <= MaxBackoffMs
    ensures forall i, j :: 0 <= i < j < |Expected(answer).waits| ==> Expected(answer).waits[i] < Expected(answer).waits[j]
    ensures Expected(answer).result.Ok? <==> answer(Expected(answer).calls - 1).Success?
    ensures Expected(answer).result == Err(RetriesExhausted) ==> Expected(answer).calls == MaxRetries
  {
    BackoffsUpToLast();
    var k := StopFrom(answer, 0);
    if Ending(answer(k)) == Err(RetriesExhausted) {
      assert RetryableFailure(answer(k));
    }
  }

  /** If attempt `k` is the first success and every earlier attempt failed in
      a retryable way, the call returns that completion after `k` waits. */
  lemma FirstSuccessReturned<T>(answer: nat -> Outcome<T>, k: nat, v: T)
    requires k < MaxRetries && answer(k) == Success(v)
    requires forall j :: 0 <= j < k ==> RetryableFailure(answer(j))
    ensures Expected(answer) == Run(Ok(v), Backoffs(k), k + 1)
  {
  }

  /** A failure with status 401, 429 or 402 ends the call on that attempt with
      its own error, whatever its text says, and without a further wait. */
  lemma SpecialStatusEndsCall<T>(answer: nat -> Outcome<T>, k: nat, message: string, code: int)
    requires code == 401 || code == 429 || code == 402
    requires k < MaxRetries && answer(k) == Failure(message, Some(code))
    requires forall j :: 0 <= j < k ==> RetryableFailure(answer(j))
    ensures Expected(answer).calls == k + 1
    ensures Expected(answer).waits == Backoffs(k)
    ensures Expected(answer).result
         == Err(if code == 401 then InvalidApiKey else if code == 429 then RateLimited else QuotaExceeded)
  {
  }

  /** A failure that is neither special nor retryable is raised again unchanged
      on that attempt, with no further attempt. */
  lemma NonRetryableReraised<T>(answer: nat -> Outcome<T>, k: nat, message: string, status: Option<int>)
    requires k < MaxRetries && answer(k) == Failure(message, status)
    requires StatusError(status).None? && !IsRetryable(message, status)
    requires forall j :: 0 <= j < k ==> RetryableFailure(answer(j))
    ensures Expected(answer) == Run(Err(NotRetryable(message, status)), Backoffs(k), k + 1)
  {
  }

  /** Three retryable failures in a row exhaust the retries: three calls, waits
      of 1000 ms and 2000 ms, and the "failed after 3 attempts" error. */
  lemma ExhaustedAfterMaxRetries<T>(answer: nat -> Outcome<T>)
    requires forall j :: 0 <= j < MaxRetries ==> RetryableFailure(answer(j))
    ensures Expected(answer) == Run(Err(RetriesExhausted), [1000, 2000], MaxRetries)
  {
    BackoffsUpToLast();
    assert RetryableFailure(answer(2));
  }
}
