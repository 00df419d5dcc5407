/**
 The retry loop of the HTTP client (packages/core/src/api/http-client.ts:145-313), against an arbitrary sequence of
 outcomes of `fetch` and of random jitters.
 */
module HttpRetry {
  import opened Powers

  /** What was thrown: an error that is already normalised, one of the two retryable ones, another one, or no Error. */
  datatype Thrown = ApiError | TypeError | AbortError | OtherError | NoError

  /** A rejected fetch, or a response whose body can be read or throws when it is read. */
  datatype Outcome = Rejected(error: Thrown) | Responded(status: nat, body: Body)

  datatype Body = Readable | Unreadable(error: Thrown)

  datatype Result =
    | Success
    | Failed(status: nat)
    | Rethrown
    | TimedOut
    | NetworkError
    | UnknownError
    | Exhausted

  datatype RetryOptions = RetryOptions(count: int, baseMs: nat, jitterMs: nat)

  predicate IsSuccess(status: nat) {
    status == 200 || status == 202
  }

  predicate IsServerError(status: nat) {
    500 <= status < 600
  }

  predicate IsRetryableError(error: Thrown) {
    error.TypeError? || error.AbortError?
  }

  /** Another attempt follows such an outcome, if there is one left. */
  predicate IsRetryable(o: Outcome) {
    match o
    case Rejected(error) => IsRetryableError(error)
    case Responded(status, Readable) => IsServerError(status)
    case Responded(status, Unreadable(error)) => IsServerError(status) || IsRetryableError(error)
  }

  function Surfaced(error: Thrown): Result {
    match error
    case ApiError => Rethrown
    case AbortError => TimedOut
    case NoError => UnknownError
    case _ => NetworkError
  }

  /** What the caller sees when this outcome is the last. */
  function Final(o: Outcome): Result {
    match o
    case Rejected(error) => Surfaced(error)
    case Responded(status, Readable) => if IsSuccess(status) then Success else Failed(status)
    case Responded(_, Unreadable(error)) => Surfaced(error)
  }

  function ComputeBackoffMs(attempt: nat, retries: RetryOptions, jitter: nat): nat {
    retries.baseMs * Pow2(attempt) + jitter
  }

  /** The time slept before attempt `n`. */
  function Slept(n: nat, retries: RetryOptions, jitters: nat -> nat): nat {
    if n == 0 then 0 else Slept(n - 1, retries, jitters) + ComputeBackoffMs(n - 1, retries, jitters(n - 1))
  }

  function JitterSum(n: nat, jitters: nat -> nat): nat {
    if n == 0 then 0 else JitterSum(n - 1, jitters) + jitters(n - 1)
  }

  /** `Math.floor(random() * jitterMs)` */
  ghost predicate AreJitters(jitters: nat -> nat, retries: RetryOptions) {
    forall i :: jitters(i) <= retries.jitterMs
  }

  method Request(retries: RetryOptions, outcomes: nat -> Outcome, jitters: nat -> nat)
    returns (result: Result, fetches: nat, slept: nat)
    ensures (result.Exhausted? <==> retries.count < 0) && (fetches == 0 <==> retries.count < 0)
    ensures retries.count >= 0 ==> 1 <= fetches <= retries.count + 1 && result == Final(outcomes(fetches - 1))
    ensures forall i :: 0 <= i < fetches - 1 ==> IsRetryable(outcomes(i))
    ensures 0 < fetches <= retries.count ==> !IsRetryable(outcomes(fetches - 1))
    ensures slept == if fetches == 0 then 0 else Slept(fetches - 1, retries, jitters)
    ensures retries.count >= 0 ==>
      (result.Success? <==> outcomes(fetches - 1) in {Responded(200, Readable), Responded(202, Readable)})
    ensures retries.count >= 0 && outcomes(fetches - 1).Responded? && 500 <= outcomes(fetches - 1).status <= 599 ==>
      fetches == retries.count + 1
    ensures forall i :: 0 <= i < fetches - 1 && outcomes(i).Responded? && outcomes(i).body.Readable? ==>
      500 <= outcomes(i).status <= 599
    ensures retries.count >= 0 && outcomes(fetches - 1).Responded? && outcomes(fetches - 1).body.Readable? ==>
      result in {Success, Failed(outcomes(fetches - 1).status)}
    ensures retries.count >= 0 && outcomes(fetches - 1).Rejected? ==>
      result == match outcomes(fetches - 1).error
        case ApiError => Rethrown
        case AbortError => TimedOut
        case NoError => UnknownError
        case _ => NetworkError
    ensures forall i :: 0 <= i < fetches - 1 && outcomes(i).Rejected? ==> outcomes(i).error in {TypeError, AbortError}
    ensures 0 < fetches <= retries.count && outcomes(fetches - 1).Rejected? ==>
      outcomes(fetches - 1).error !in {TypeError, AbortError}
    ensures fetches > 0 ==>
      slept == retries.baseMs * (Pow2(fetches - 1) - 1) + JitterSum(fetches - 1, jitters)
    ensures AreJitters(jitters, retries) && retries.count >= 0 ==>
      slept <= retries.baseMs * (Pow2(retries.count) - 1) + retries.count * retries.jitterMs
  {
    var maxAttempts := retries.count + 1;
    fetches, slept := 0, 0;
    var attempt := 0;
    while attempt < maxAttempts
      invariant 0 <= attempt && fetches == attempt && (attempt == 0 || attempt < maxAttempts)
      invariant forall i :: 0 <= i < attempt ==> IsRetryable(outcomes(i))
      invariant slept == Slept(attempt, retries, jitters)
    {
      var o := outcomes(attempt);
      fetches := fetches + 1;
      var delay := ComputeBackoffMs(attempt, retries, jitters(attempt));
      var thrown: Thrown;
      if o.Responded? && !IsSuccess(o.status) && IsServerError(o.status) && attempt < maxAttempts - 1 {
        slept := slept + delay;
        attempt := attempt + 1;
        continue;
      } else if o.Responded? && o.body.Readable? {
        result := if IsSuccess(o.status) then Success else Failed(o.status);
        SleptBound(attempt, retries, jitters);
        SleptExactly(attempt, retries, jitters);
        return;
      } else {
        thrown := if o.Responded? then o.body.error else o.error;
      }
      if thrown.ApiError? {
        result := Rethrown;
        SleptBound(attempt, retries, jitters);
        SleptExactly(attempt, retries, jitters);
        return;
      }
      if attempt < maxAttempts - 1 && IsRetryableError(thrown) {
        slept := slept + delay;
        attempt := attempt + 1;
        continue;
      }
      result := if thrown.AbortError? then TimedOut else if thrown.NoError? then UnknownError else NetworkError;
      SleptBound(attempt, retries, jitters);
      SleptExactly(attempt, retries, jitters);
      return;
    }
    result := Exhausted;
  }

  /** One more sleep of at most `base * p + jitter` on top of `n` sleeps. */
  lemma OneMoreSleep(base: nat, jitter: nat, p: nat, n: nat)
    requires p >= 1
    ensures base * (2 * p - 1) + (n + 1) * jitter == base * (p - 1) + n * jitter + (base * p + jitter)
  {
  }

  lemma {:induction false} SleptWithin(n: nat, retries: RetryOptions, jitters: nat -> nat)
    requires AreJitters(jitters, retries)
    ensures Slept(n, retries, jitters) <= retries.baseMs * (Pow2(n) - 1) + n * retries.jitterMs
  {
    if n > 0 {
      SleptWithin(n - 1, retries, jitters);
      OneMoreSleep(retries.baseMs, retries.jitterMs, Pow2(n - 1), n - 1);
    }
  }

  /** The base delay doubles with every retry, and the jitters come on top. */
  lemma {:induction false} SleptExactly(n: nat, retries: RetryOptions, jitters: nat -> nat)
    ensures Slept(n, retries, jitters) == retries.baseMs * (Pow2(n) - 1) + JitterSum(n, jitters)
  {
    if n > 0 {
      SleptExactly(n - 1, retries, jitters);
      OneMoreSleep(retries.baseMs, 0, Pow2(n - 1), n - 1);
    }
  }

  lemma {:induction false} SleptGrows(m: nat, n: nat, retries: RetryOptions, jitters: nat -> nat)
    requires m <= n
    ensures Slept(m, retries, jitters) <= Slept(n, retries, jitters)
    decreases n
  {
    if m < n {
      SleptGrows(m, n - 1, retries, jitters);
    }
  }

  /** The bound on the time slept, whenever the loop ends. */
  lemma SleptBound(attempt: nat, retries: RetryOptions, jitters: nat -> nat)
    requires attempt <= retries.count
    ensures AreJitters(jitters, retries) ==>
      Slept(attempt, retries, jitters) <= retries.baseMs * (Pow2(retries.count) - 1) + retries.count * retries.jitterMs
  {
    if AreJitters(jitters, retries) {
      SleptGrows(attempt, retries.count, retries, jitters);
      SleptWithin(retries.count, retries, jitters);
    }
  }
}
