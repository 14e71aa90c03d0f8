/** The bounded retry loop around Telegram API calls: flood-control errors
    wait the delay the server asks for, network and server errors back off
    exponentially, anything else propagates at once. */
module TelegramRetry {
  import opened Common

  /** What one call of the operation did. */
  datatype CallOutcome<T> =
    | Returned(value: T)
    /** Flood control, with the server's `retry_after` in seconds, if any. */
    | RetryAfter(retryAfter: Option<int>)
    | NetworkError
    | ServerError
    /** Any exception the loop does not catch. */
    | OtherError(name: string)

  /** How the loop ends: with the operation's value, by letting an error
      through, or with the "unreachable retry state" error when no attempt
      was made at all. */
  datatype RetryResult<T> = Value(value: T) | Raised(error: CallOutcome<T>) | Unreachable

  const DEFAULT_ATTEMPTS: int := 3
  const DEFAULT_BASE_DELAY_SECONDS: int := 1

  /** The errors the loop retries. */
  predicate Retryable<T>(o: CallOutcome<T>) {
    o.RetryAfter? || o.NetworkError? || o.ServerError?
  }

  function Pow2(n: nat): (p: nat)
    ensures p >= 1
  {
    if n == 0 then 1 else 2 * Pow2(n - 1)
  }

  /** The sleep after a retryable error on attempt `attempt` (1-based): the
      server's delay, or the base delay when it gave 0 or none; or the base
      delay doubled once per earlier attempt. */
  function RetryDelay<T>(o: CallOutcome<T>, attempt: nat, baseDelaySeconds: int): (d: int)
    requires attempt >= 1 && Retryable(o)
    ensures o.RetryAfter? && o.retryAfter.Some? && o.retryAfter.value != 0 ==> d == o.retryAfter.value
    ensures o.RetryAfter? && (o.retryAfter.None? || o.retryAfter.value == 0) ==> d == baseDelaySeconds
    ensures !o.RetryAfter? ==> d == baseDelaySeconds * Pow2(attempt - 1)
  {
    if o.RetryAfter? then
      if o.retryAfter.None? || o.retryAfter.value == 0 then baseDelaySeconds else o.retryAfter.value
    else baseDelaySeconds * Pow2(attempt - 1)
  }

  /** The loop from attempt `attempt` on, as a function of the script: the
      result and the sleeps taken. */
  function Retry<T>(script: nat -> CallOutcome<T>, attempt: nat, attempts: int, baseDelaySeconds: int): (RetryResult<T>, seq<int>)
    requires attempt >= 1
    decreases if attempt <= attempts then attempts - attempt + 1 else 0
  {
    if attempt > attempts then (Unreachable, [])
    else
      var o := script(attempt);
      if o.Returned? then (Value(o.value), [])
      else if !Retryable(o) || attempt >= attempts then (Raised(o), [])
      else
        var rest := Retry(script, attempt + 1, attempts, baseDelaySeconds);
        (rest.0, [RetryDelay(o, attempt, baseDelaySeconds)] + rest.1)
  }

  /** Runs the operation; `script(k)` is what its `k`-th call does. Returns
      the result, the sleeps taken in order, and the number of calls made. */
  method RunWithRetry<T>(script: nat -> CallOutcome<T>, attempts: int, baseDelaySeconds: int)
    returns (result: RetryResult<T>, sleeps: seq<int>, calls: nat)
    ensures (result, sleeps) == Retry(script, 1, attempts, baseDelaySeconds)
    ensures calls == if attempts < 1 then 0 else |sleeps| + 1
  {
    sleeps := [];
    calls := 0;
    var attempt := 1;
    assert sleeps + Retry(script, 1, attempts, baseDelaySeconds).1 == Retry(script, 1, attempts, baseDelaySeconds).1;
    while attempt <= attempts
      invariant 1 <= attempt && calls == attempt - 1 && |sleeps| == attempt - 1
      invariant attempts < 1 ==> attempt == 1
      invariant attempts >= 1 ==> attempt <= attempts
      invariant var rest := Retry(script, attempt, attempts, baseDelaySeconds);
                Retry(script, 1, attempts, baseDelaySeconds) == (rest.0, sleeps + rest.1)
      decreases attempts - attempt
    {
      var outcome := script(attempt);
      calls := calls + 1;
      ghost var next := Retry(script, attempt + 1, attempts, baseDelaySeconds);
      match outcome {
        case Returned(v) =>
          assert sleeps + [] == sleeps;
          return Value(v), sleeps, calls;
        case RetryAfter(retryAfter) =>
          if attempt >= attempts {
            assert sleeps + [] == sleeps;
            return Raised(outcome), sleeps, calls;
          }
          var delay := if retryAfter.None? || retryAfter.value == 0 then baseDelaySeconds else retryAfter.value;
          assert sleeps + ([delay] + next.1) == (sleeps + [delay]) + next.1;
          sleeps := sleeps + [delay];
        case NetworkError =>
          if attempt >= attempts {
            assert sleeps + [] == sleeps;
            return Raised(outcome), sleeps, calls;
          }
          assert sleeps + ([baseDelaySeconds * Pow2(attempt - 1)] + next.1) == (sleeps + [baseDelaySeconds * Pow2(attempt - 1)]) + next.1;
          sleeps := sleeps + [baseDelaySeconds * Pow2(attempt - 1)];
        case ServerError =>
          if attempt >= attempts {
            assert sleeps + [] == sleeps;
            return Raised(outcome), sleeps, calls;
          }
          assert sleeps + ([baseDelaySeconds * Pow2(attempt - 1)] + next.1) == (sleeps + [baseDelaySeconds * Pow2(attempt - 1)]) + next.1;
          sleeps := sleeps + [baseDelaySeconds * Pow2(attempt - 1)];
        case OtherError(_) =>
          assert sleeps + [] == sleeps;
          return Raised(outcome), sleeps, calls;
      }
      attempt := attempt + 1;
    }
    assert sleeps == [];
    result := Unreachable;
  }

  /** From attempt `attempt` on, at most one call per remaining attempt, and
      "unreachable" exactly when there is no attempt left to make. */
  lemma {:induction false} RetryCallsBounded<T>(script: nat -> CallOutcome<T>, attempt: nat, attempts: int, baseDelaySeconds: int)
    requires attempt >= 1
    decreases if attempt <= attempts then attempts - attempt + 1 else 0
    ensures var run := Retry(script, attempt, attempts, baseDelaySeconds);
      && (run.0.Unreachable? <==> attempt > attempts)
      && (run.0.Unreachable? ==> run.1 == [])
      && (attempt <= attempts ==> attempt + |run.1| <= attempts)
  {
    if attempt <= attempts {
      var o := script(attempt);
      if !o.Returned? && Retryable(o) && attempt < attempts {
        RetryCallsBounded(script, attempt + 1, attempts, baseDelaySeconds);
      }
    }
  }

  /** The first sleep follows a retryable error on attempt `attempt` and
      lasts that error's delay, the next one an error on the attempt after,
      and so on. */
  ghost predicate SleepsFollowErrors<T>(script: nat -> CallOutcome<T>, attempt: nat, baseDelaySeconds: int, sleeps: seq<int>)
    requires attempt >= 1
    decreases |sleeps|
  {
    sleeps == [] ||
    (Retryable(script(attempt)) && sleeps[0] == RetryDelay(script(attempt), attempt, baseDelaySeconds)
     && SleepsFollowErrors(script, attempt + 1, baseDelaySeconds, sleeps[1..]))
  }

  /** The same, sleep by sleep: sleep `i` follows the error on attempt
      `attempt + i`. */
  lemma {:induction false} SleepAt<T>(script: nat -> CallOutcome<T>, attempt: nat, baseDelaySeconds: int, sleeps: seq<int>, i: nat)
    requires attempt >= 1 && SleepsFollowErrors(script, attempt, baseDelaySeconds, sleeps) && i < |sleeps|
    decreases i
    ensures Retryable(script(attempt + i)) && sleeps[i] == RetryDelay(script(attempt + i), attempt + i, baseDelaySeconds)
  {
    if i > 0 {
      SleepAt(script, attempt + 1, baseDelaySeconds, sleeps[1..], i - 1);
      assert attempt + 1 + (i - 1) == attempt + i;
    }
  }

  /** Every sleep follows a retryable error on the matching attempt and lasts
      that error's delay. */
  lemma {:induction false} RetrySleepsFollowErrors<T>(script: nat -> CallOutcome<T>, attempt: nat, attempts: int, baseDelaySeconds: int)
    requires attempt >= 1
    decreases if attempt <= attempts then attempts - attempt + 1 else 0
    ensures SleepsFollowErrors(script, attempt, baseDelaySeconds, Retry(script, attempt, attempts, baseDelaySeconds).1)
  {
    if attempt <= attempts {
      var o := script(attempt);
      if !o.Returned? && Retryable(o) && attempt < attempts {
        RetrySleepsFollowErrors(script, attempt + 1, attempts, baseDelaySeconds);
        var rest := Retry(script, attempt + 1, attempts, baseDelaySeconds).1;
        assert ([RetryDelay(o, attempt, baseDelaySeconds)] + rest)[1..] == rest;
      }
    }
  }

  /** A value is what the call after the last sleep returned; an error that
      escapes is what that call raised, and is either not retryable or came
      on the last attempt. */
  lemma {:induction false} RetryEndsOnLastCall<T>(script: nat -> CallOutcome<T>, attempt: nat, attempts: int, baseDelaySeconds: int)
    requires attempt >= 1
    decreases if attempt <= attempts then attempts - attempt + 1 else 0
    ensures var run := Retry(script, attempt, attempts, baseDelaySeconds);
      && (run.0.Value? ==> script(attempt + |run.1|) == Returned(run.0.value))
      && (run.0.Raised? ==> run.0.error == script(attempt + |run.1|) && !run.0.error.Returned?
                            && (!Retryable(run.0.error) || attempt + |run.1| == attempts))
  {
    if attempt <= attempts {
      var o := script(attempt);
      if !o.Returned? && Retryable(o) && attempt < attempts {
        RetryEndsOnLastCall(script, attempt + 1, attempts, baseDelaySeconds);
        var rest := Retry(script, attempt + 1, attempts, baseDelaySeconds);
        assert attempt + |Retry(script, attempt, attempts, baseDelaySeconds).1| == (attempt + 1) + |rest.1|;
      }
    }
  }

  /** A success on the first call returns at once: no sleep, one call. */
  lemma FirstSuccessReturnsAtOnce<T>(script: nat -> CallOutcome<T>, attempts: int, baseDelaySeconds: int)
    requires attempts >= 1 && script(1).Returned?
    ensures Retry(script, 1, attempts, baseDelaySeconds) == (Value(script(1).value), [])
  {
  }

  /** An error the loop does not catch escapes from the first call, with no sleep. */
  lemma OtherErrorPropagates<T>(script: nat -> CallOutcome<T>, attempts: int, baseDelaySeconds: int)
    requires attempts >= 1 && script(1).OtherError?
    ensures Retry(script, 1, attempts, baseDelaySeconds) == (Raised(script(1)), [])
  {
  }

  /** With no attempt allowed, nothing is called and the loop ends "unreachable". */
  lemma NoAttemptsIsUnreachable<T>(script: nat -> CallOutcome<T>, attempts: int, baseDelaySeconds: int)
    requires attempts < 1
    ensures Retry(script, 1, attempts, baseDelaySeconds) == (Unreachable, [])
  {
  }

  /** The backoff sequence `base, 2 base, 4 base, ...` for attempts
      `attempt` to `attempts - 1`. */
  function Backoff(attempt: nat, attempts: int, baseDelaySeconds: int): (s: seq<int>)
    requires attempt >= 1
    decreases if attempt < attempts then attempts - attempt else 0
    ensures attempt < attempts ==> |s| == attempts - attempt
    ensures forall i :: 0 <= i < |s| ==> s[i] == baseDelaySeconds * Pow2(attempt + i - 1)
  {
    if attempt >= attempts then []
    else [baseDelaySeconds * Pow2(attempt - 1)] + Backoff(attempt + 1, attempts, baseDelaySeconds)
  }

  /** Network errors on every call: one sleep per attempt but the last,
      doubling each time, then the last error escapes. */
  lemma {:induction false} PersistentNetworkErrorBacksOff<T>(script: nat -> CallOutcome<T>, attempt: nat, attempts: int, baseDelaySeconds: int)
    requires 1 <= attempt <= attempts
    requires forall k :: script(k) == NetworkError
    decreases attempts - attempt
    ensures Retry(script, attempt, attempts, baseDelaySeconds) == (Raised(NetworkError), Backoff(attempt, attempts, baseDelaySeconds))
  {
    if attempt < attempts {
      PersistentNetworkErrorBacksOff(script, attempt + 1, attempts, baseDelaySeconds);
    }
  }

  /** With the defaults (3 attempts, base 1 second) the sleeps are 1 then 2. */
  lemma DefaultBackoffIsOneThenTwo<T>(script: nat -> CallOutcome<T>)
    requires forall k :: script(k) == NetworkError
    ensures Retry(script, 1, DEFAULT_ATTEMPTS, DEFAULT_BASE_DELAY_SECONDS) == (Raised(NetworkError), [1, 2])
  {
    PersistentNetworkErrorBacksOff(script, 1, DEFAULT_ATTEMPTS, DEFAULT_BASE_DELAY_SECONDS);
    var b := Backoff(1, 3, 1);
    assert |b| == 2 && b[0] == 1 * Pow2(0) && b[1] == 1 * Pow2(1);
    assert Pow2(1) == 2;
    assert b == [1, 2];
  }
}
