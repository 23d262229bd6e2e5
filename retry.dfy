/**
 * The `_retry_operation` policy shared by the folder creator, the content creator and the
 * content updater. A rate-limited attempt (429, 503, 504) always sleeps and tries
 * again, even after the last attempt, so a run of rate limits ends in Python's implicit
 * `None`; a client error (400, 401, 403, 404, 405) is raised at once; any other error
 * sleeps and tries again unless it was the last attempt, which raises it. The copies differ
 * only in how long they sleep, which `Waits` says.
 */
module Retry {
  /** Why one attempt failed: an HTTP error with its status, or any other exception. */
  datatype Failure = HttpStatus(status: int) | OtherError

  datatype Attempt<T> = Ok(value: T) | Fail(failure: Failure)

  /** How `_retry_operation` ends: a value, the implicit `None` after the loop, or a raise. */
  datatype Retried<T> = Returned(value: T) | ReturnedNone | Raised(failure: Failure)

  /** The end of a retry run, the number of attempts made and the sleeps between them, in seconds. */
  datatype RetryRun<T> = RetryRun(result: Retried<T>, attempts: nat, backoffs: seq<nat>)

  /** The sleep after a failed attempt `k`: one schedule for rate limits, one for the rest. */
  datatype Waits = Waits(rateLimited: nat -> nat, other: nat -> nat)

  const RateLimited: set<int> := {429, 503, 504}
  const ClientErrors: set<int> := {400, 401, 403, 404, 405}

  predicate RateLimitedFailure(f: Failure) { f.HttpStatus? && f.status in RateLimited }
  predicate ClientFailure(f: Failure) { f.HttpStatus? && f.status in ClientErrors }

  function Pow2(k: nat): nat
  {
    if k == 0 then 1 else 2 * Pow2(k - 1)
  }

  /** The folder creator sleeps `2**k` seconds after attempt `k`, whatever the error. */
  const Exponential: Waits := Waits(Pow2, Pow2)

  /**
   * The content creator and the content updater sleep `2 * (k + 1)` seconds after a rate
   * limit and `k + 1` seconds after any other error.
   */
  const Linear: Waits := Waits((k: nat) => 2 * (k + 1), (k: nat) => k + 1)

  /** The sleep that follows the failure `f` of attempt `k`. */
  function WaitAfter(waits: Waits, f: Failure, k: nat): nat
  {
    if RateLimitedFailure(f) then waits.rateLimited(k) else waits.other(k)
  }

  /** `run` preceded by the sleeps `pre`. */
  function AfterSleeps<T>(pre: seq<nat>, run: RetryRun<T>): RetryRun<T>
  {
    run.(backoffs := pre + run.backoffs)
  }

  /** `_retry_operation` from attempt `k` on; `attempt(k)` is what the k-th call of the operation does. */
  function RetryFrom<T>(attempt: nat -> Attempt<T>, maxRetries: nat, waits: Waits, k: nat): RetryRun<T>
    decreases maxRetries - k
  {
    if k >= maxRetries then RetryRun(ReturnedNone, k, [])
    else match attempt(k)
      case Ok(v) => RetryRun(Returned(v), k + 1, [])
      case Fail(f) =>
        if RateLimitedFailure(f) then AfterSleeps([WaitAfter(waits, f, k)], RetryFrom(attempt, maxRetries, waits, k + 1))
        else if ClientFailure(f) then RetryRun(Raised(f), k + 1, [])
        else if k + 1 < maxRetries then AfterSleeps([WaitAfter(waits, f, k)], RetryFrom(attempt, maxRetries, waits, k + 1))
        else RetryRun(Raised(f), k + 1, [])
  }

  /** Attempt `i` failed and `s` is the schedule's wait for that failure. */
  predicate SleepFollows<T>(attempt: nat -> Attempt<T>, waits: Waits, i: nat, s: nat)
  {
    attempt(i).Fail? && s == WaitAfter(waits, attempt(i).failure, i)
  }

  /** Every attempt from `k` up to (not including) `j` failed with an error that is not a client error. */
  predicate FailedBefore<T>(attempt: nat -> Attempt<T>, k: nat, j: nat)
  {
    forall i :: k <= i < j ==> attempt(i).Fail? && !ClientFailure(attempt(i).failure)
  }

  /**
   * What a run promises: at most `maxRetries` attempts; the sleep before retry `j` is the
   * schedule's wait for the failure that preceded it; every attempt but the last failed
   * with a retryable error; a value is the last attempt's; a raise is the last attempt's
   * error, which is a client error or an error on the final attempt; the implicit `None`
   * comes only after all attempts, the last of them rate-limited.
   */
  lemma {:induction false} RetryRunShape<T>(attempt: nat -> Attempt<T>, maxRetries: nat, waits: Waits, k: nat)
    requires k <= maxRetries
    ensures var r := RetryFrom(attempt, maxRetries, waits, k);
      k <= r.attempts <= maxRetries && (k < maxRetries ==> k < r.attempts)
    ensures var r := RetryFrom(attempt, maxRetries, waits, k);
      && |r.backoffs| <= r.attempts - k
      && forall j :: 0 <= j < |r.backoffs| ==> SleepFollows(attempt, waits, k + j, r.backoffs[j])
    ensures var r := RetryFrom(attempt, maxRetries, waits, k);
      k < r.attempts ==> FailedBefore(attempt, k, r.attempts - 1)
    ensures var r := RetryFrom(attempt, maxRetries, waits, k);
      r.result.Returned? ==> k < r.attempts && attempt(r.attempts - 1) == Ok(r.result.value)
    ensures var r := RetryFrom(attempt, maxRetries, waits, k);
      r.result.Raised? ==> (k < r.attempts && attempt(r.attempts - 1) == Fail(r.result.failure) &&
        (ClientFailure(r.result.failure) ||
         (r.attempts == maxRetries && !RateLimitedFailure(r.result.failure))))
    ensures var r := RetryFrom(attempt, maxRetries, waits, k);
      r.result.ReturnedNone? ==> (r.attempts == maxRetries && |r.backoffs| == maxRetries - k &&
        (k < maxRetries ==> attempt(maxRetries - 1).Fail? && RateLimitedFailure(attempt(maxRetries - 1).failure)))
    decreases maxRetries - k
  {
    if k < maxRetries && attempt(k).Fail? {
      var f := attempt(k).failure;
      if RateLimitedFailure(f) || (!ClientFailure(f) && k + 1 < maxRetries) {
        RetryRunShape(attempt, maxRetries, waits, k + 1);
        var rest := RetryFrom(attempt, maxRetries, waits, k + 1);
        var r := RetryFrom(attempt, maxRetries, waits, k);
        assert r == AfterSleeps([WaitAfter(waits, f, k)], rest);
        forall j | 0 <= j < |r.backoffs|
          ensures SleepFollows(attempt, waits, k + j, r.backoffs[j])
        {
          if j > 0 {
            assert r.backoffs[j] == rest.backoffs[j - 1];
            assert k + 1 + (j - 1) == k + j;
          }
        }
      } else {
        assert RetryFrom(attempt, maxRetries, waits, k).backoffs == [];
      }
    }
  }

  /** A run in which every attempt is rate-limited sleeps `maxRetries` times and returns `None`. */
  lemma RetryAllRateLimited<T>(attempt: nat -> Attempt<T>, maxRetries: nat, waits: Waits)
    requires forall j :: 0 <= j < maxRetries ==> attempt(j).Fail? && RateLimitedFailure(attempt(j).failure)
    ensures RetryFrom(attempt, maxRetries, waits, 0).result == ReturnedNone
    ensures RetryFrom(attempt, maxRetries, waits, 0).attempts == maxRetries
    ensures |RetryFrom(attempt, maxRetries, waits, 0).backoffs| == maxRetries
  {
    RetryRunShape(attempt, maxRetries, waits, 0);
  }

  /**
   * A run ends in the implicit `None` exactly when its last attempt was rate-limited and
   * every earlier one failed without a client error.
   */
  lemma {:induction false} RetryNoneExactly<T>(attempt: nat -> Attempt<T>, maxRetries: nat, waits: Waits, k: nat)
    requires k < maxRetries
    ensures RetryFrom(attempt, maxRetries, waits, k).result.ReturnedNone? <==>
      && FailedBefore(attempt, k, maxRetries - 1)
      && attempt(maxRetries - 1).Fail? && RateLimitedFailure(attempt(maxRetries - 1).failure)
    decreases maxRetries - k
  {
    RetryRunShape(attempt, maxRetries, waits, k);
    if k + 1 < maxRetries {
      RetryNoneExactly(attempt, maxRetries, waits, k + 1);
    }
  }

  /** A client error (400, 401, 403, 404, 405) is raised at once: no further attempt is made. */
  lemma {:induction false} RetryClientErrorStops<T>(attempt: nat -> Attempt<T>, maxRetries: nat, waits: Waits, k: nat, j: nat)
    requires k <= j < maxRetries
    requires FailedBefore(attempt, k, j)
    requires attempt(j).Fail? && ClientFailure(attempt(j).failure)
    ensures RetryFrom(attempt, maxRetries, waits, k).result == Raised(attempt(j).failure)
    ensures RetryFrom(attempt, maxRetries, waits, k).attempts == j + 1
    decreases j - k
  {
    if k < j {
      RetryClientErrorStops(attempt, maxRetries, waits, k + 1, j);
    }
  }

  /** The first successful attempt ends the run with its value. */
  lemma {:induction false} RetryFirstSuccess<T>(attempt: nat -> Attempt<T>, maxRetries: nat, waits: Waits, k: nat, j: nat)
    requires k <= j < maxRetries
    requires forall i :: k <= i < j ==> attempt(i).Fail? && RateLimitedFailure(attempt(i).failure)
    requires attempt(j).Ok?
    ensures RetryFrom(attempt, maxRetries, waits, k).result == Returned(attempt(j).value)
    ensures RetryFrom(attempt, maxRetries, waits, k).attempts == j + 1
    decreases j - k
  {
    if k < j {
      RetryFirstSuccess(attempt, maxRetries, waits, k + 1, j);
    }
  }

  /**
   * With the linear schedule, three rate-limited attempts sleep 2, 4 and 6 seconds and end
   * in `None`, while three other errors sleep 1 and 2 seconds and raise the third.
   */
  lemma LinearSchedule<T>(attempt: nat -> Attempt<T>)
    ensures (forall j :: 0 <= j < 3 ==> attempt(j).Fail? && RateLimitedFailure(attempt(j).failure)) ==>
      RetryFrom(attempt, 3, Linear, 0) == RetryRun(ReturnedNone, 3, [2, 4, 6])
    ensures (forall j :: 0 <= j < 3 ==> attempt(j) == Fail(OtherError)) ==>
      RetryFrom(attempt, 3, Linear, 0) == RetryRun(Raised(OtherError), 3, [1, 2])
  {
    if forall j :: 0 <= j < 3 ==> attempt(j).Fail? && RateLimitedFailure(attempt(j).failure) {
      assert attempt(0).Fail? && attempt(1).Fail? && attempt(2).Fail?;
      assert RetryFrom(attempt, 3, Linear, 2) == RetryRun(ReturnedNone, 3, [6]);
      assert RetryFrom(attempt, 3, Linear, 1) == RetryRun(ReturnedNone, 3, [4, 6]);
    }
    if forall j :: 0 <= j < 3 ==> attempt(j) == Fail(OtherError) {
      assert attempt(0) == Fail(OtherError) && attempt(1) == Fail(OtherError) && attempt(2) == Fail(OtherError);
      assert RetryFrom(attempt, 3, Linear, 1) == RetryRun(Raised(OtherError), 3, [2]);
    }
  }

  /** One retry of the loop: the sleep after attempt `k` joins the sleeps already made. */
  lemma SleepStep<T>(attempt: nat -> Attempt<T>, maxRetries: nat, waits: Waits, k: nat, pre: seq<nat>)
    requires k < maxRetries && attempt(k).Fail?
    requires RateLimitedFailure(attempt(k).failure) || (!ClientFailure(attempt(k).failure) && k + 1 < maxRetries)
    ensures AfterSleeps(pre, RetryFrom(attempt, maxRetries, waits, k))
         == AfterSleeps(pre + [WaitAfter(waits, attempt(k).failure, k)], RetryFrom(attempt, maxRetries, waits, k + 1))
  {
    var rest := RetryFrom(attempt, maxRetries, waits, k + 1);
    assert (pre + [WaitAfter(waits, attempt(k).failure, k)]) + rest.backoffs
        == pre + ([WaitAfter(waits, attempt(k).failure, k)] + rest.backoffs);
  }

  /** `_retry_operation`: the attempt loop. */
  method RetryOperation<T>(attempt: nat -> Attempt<T>, maxRetries: nat, waits: Waits) returns (run: RetryRun<T>)
    ensures run == RetryFrom(attempt, maxRetries, waits, 0)
  {
    var backoffs: seq<nat> := [];
    for k := 0 to maxRetries
      invariant RetryFrom(attempt, maxRetries, waits, 0) == AfterSleeps(backoffs, RetryFrom(attempt, maxRetries, waits, k))
    {
      var outcome := attempt(k);
      if outcome.Ok? {
        return RetryRun(Returned(outcome.value), k + 1, backoffs);
      }
      var f := outcome.failure;
      if RateLimitedFailure(f) {
        SleepStep(attempt, maxRetries, waits, k, backoffs);
        backoffs := backoffs + [waits.rateLimited(k)];
        continue;
      } else if ClientFailure(f) {
        return RetryRun(Raised(f), k + 1, backoffs);
      }
      if k < maxRetries - 1 {
        SleepStep(attempt, maxRetries, waits, k, backoffs);
        backoffs := backoffs + [waits.other(k)];
        continue;
      }
      return RetryRun(Raised(f), k + 1, backoffs);
    }
    run := RetryRun(ReturnedNone, maxRetries, backoffs);
  }
}
