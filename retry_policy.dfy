/** The retry contract both order repositories configure with Polly:
    `Policy.Handle<DbException>().WaitAndRetryAsync(retryCount, sleep, onRetry)`
    (or `RetryAsync(retryCount, onRetry)`), stated over the outcome of each
    attempt of the wrapped work. */
module RetryPolicies {

  import opened Wrappers
  import opened Exceptions

  /** The sleep duration provider, in whole seconds. */
  datatype Backoff =
      /** `RetryAsync`: no sleep between attempts. */
    | NoWait
      /** `_ => TimeSpan.FromSeconds(seconds)`. */
    | Constant(seconds: nat)
      /** `retryAttempt => TimeSpan.FromSeconds(Math.Pow(2, retryAttempt))`. */
    | Exponential

  datatype RetryPolicy = RetryPolicy(retryCount: nat, backoff: Backoff)

  /** The policy both repositories build for themselves: three retries,
      sleeping 2^k seconds before retry k. */
  const DefaultPolicy: RetryPolicy := RetryPolicy(3, Exponential)

  function Pow2(k: nat): (r: nat)
    ensures r >= 1
  {
    if k == 0 then 1 else 2 * Pow2(k - 1)
  }

  /** The sleep before retry number `retryAttempt` (counted from 1). */
  function SleepDuration(b: Backoff, retryAttempt: nat): (d: nat)
    ensures b.Exponential? ==> d >= 1
    ensures b.Exponential? && retryAttempt > 0 ==> d == 2 * SleepDuration(b, retryAttempt - 1)
  {
    match b
    case NoWait => 0
    case Constant(s) => s
    case Exponential => Pow2(retryAttempt)
  }

  /** `Handle<DbException>()`: the only exceptions the policy retries. */
  function Handles(e: Exception): (b: bool)
    ensures e.DbException? ==> b
    ensures e.InvalidOperationException? || e.ArgumentException? || e.ArgumentNullException? ==> !b
    ensures e.OtherException? || e.ProductNotFoundException? ==> !b
  {
    e.DbException?
  }

  /** The arguments of one `onRetry` call: the exception, the sleep that
      follows, and the retry number. */
  datatype RetryNotice = RetryNotice(exception: Exception, delay: nat, retryCount: nat)

  /** What one `ExecuteAsync` call did: the outcome it returns or rethrows,
      and the `onRetry` calls made on the way. */
  datatype Execution = Execution(outcome: Outcome<Exception>, retries: seq<RetryNotice>)

  /** Polly's loop, once `done` retries have been made: run attempt number
      `done`; if it throws a handled exception and the budget is not spent,
      notify, sleep and go again; otherwise return or rethrow what the
      attempt did, unwrapped. Attempt `i`'s outcome is `attempt(i)`. */
  function Execute(p: RetryPolicy, attempt: nat -> Outcome<Exception>, done: nat): (x: Execution)
    requires done <= p.retryCount
    ensures |x.retries| <= p.retryCount - done
    ensures x.outcome == attempt(done + |x.retries|)
    ensures x.outcome.Fail? && Handles(x.outcome.error) ==> |x.retries| == p.retryCount - done
    decreases p.retryCount - done
  {
    var o := attempt(done);
    if o.Fail? && Handles(o.error) && done < p.retryCount then
      var rest := Execute(p, attempt, done + 1);
      var x := Execution(rest.outcome, [RetryNotice(o.error, SleepDuration(p.backoff, done + 1), done + 1)] + rest.retries);
      x
    else
      Execution(o, [])
  }

  /** Retry number j + 1 follows attempt j, which threw a handled exception;
      its notice carries that exception and the sleep for retry j + 1. */
  lemma {:induction false} ExecuteNotices(p: RetryPolicy, attempt: nat -> Outcome<Exception>, done: nat)
    requires done <= p.retryCount
    ensures var x := Execute(p, attempt, done);
            forall j :: done <= j < done + |x.retries| ==>
              && attempt(j).Fail? && Handles(attempt(j).error)
              && x.retries[j - done] == RetryNotice(attempt(j).error, SleepDuration(p.backoff, j + 1), j + 1)
    decreases p.retryCount - done
  {
    var o := attempt(done);
    if o.Fail? && Handles(o.error) && done < p.retryCount {
      ExecuteNotices(p, attempt, done + 1);
      var x, rest := Execute(p, attempt, done), Execute(p, attempt, done + 1);
      var first := RetryNotice(o.error, SleepDuration(p.backoff, done + 1), done + 1);
      assert x.retries == [first] + rest.retries;
      forall j | done < j < done + |x.retries|
        ensures x.retries[j - done] == RetryNotice(attempt(j).error, SleepDuration(p.backoff, j + 1), j + 1)
      {
        assert x.retries[j - done] == rest.retries[j - (done + 1)];
      }
    }
  }

  /** One turn of the loop: a handled failure within the budget is followed
      by its notice and the rest of the execution. */
  lemma ExecuteStep(p: RetryPolicy, attempt: nat -> Outcome<Exception>, done: nat)
    requires done < p.retryCount
    requires attempt(done).Fail? && Handles(attempt(done).error)
    ensures Execute(p, attempt, done) ==
            Execution(Execute(p, attempt, done + 1).outcome,
                      [RetryNotice(attempt(done).error, SleepDuration(p.backoff, done + 1), done + 1)]
                      + Execute(p, attempt, done + 1).retries)
  {
  }

  /** The loop invariant of an implementation of `Execute` that has made
      `done` retries (notified as `retries`) is kept by one more retry ... */
  lemma RetryTurn(p: RetryPolicy, attempt: nat -> Outcome<Exception>, done: nat,
                  retries: seq<RetryNotice>, whole: Execution)
    requires done < p.retryCount
    requires attempt(done).Fail? && Handles(attempt(done).error)
    requires whole == Execution(Execute(p, attempt, done).outcome, retries + Execute(p, attempt, done).retries)
    ensures whole == Execution(Execute(p, attempt, done + 1).outcome,
                               retries + [RetryNotice(attempt(done).error, SleepDuration(p.backoff, done + 1), done + 1)]
                               + Execute(p, attempt, done + 1).retries)
  {
    ExecuteStep(p, attempt, done);
    var notice := RetryNotice(attempt(done).error, SleepDuration(p.backoff, done + 1), done + 1);
    var rest := Execute(p, attempt, done + 1);
    assert retries + ([notice] + rest.retries) == retries + [notice] + rest.retries;
  }

  /** ... and gives the whole execution when the attempt is the last one. */
  lemma LastTurn(p: RetryPolicy, attempt: nat -> Outcome<Exception>, done: nat,
                 retries: seq<RetryNotice>, whole: Execution)
    requires done <= p.retryCount
    requires !(attempt(done).Fail? && Handles(attempt(done).error) && done < p.retryCount)
    requires whole == Execution(Execute(p, attempt, done).outcome, retries + Execute(p, attempt, done).retries)
    ensures whole == Execution(attempt(done), retries)
  {
    assert retries + [] == retries;
  }

  /** The number of attempts an execution made: one more than its retries. */
  function Attempts(x: Execution): nat {
    |x.retries| + 1
  }

  /** Every attempt throws a DbException: the budget is spent (retryCount
      notices, retryCount + 1 attempts) and the last exception comes out as
      it was thrown. */
  lemma ExhaustedRethrowsLast(p: RetryPolicy, attempt: nat -> Outcome<Exception>)
    requires forall i :: 0 <= i <= p.retryCount ==> attempt(i).Fail? && Handles(attempt(i).error)
    ensures var x := Execute(p, attempt, 0);
            && |x.retries| == p.retryCount && Attempts(x) == p.retryCount + 1
            && x.outcome == attempt(p.retryCount)
  {
    var x := Execute(p, attempt, 0);
    assert attempt(|x.retries|).Fail?;
  }

  /** n handled failures followed by a success, with n within the budget:
      the execution succeeds after exactly n retries. */
  lemma {:induction false} SucceedsAfterTransients(p: RetryPolicy, attempt: nat -> Outcome<Exception>, done: nat, n: nat)
    requires done <= n <= p.retryCount
    requires forall i :: done <= i < n ==> attempt(i).Fail? && Handles(attempt(i).error)
    requires attempt(n) == Pass
    ensures Execute(p, attempt, done).outcome == Pass
    ensures |Execute(p, attempt, done).retries| == n - done
    decreases n - done
  {
    if done < n {
      SucceedsAfterTransients(p, attempt, done + 1, n);
    }
  }

  /** An exception the policy does not handle is rethrown at once: one
      attempt, no notice, no sleep. */
  lemma UnhandledShortCircuits(p: RetryPolicy, attempt: nat -> Outcome<Exception>)
    requires attempt(0).Fail? && !Handles(attempt(0).error)
    ensures Execute(p, attempt, 0) == Execution(attempt(0), [])
  {
  }

  /** A policy with no retries runs the work exactly once. */
  lemma ZeroRetriesRunOnce(p: RetryPolicy, attempt: nat -> Outcome<Exception>)
    requires p.retryCount == 0
    ensures Execute(p, attempt, 0) == Execution(attempt(0), [])
  {
  }

  /** The default schedule sleeps 2, 4 and 8 seconds, each longer than the one before. */
  lemma DefaultSchedule()
    ensures SleepDuration(DefaultPolicy.backoff, 1) == 2
    ensures SleepDuration(DefaultPolicy.backoff, 2) == 4
    ensures SleepDuration(DefaultPolicy.backoff, 3) == 8
  {
  }

  /** The default policy makes at most four attempts, whatever they do. */
  lemma DefaultAtMostFourAttempts(attempt: nat -> Outcome<Exception>)
    ensures Attempts(Execute(DefaultPolicy, attempt, 0)) <= 4
  {
  }

  lemma ExponentialIncreasing(k: nat)
    ensures SleepDuration(Exponential, k) < SleepDuration(Exponential, k + 1)
  {
  }

  /** The seconds an execution spent sleeping. */
  function TotalDelay(retries: seq<RetryNotice>): nat {
    if |retries| == 0 then 0 else TotalDelay(retries[..|retries| - 1]) + retries[|retries| - 1].delay
  }

  lemma {:induction false} GeometricSum(retries: seq<RetryNotice>)
    requires forall i :: 0 <= i < |retries| ==> retries[i].delay == Pow2(i + 1)
    ensures TotalDelay(retries) + 2 == Pow2(|retries| + 1)
  {
    if |retries| > 0 {
      GeometricSum(retries[..|retries| - 1]);
    }
  }

  lemma {:induction false} Pow2Monotone(j: nat, k: nat)
    requires j <= k
    ensures Pow2(j) <= Pow2(k)
    decreases k
  {
    if j < k {
      Pow2Monotone(j, k - 1);
    }
  }

  /** Under an exponential policy with n retries the sleeps add up to at most
      2^(n+1) - 2 seconds: at most 14 seconds for the default policy. */
  lemma ExponentialBackoffBound(p: RetryPolicy, attempt: nat -> Outcome<Exception>)
    requires p.backoff == Exponential
    ensures TotalDelay(Execute(p, attempt, 0).retries) + 2 <= Pow2(p.retryCount + 1)
    ensures p == DefaultPolicy ==> TotalDelay(Execute(p, attempt, 0).retries) <= 14
  {
    var x := Execute(p, attempt, 0);
    ExecuteNotices(p, attempt, 0);
    forall i | 0 <= i < |x.retries| ensures x.retries[i].delay == Pow2(i + 1) {
      assert attempt(i).Fail?;
    }
    GeometricSum(x.retries);
    Pow2Monotone(|x.retries| + 1, p.retryCount + 1);
    assert Pow2(4) == 16;
  }
}
