/** Concurrency helpers (ConcurrentUtils): retrying a call a bounded number of
    times, and the argument checks the condition-waiting helpers make before they
    start polling.

    A callable is given by the outcome of each of its successive calls, a function
    of the call's rank, so that its behaviour is a parameter; Thread.sleep is
    counted, not performed. */
module ConcurrentUtils {
  import opened JavaLang

  /** An exception thrown by a call, by identity. */
  datatype Exception = Exception(id: nat)

  /** The outcome of one call of a Callable. */
  datatype Attempt<T> = Success(value: T) | Failure(error: Exception)

  /** The outcome of runWithRetry: an IllegalArgumentException, the null returned for a
      null callable, the value of the successful call, or the exception of the last
      failed call rethrown; `calls` is the number of calls made. */
  datatype RetryOutcome<T> =
    | IllegalArgument(message: string)
    | NullCallable
    | Returned(value: T, calls: nat)
    | Threw(error: Exception, calls: nat)

  /** The calls from rank k on, when the k calls before it failed. */
  function RetryFrom<T>(maxTries: int, call: nat -> Attempt<T>, k: nat): RetryOutcome<T>
    requires k < maxTries
    decreases maxTries - k
  {
    if call(k).Success? then Returned(call(k).value, k + 1)
    else if k + 1 < maxTries then RetryFrom(maxTries, call, k + 1)
    else Threw(call(k).error, k + 1)
  }

  /** runWithRetry(maxTries, retryDelay, callable), as a function of its arguments. */
  function RunWithRetrySpec<T>(maxTries: int, retryDelay: int, callable: Option<nat -> Attempt<T>>): RetryOutcome<T> {
    if maxTries <= 0 then IllegalArgument("maxTries bust be > 0")
    else if retryDelay <= 0 then IllegalArgument("retryDelay bust be > 0")
    else if callable.None? then NullCallable
    else RetryFrom(maxTries, callable.value, 0)
  }

  /** Both limits are checked, in order, before the callable. */
  lemma RetryArguments<T>(maxTries: int, retryDelay: int, callable: Option<nat -> Attempt<T>>)
    ensures RunWithRetrySpec(maxTries, retryDelay, callable).IllegalArgument? <==> maxTries <= 0 || retryDelay <= 0
    ensures RunWithRetrySpec(maxTries, retryDelay, callable).NullCallable? <==> maxTries > 0 && retryDelay > 0 && callable.None?
  {
    if maxTries > 0 && retryDelay > 0 && callable.Some? {
      RetryFromBounds(maxTries, callable.value, 0);
    }
  }

  /** The calls from rank k: at most maxTries calls in all; a value is that of the
      first successful call; an exception is that of call maxTries, all calls having
      failed. */
  lemma {:induction false} RetryFromBounds<T>(maxTries: int, call: nat -> Attempt<T>, k: nat)
    requires k < maxTries
    ensures var r := RetryFrom(maxTries, call, k);
      && (r.Returned? || r.Threw?)
      && k < r.calls <= maxTries
      && (r.Returned? ==> call(r.calls - 1) == Success(r.value))
      && (forall j :: k <= j < r.calls - 1 ==> call(j).Failure?)
      && (r.Threw? ==> r.calls == maxTries && call(maxTries - 1) == Failure(r.error))
    decreases maxTries - k
  {
    if call(k).Failure? && k + 1 < maxTries {
      RetryFromBounds(maxTries, call, k + 1);
    }
  }

  /** A call that succeeds within maxTries calls after only failures is the one
      whose value is returned; runWithRetry throws only when every one of the
      maxTries calls fails. */
  lemma FirstSuccessReturned<T>(maxTries: int, retryDelay: int, call: nat -> Attempt<T>, k: nat)
    requires maxTries > 0 && retryDelay > 0
    requires k < maxTries && call(k).Success?
    requires forall j :: 0 <= j < k ==> call(j).Failure?
    ensures RunWithRetrySpec(maxTries, retryDelay, Some(call)) == Returned(call(k).value, k + 1)
  {
    RetryFromFirst(maxTries, call, 0, k);
  }

  lemma {:induction false} RetryFromFirst<T>(maxTries: int, call: nat -> Attempt<T>, j: nat, k: nat)
    requires j <= k < maxTries && call(k).Success?
    requires forall i :: j <= i < k ==> call(i).Failure?
    ensures RetryFrom(maxTries, call, j) == Returned(call(k).value, k + 1)
    decreases k - j
  {
    if j < k {
      RetryFromFirst(maxTries, call, j + 1, k);
    }
  }

  /** runWithRetry: calls the callable until a call succeeds or maxTries calls have
      failed, sleeping retryDelay between a failure and the next call; `sleeps` is
      the number of sleeps, one fewer than the calls made. */
  method RunWithRetry<T>(maxTries: int, retryDelay: int, callable: Option<nat -> Attempt<T>>)
    returns (r: RetryOutcome<T>, sleeps: nat)
    requires IsInt(maxTries)
    ensures r == RunWithRetrySpec(maxTries, retryDelay, callable)
    ensures sleeps == if r.Returned? || r.Threw? then r.calls - 1 else 0
  {
    sleeps := 0;
    if maxTries <= 0 {
      return IllegalArgument("maxTries bust be > 0"), sleeps;
    }
    if retryDelay <= 0 {
      return IllegalArgument("retryDelay bust be > 0"), sleeps;
    }
    if callable.None? {
      return NullCallable, sleeps;
    }
    var call := callable.value;
    var tryCount := 0;
    var lastException: Option<Exception> := None;
    while tryCount < maxTries
      invariant 0 <= tryCount <= maxTries
      invariant tryCount < maxTries ==> RetryFrom(maxTries, call, 0) == RetryFrom(maxTries, call, tryCount)
      invariant tryCount == maxTries ==> lastException.Some? && RetryFrom(maxTries, call, 0) == Threw(lastException.value, tryCount)
      invariant sleeps == if tryCount < maxTries then tryCount else tryCount - 1
      decreases maxTries - tryCount
    {
      var attempt := call(tryCount);
      if attempt.Success? {
        return Returned(attempt.value, tryCount + 1), sleeps;
      }
      tryCount := tryCount + 1;
      lastException := Some(attempt.error);
      if tryCount < maxTries {
        sleeps := sleeps + 1;
      }
    }
    r := Threw(lastException.value, tryCount);
  }

  /** A ThreadSynchronization monitor or a Condition, by identity. */
  datatype Ref = Ref(id: nat)

  /** How an await helper starts: an IllegalArgumentException with its message, an
      immediate return (true, for the helpers that return a value), or polling the
      condition for at most `timeout` milliseconds. */
  datatype AwaitStart = Rejected(message: string) | Immediate | Poll(timeout: int)

  /** The timeout polled for: millis, or Long.MAX_VALUE for 0. */
  function Timeout(millis: int): (t: int)
    requires millis >= 0
    ensures t > 0
    ensures millis > 0 ==> t == millis
    ensures millis == 0 ==> t == LONG_MAX
  {
    if millis > 0 then millis else LONG_MAX
  }

  /** The message awaitCondition(monitor, ...) rejects a negative sleep interval with. */
  const SLEEP_INTERVAL_MESSAGE := "sleepInterval must be > 0"
  /** The message waitForMonitor rejects a negative wait time with. */
  const WAIT_TIME_MESSAGE := "waitTime must be > 0"

  /** The checks shared by awaitCondition(monitor, condition, millis, sleepInterval)
      and waitForMonitor(monitor, condition, timeout, waitTime, ...): the monitor and
      the interval are checked first (the interval's message is the caller's); a null
      condition then returns at once whatever millis is; a negative millis is
      rejected. */
  function MonitorStart(monitor: Option<Ref>, condition: Option<Ref>, millis: int, interval: int, intervalMessage: string): (r: AwaitStart)
    ensures r.Rejected? <==> monitor.None? || interval < 0 || (condition.Some? && millis < 0)
    ensures r.Immediate? <==> monitor.Some? && interval >= 0 && condition.None?
    ensures r.Poll? ==> r == Poll(Timeout(millis))
    ensures monitor.None? ==> r == Rejected("monitor cannot be null")
    ensures monitor.Some? && interval < 0 ==> r == Rejected(intervalMessage)
  {
    if monitor.None? then Rejected("monitor cannot be null")
    else if interval < 0 then Rejected(intervalMessage)
    else if condition.None? then Immediate
    else if millis < 0 then Rejected("millis cannot be negative")
    else Poll(Timeout(millis))
  }

  /** awaitCondition(condition, millis, throwExceptionOnTimeout): a null condition
      returns true whatever millis is; a negative millis is rejected. */
  function AwaitStartOf(condition: Option<Ref>, millis: int): (r: AwaitStart)
    ensures r.Rejected? <==> condition.Some? && millis < 0
    ensures r.Immediate? <==> condition.None?
    ensures r.Poll? ==> r == Poll(Timeout(millis))
  {
    if condition.None? then Immediate
    else if millis < 0 then Rejected("millis cannot be negative")
    else Poll(Timeout(millis))
  }

  /** awaitInterruptibleCondition(condition, millis, retryInterval, throw...): as
      above, then a retry interval that is not positive is rejected. */
  function AwaitInterruptibleStart(condition: Option<Ref>, millis: int, retryInterval: int): (r: AwaitStart)
    ensures r.Rejected? <==> condition.Some? && (millis < 0 || retryInterval <= 0)
    ensures r.Immediate? <==> condition.None?
    ensures r.Poll? ==> r == Poll(Timeout(millis))
    ensures condition.Some? && millis < 0 ==> r == Rejected("millis cannot be negative")
  {
    if condition.None? then Immediate
    else if millis < 0 then Rejected("millis cannot be negative")
    else if retryInterval <= 0 then Rejected("retyInterval must be > 0")
    else Poll(Timeout(millis))
  }

  /** The shorter overloads pass a sleep or retry interval of 1 and a timeout of 0,
      so their interval check never fires and awaitCondition(condition) waits
      without limit. */
  lemma Overloads(monitor: Option<Ref>, condition: Option<Ref>, millis: int)
    ensures MonitorStart(monitor, condition, millis, 1, SLEEP_INTERVAL_MESSAGE).Rejected? <==> monitor.None? || (condition.Some? && millis < 0)
    ensures AwaitInterruptibleStart(condition, millis, 1) == AwaitStartOf(condition, millis)
    ensures condition.Some? ==> AwaitStartOf(condition, 0) == Poll(LONG_MAX)
  {
  }

  /** The order of the checks shows with a negative millis: a null condition wins
      over it, a present one is rejected for it. */
  lemma NullConditionBeforeMillis(monitor: Ref, condition: Ref)
    ensures MonitorStart(Some(monitor), None, -1, 1, SLEEP_INTERVAL_MESSAGE) == Immediate
    ensures MonitorStart(Some(monitor), Some(condition), -1, 1, SLEEP_INTERVAL_MESSAGE) == Rejected("millis cannot be negative")
    ensures MonitorStart(Some(monitor), None, -1, 0, WAIT_TIME_MESSAGE) == Immediate
  {
  }

  /** waitForMonitor checks its monitor, then its wait time, before its condition and
      timeout: with both a null monitor and a negative wait time the monitor is
      reported; a negative wait time is reported before a negative timeout. */
  lemma WaitForMonitorChecks(condition: Ref)
    ensures MonitorStart(None, Some(condition), -1, -1, WAIT_TIME_MESSAGE) == Rejected("monitor cannot be null")
    ensures MonitorStart(Some(Ref(0)), Some(condition), -1, -1, WAIT_TIME_MESSAGE) == Rejected("waitTime must be > 0")
    ensures MonitorStart(Some(Ref(0)), None, 5, -1, WAIT_TIME_MESSAGE) == Rejected("waitTime must be > 0")
  {
  }
}
