/**
 * The retry helper of the link-analysis backend: an asynchronous call is tried
 * up to `retries` times; after each failure but the last the helper sleeps,
 * and the sleep doubles every time (exponential backoff).
 */
module Retry {
  import opened Wrappers

  /** How a call of the helper ends: with a value, with the last error, or with `undefined` when no attempt is made. */
  datatype Outcome<+T> = Returned(value: T) | Thrown(error: string) | Undefined

  /** What the helper does, as seen from outside: its outcome, how many calls it makes and the sleeps between them. */
  datatype Run<+T> = Run(outcome: Outcome<T>, calls: nat, sleeps: seq<int>)

  /** 2 to the power `i`. */
  function Pow2(i: nat): (r: nat)
    ensures r >= 1
  {
    if i == 0 then 1 else 2 * Pow2(i - 1)
  }

  /** The sleep taken after the failure of attempt `i + 1`: the delay doubled `i` times. */
  function NthDelay(delay: int, i: nat): int
  {
    if i == 0 then delay else 2 * NthDelay(delay, i - 1)
  }

  lemma {:induction false} NthDelayIsPower(delay: int, i: nat)
    ensures NthDelay(delay, i) == delay * Pow2(i)
  {
    if i > 0 {
      NthDelayIsPower(delay, i - 1);
    }
  }

  /** The first `n` sleeps of the backoff schedule. */
  function Backoff(delay: int, n: nat): (s: seq<int>)
    ensures |s| == n
    ensures forall i :: 0 <= i < n ==> s[i] == NthDelay(delay, i)
  {
    if n == 0 then [] else Backoff(delay, n - 1) + [NthDelay(delay, n - 1)]
  }

  /** The first successful attempt among `from..retries`, or `retries + 1` when every one of them fails. */
  function FirstSuccess<T>(fn: nat -> Attempt<T>, from: nat, retries: nat): (a: nat)
    requires from >= 1
    ensures from <= a <= retries + 1 || (a == from && from > retries)
    ensures a <= retries ==> fn(a).Ok?
    ensures forall k :: from <= k < a && k <= retries ==> fn(k).Fail?
    decreases retries + 1 - from
  {
    if from > retries then from
    else if fn(from).Ok? then from
    else FirstSuccess(fn, from + 1, retries)
  }

  /**
   * The behaviour of `retry(fn, retries, delay)` when attempt `k` of `fn`
   * settles as `fn(k)`.
   */
  function RetryRun<T>(fn: nat -> Attempt<T>, retries: nat, delay: int): Run<T>
  {
    if retries < 1 then Run(Undefined, 0, [])
    else
      var a := FirstSuccess(fn, 1, retries);
      if a <= retries then Run(Returned(fn(a).value), a, Backoff(delay, a - 1))
      else Run(Thrown(fn(retries).error), retries, Backoff(delay, retries - 1))
  }

  /**
   * The retry loop. `calls` counts the attempts made; `sleeps` lists, in
   * order, the delays awaited between them.
   */
  method Retry<T>(fn: nat -> Attempt<T>, retries: nat, delay: int)
    returns (outcome: Outcome<T>, calls: nat, sleeps: seq<int>)
    ensures Run(outcome, calls, sleeps) == RetryRun(fn, retries, delay)
  {
    calls, sleeps := 0, [];
    var wait := delay;
    var attempt := 1;
    while attempt <= retries
      invariant 1 <= attempt
      invariant attempt <= if retries == 0 then 1 else retries
      invariant calls == attempt - 1
      invariant forall k :: 1 <= k < attempt ==> fn(k).Fail?
      invariant sleeps == Backoff(delay, attempt - 1)
      invariant wait == NthDelay(delay, attempt - 1)
      decreases retries - attempt
    {
      var settled := fn(attempt);
      calls := calls + 1;
      if settled.Ok? {
        RetrySucceedsAfterFailures(fn, retries, delay, attempt - 1);
        outcome := Returned(settled.value);
        return;
      }
      if attempt == retries {
        RetryExhausted(fn, retries, delay);
        outcome := Thrown(settled.error);
        return;
      }
      sleeps := sleeps + [wait];
      wait := wait * 2;
      attempt := attempt + 1;
    }
    outcome := Undefined;
  }

  /** When the first `k` attempts fail and attempt `k + 1` succeeds, its value is returned after `k` doubling sleeps. */
  lemma RetrySucceedsAfterFailures<T>(fn: nat -> Attempt<T>, retries: nat, delay: int, k: nat)
    requires k < retries
    requires forall j :: 1 <= j <= k ==> fn(j).Fail?
    requires fn(k + 1).Ok?
    ensures RetryRun(fn, retries, delay) == Run(Returned(fn(k + 1).value), k + 1, Backoff(delay, k))
  {
    var a := FirstSuccess(fn, 1, retries);
  }

  /** When every attempt fails, the last error is thrown after `retries` calls and `retries - 1` sleeps. */
  lemma RetryExhausted<T>(fn: nat -> Attempt<T>, retries: nat, delay: int)
    requires retries >= 1
    requires forall j :: 1 <= j <= retries ==> fn(j).Fail?
    ensures RetryRun(fn, retries, delay) == Run(Thrown(fn(retries).error), retries, Backoff(delay, retries - 1))
  {
    var a := FirstSuccess(fn, 1, retries);
  }

  /** With no attempts allowed the helper never calls `fn` and resolves to `undefined`. */
  lemma RetryNotAttempted<T>(fn: nat -> Attempt<T>, delay: int)
    ensures RetryRun(fn, 0, delay) == Run(Undefined, 0, [])
  {
  }

  /** The schedule the backend uses, three attempts from one second: at most two sleeps, of 1000 and 2000 ms. */
  lemma DefaultSchedule()
    ensures Backoff(1000, 2) == [1000, 2000]
  {
  }
}
