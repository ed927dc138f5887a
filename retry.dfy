/** `retryAsync` (src/index.js:25-41): call a fallible operation up to `retries + 1`
    times, waiting `delayMs * backoff^(attempt - 1)` after each failed attempt but the
    last, and rethrow the last error unchanged. The operation is a function from the
    attempt number (1, 2, ...) to what that attempt returned or threw; waits are
    recorded, not slept. */
module Retry {
  import opened Wrappers

  /** `Math.pow` on natural numbers. */
  function Pow(b: nat, e: nat): nat {
    if e == 0 then 1 else b * Pow(b, e - 1)
  }

  /** What one call of `retryAsync` did: the value returned (or the error thrown), how many
      times the operation was called, and the waits between calls, in order. */
  datatype RetryRun<T> = RetryRun(result: Result<T>, attempts: nat, waits: seq<nat>)

  /** The rest of a run that is about to make attempt number `attempt`. */
  function RetryFrom<T>(fn: nat -> Result<T>, retries: nat, delayMs: nat, backoff: nat, attempt: nat)
    : (run: RetryRun<T>)
    requires 1 <= attempt <= retries + 1
    ensures attempt <= run.attempts <= retries + 1
    ensures run.result == fn(run.attempts)
    ensures forall k :: attempt <= k < run.attempts ==> fn(k).Err?
    ensures run.result.Err? ==> run.attempts == retries + 1
    ensures |run.waits| == run.attempts - attempt
    ensures forall j :: 0 <= j < |run.waits| ==> run.waits[j] == delayMs * Pow(backoff, attempt - 1 + j)
    decreases retries + 1 - attempt
  {
    var outcome := fn(attempt);
    if outcome.Ok? || attempt > retries then RetryRun(outcome, attempt, [])
    else
      var rest := RetryFrom(fn, retries, delayMs, backoff, attempt + 1);
      RetryRun(rest.result, rest.attempts, [delayMs * Pow(backoff, attempt - 1)] + rest.waits)
  }

  /** A whole run of `retryAsync(fn, {retries, delayMs, backoff})`. */
  function Retry<T>(fn: nat -> Result<T>, retries: nat, delayMs: nat, backoff: nat): RetryRun<T> {
    RetryFrom(fn, retries, delayMs, backoff, 1)
  }

  /** Retry policy: at most `retries + 1` attempts; the result is the first success, or,
      when every attempt failed, the error of attempt `retries + 1` unchanged; the k-th
      wait is `delayMs * backoff^(k-1)`. */
  lemma RetryContract<T>(fn: nat -> Result<T>, retries: nat, delayMs: nat, backoff: nat)
    ensures var run := Retry(fn, retries, delayMs, backoff);
      && 1 <= run.attempts <= retries + 1
      && (forall k :: 1 <= k < run.attempts ==> fn(k).Err?)
      && (run.result.Ok? ==> run.result == fn(run.attempts))
      && (run.result.Err? <==> forall k :: 1 <= k <= retries + 1 ==> fn(k).Err?)
      && (run.result.Err? ==> run.attempts == retries + 1 && run.result == fn(retries + 1))
      && |run.waits| == run.attempts - 1
      && (forall j :: 0 <= j < |run.waits| ==> run.waits[j] == delayMs * Pow(backoff, j))
  {
  }

  /** The action's policy (3 retries, 1000 ms, doubling) when every attempt fails: four
      calls, waits of 1, 2 and 4 seconds, and the fourth attempt's error. */
  lemma DefaultPolicyAllFail<T>(fn: nat -> Result<T>)
    requires forall k :: 1 <= k <= 4 ==> fn(k).Err?
    ensures Retry(fn, 3, 1000, 2) == RetryRun(fn(4), 4, [1000, 2000, 4000])
  {
    var run := Retry(fn, 3, 1000, 2);
    assert fn(run.attempts).Err?;
    assert Pow(2, 1) == 2 && Pow(2, 2) == 4;
    assert run.waits[0] == 1000 && run.waits[1] == 2000 && run.waits[2] == 4000;
  }

  function Sum(s: seq<nat>): nat {
    if s == [] then 0 else s[0] + Sum(s[1..])
  }

  /** The waits after n failed attempts: delayMs, delayMs * backoff, delayMs * backoff^2, ... */
  function Schedule(delayMs: nat, backoff: nat, n: nat): seq<nat>
    decreases n
  {
    if n == 0 then [] else [delayMs] + Schedule(delayMs * backoff, backoff, n - 1)
  }

  lemma {:induction false} ScheduleAt(delayMs: nat, backoff: nat, n: nat, j: nat)
    requires j < n
    ensures |Schedule(delayMs, backoff, n)| == n
    ensures Schedule(delayMs, backoff, n)[j] == delayMs * Pow(backoff, j)
    decreases n
  {
    if j == 0 {
      assert Schedule(delayMs, backoff, n)[0] == delayMs;
    } else {
      ScheduleAt(delayMs * backoff, backoff, n - 1, j - 1);
      assert Pow(backoff, j) == backoff * Pow(backoff, j - 1);
    }
    ScheduleLength(delayMs, backoff, n);
  }

  lemma {:induction false} ScheduleLength(delayMs: nat, backoff: nat, n: nat)
    ensures |Schedule(delayMs, backoff, n)| == n
    decreases n
  {
    if n > 0 {
      ScheduleLength(delayMs * backoff, backoff, n - 1);
    }
  }

  /** The waits of a run are the first `attempts - 1` entries of the schedule. */
  lemma RetryWaits<T>(fn: nat -> Result<T>, retries: nat, delayMs: nat, backoff: nat)
    ensures var run := Retry(fn, retries, delayMs, backoff);
      run.waits == Schedule(delayMs, backoff, run.attempts - 1)
  {
    var run := Retry(fn, retries, delayMs, backoff);
    ScheduleLength(delayMs, backoff, run.attempts - 1);
    forall j | 0 <= j < |run.waits|
      ensures run.waits[j] == Schedule(delayMs, backoff, run.attempts - 1)[j]
    {
      ScheduleAt(delayMs, backoff, run.attempts - 1, j);
    }
  }

  /** The waits of n failed attempts form a geometric series:
      (backoff - 1) * total == delayMs * (backoff^n - 1). */
  lemma {:induction false} TotalWait(delayMs: nat, backoff: nat, n: nat)
    requires backoff >= 1
    ensures (backoff - 1) * Sum(Schedule(delayMs, backoff, n)) == delayMs * (Pow(backoff, n) - 1)
    decreases n
  {
    if n > 0 {
      var rest := Schedule(delayMs * backoff, backoff, n - 1);
      assert Schedule(delayMs, backoff, n)[1..] == rest;
      TotalWait(delayMs * backoff, backoff, n - 1);
      PowPositive(backoff, n - 1);
      assert Sum(Schedule(delayMs, backoff, n)) == delayMs + Sum(rest);
      assert Pow(backoff, n) == backoff * Pow(backoff, n - 1);
      GeometricStep(backoff, delayMs, Pow(backoff, n - 1), Sum(rest));
    }
  }

  /** One step of the geometric series, in plain integer arithmetic. */
  lemma GeometricStep(b: int, d: int, p: int, t: int)
    requires (b - 1) * t == (d * b) * (p - 1)
    ensures (b - 1) * (d + t) == d * (b * p - 1)
  {
    calc {
      (b - 1) * (d + t);
    == { Distribute(b - 1, d, t); }
      (b - 1) * d + (b - 1) * t;
    ==
      (b - 1) * d + (d * b) * (p - 1);
    == { Distribute(d * b, p, -1); }
      (b - 1) * d + (d * b) * p - d * b;
    == { Distribute(d, b, -1); Associate(d, b, p); Distribute(d, b * p, -1); }
      d * (b * p - 1);
    }
  }

  lemma Associate(a: int, x: int, y: int)
    ensures (a * x) * y == a * (x * y)
  {
  }

  lemma Distribute(a: int, x: int, y: int)
    ensures a * (x + y) == a * x + a * y
  {
  }

  lemma {:induction false} PowPositive(b: nat, e: nat)
    requires b >= 1
    ensures Pow(b, e) >= 1
  {
    if e > 0 {
      PowPositive(b, e - 1);
    }
  }

  /** With the action's policy, a comment that never posts waits 7 seconds in all. */
  lemma DefaultPolicyTotalWait()
    ensures Sum(Schedule(1000, 2, 3)) == 7000
  {
    TotalWait(1000, 2, 3);
    assert Pow(2, 3) == 8;
  }

  /** `retryAsync`: the loop of src/index.js:29-40. */
  method RetryAsync<T>(fn: nat -> Result<T>, retries: nat, delayMs: nat, backoff: nat)
    returns (result: Result<T>, attempts: nat, waits: seq<nat>)
    ensures RetryRun(result, attempts, waits) == Retry(fn, retries, delayMs, backoff)
  {
    var attempt := 1;
    waits := [];
    while true
      invariant 1 <= attempt <= retries + 1
      invariant var rest := RetryFrom(fn, retries, delayMs, backoff, attempt);
        Retry(fn, retries, delayMs, backoff) == RetryRun(rest.result, rest.attempts, waits + rest.waits)
      decreases retries + 1 - attempt
    {
      var outcome := fn(attempt);
      if outcome.Ok? {
        assert waits + [] == waits;
        return outcome, attempt, waits;
      }
      if attempt > retries {
        assert waits + [] == waits;
        return outcome, attempt, waits;
      }
      var wait := delayMs * Pow(backoff, attempt - 1);
      assert waits + ([wait] + RetryFrom(fn, retries, delayMs, backoff, attempt + 1).waits)
          == (waits + [wait]) + RetryFrom(fn, retries, delayMs, backoff, attempt + 1).waits;
      waits := waits + [wait];
      attempt := attempt + 1;
    }
  }
}
