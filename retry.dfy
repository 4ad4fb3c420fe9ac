/** The retry loops of src/utils/retry.rs. The retried operation is an
    oracle: its k-th call (from 0) returns `outcomes[k]`. Sleeps are not
    performed; each method returns the durations it would sleep, in
    milliseconds, in order. The `f64` multiplier of the backoff is a whole
    number here, so no rounding arises. */
module Retry {
  import opened Wrappers
  import opened Errors
  import opened Decimal

  /** The error returned when no attempt was made. */
  const ALL_FAILED := Tor("All retry attempts failed")

  /** Delays in milliseconds; `Duration` is never negative, and neither is
      a multiplier `Duration::from_secs_f64` accepts the product of. */
  datatype RetryConfig = RetryConfig(maxAttempts: u32, initialDelay: nat, maxDelay: nat, multiplier: nat)

  /** `RetryConfig::default`: 3 attempts, 1 s, at most 30 s, doubling. */
  const DEFAULT_CONFIG := RetryConfig(3, 1000, 30000, 2)

  function Min(a: nat, b: nat): nat {
    if a < b then a else b
  }

  function Max(a: nat, b: nat): nat {
    if a < b then b else a
  }

  // ------------------------------------------------------- specification

  /** The index of the first `Ok` among the calls `i..n`, or `n`. */
  function FirstOk<T>(outcomes: seq<TorrerResult<T>>, i: nat, n: nat): (k: nat)
    requires i <= n <= |outcomes|
    ensures i <= k <= n
    ensures forall j :: i <= j < k ==> outcomes[j].Err?
    ensures k < n ==> outcomes[k].Ok?
    decreases n - i
  {
    if i == n || outcomes[i].Ok? then i else FirstOk(outcomes, i + 1, n)
  }

  /** How many times a retry loop with `n` attempts calls the operation. */
  function Calls<T>(outcomes: seq<TorrerResult<T>>, n: nat): nat
    requires n <= |outcomes|
  {
    var k := FirstOk(outcomes, 0, n);
    if k < n then k + 1 else n
  }

  /** What a retry loop with `n` attempts returns. */
  function Outcome<T>(outcomes: seq<TorrerResult<T>>, n: nat): TorrerResult<T>
    requires n <= |outcomes|
  {
    var k := FirstOk(outcomes, 0, n);
    if k < n then outcomes[k]
    else if n == 0 then Err(ALL_FAILED)
    else outcomes[n - 1]
  }

  /** How many times a retry loop with `n` attempts sleeps. */
  function Sleeps<T>(outcomes: seq<TorrerResult<T>>, n: nat): nat
    requires n <= |outcomes|
  {
    var k := FirstOk(outcomes, 0, n);
    if k < n then k
    else if n == 0 then 0
    else n - 1
  }

  /** The j-th delay of `retry_with_backoff`: the initial delay, then each
      one the previous times the multiplier, capped at the maximum. */
  function Delay(c: RetryConfig, j: nat): nat {
    if j == 0 then c.initialDelay
    else Min(Delay(c, j - 1) * c.multiplier, c.maxDelay)
  }

  lemma DelayStep(c: RetryConfig, j: nat)
    ensures Delay(c, j + 1) == Min(Delay(c, j) * c.multiplier, c.maxDelay)
  {
  }

  // ------------------------------------------------------------- methods

  /** `retry_fixed`. */
  method RetryFixed<T>(maxAttempts: u32, delay: nat, outcomes: seq<TorrerResult<T>>)
    returns (r: TorrerResult<T>, calls: nat, sleeps: seq<nat>)
    requires maxAttempts <= |outcomes|
    ensures r == Outcome(outcomes, maxAttempts)
    ensures calls == Calls(outcomes, maxAttempts)
    ensures |sleeps| == Sleeps(outcomes, maxAttempts)
    ensures forall j :: 0 <= j < |sleeps| ==> sleeps[j] == delay
  {
    var lastError: Option<TorrerError> := None;
    calls, sleeps := 0, [];
    var attempt: nat := 1;
    while attempt <= maxAttempts
      invariant 1 <= attempt <= maxAttempts + 1 && calls == attempt - 1
      invariant FirstOk(outcomes, 0, maxAttempts) == FirstOk(outcomes, calls, maxAttempts)
      invariant lastError == if calls == 0 then None else Some(outcomes[calls - 1].error)
      invariant forall j :: 0 <= j < calls ==> outcomes[j].Err?
      invariant |sleeps| == (if calls == maxAttempts && calls > 0 then calls - 1 else calls)
      invariant forall j :: 0 <= j < |sleeps| ==> sleeps[j] == delay
    {
      var result := outcomes[calls];
      calls := calls + 1;
      if result.Ok? {
        return result, calls, sleeps;
      }
      lastError := Some(result.error);
      if attempt < maxAttempts {
        sleeps := sleeps + [delay];
      }
      attempt := attempt + 1;
    }
    r := Err(if lastError.Some? then lastError.value else ALL_FAILED);
  }

  /** `retry_with_backoff`. */
  method RetryWithBackoff<T>(config: RetryConfig, outcomes: seq<TorrerResult<T>>)
    returns (r: TorrerResult<T>, calls: nat, sleeps: seq<nat>)
    requires config.maxAttempts <= |outcomes|
    ensures r == Outcome(outcomes, config.maxAttempts)
    ensures calls == Calls(outcomes, config.maxAttempts)
    ensures |sleeps| == Sleeps(outcomes, config.maxAttempts)
    ensures forall j :: 0 <= j < |sleeps| ==> sleeps[j] == Delay(config, j)
  {
    var n: nat := config.maxAttempts;
    var delay := config.initialDelay;
    var lastError: Option<TorrerError> := None;
    calls, sleeps := 0, [];
    var attempt: nat := 1;
    while attempt <= n
      invariant 1 <= attempt <= n + 1 && calls == attempt - 1
      invariant FirstOk(outcomes, 0, n) == FirstOk(outcomes, calls, n)
      invariant lastError == if calls == 0 then None else Some(outcomes[calls - 1].error)
      invariant forall j :: 0 <= j < calls ==> outcomes[j].Err?
      invariant |sleeps| == (if calls == n && calls > 0 then calls - 1 else calls)
      invariant forall j :: 0 <= j < |sleeps| ==> sleeps[j] == Delay(config, j)
      invariant delay == Delay(config, |sleeps|)
    {
      var result := outcomes[calls];
      calls := calls + 1;
      if result.Ok? {
        return result, calls, sleeps;
      }
      lastError := Some(result.error);
      if attempt < n {
        DelayStep(config, |sleeps|);
        sleeps := sleeps + [delay];
        delay := Min(delay * config.multiplier, config.maxDelay);
      }
      attempt := attempt + 1;
    }
    r := Err(if lastError.Some? then lastError.value else ALL_FAILED);
  }

  // ---------------------------------------------------------------- lemmas

  /** The loop returns the first `Ok` unchanged, after exactly as many
      calls as it took; it fails only when every attempt failed. */
  lemma FirstOkWins<T>(outcomes: seq<TorrerResult<T>>, n: nat, k: nat)
    requires n <= |outcomes| && k < n
    requires outcomes[k].Ok? && forall j :: 0 <= j < k ==> outcomes[j].Err?
    ensures Outcome(outcomes, n) == outcomes[k]
    ensures Calls(outcomes, n) == k + 1
  {
  }

  /** When every attempt fails, every attempt is made and the last error is
      returned; with no attempts at all, the result is `ALL_FAILED`. */
  lemma AllFail<T>(outcomes: seq<TorrerResult<T>>, n: nat)
    requires n <= |outcomes|
    requires forall j :: 0 <= j < n ==> outcomes[j].Err?
    ensures Calls(outcomes, n) == n
    ensures Outcome(outcomes, n) == if n == 0 then Err(ALL_FAILED) else outcomes[n - 1]
    ensures Sleeps(outcomes, n) == if n == 0 then 0 else n - 1
  {
  }

  /** The result is `Ok` iff some attempt within the limit succeeds. */
  lemma OutcomeOkIff<T>(outcomes: seq<TorrerResult<T>>, n: nat)
    requires n <= |outcomes|
    ensures Outcome(outcomes, n).Ok? <==> exists j :: 0 <= j < n && outcomes[j].Ok?
  {
    var k := FirstOk(outcomes, 0, n);
    if k < n {
      assert outcomes[k].Ok?;
    }
  }

  /** At most `n` calls, and a sleep only between two calls: never after
      the last one. */
  lemma CallsAndSleeps<T>(outcomes: seq<TorrerResult<T>>, n: nat)
    requires n <= |outcomes|
    ensures Calls(outcomes, n) <= n
    ensures Sleeps(outcomes, n) == if n == 0 then 0 else Calls(outcomes, n) - 1
  {
  }

  /** No backoff delay exceeds the larger of the initial delay and the
      cap. */
  lemma {:induction false} DelayBounded(c: RetryConfig, j: nat)
    ensures Delay(c, j) <= Max(c.initialDelay, c.maxDelay)
  {
    if j > 0 {
      DelayBounded(c, j - 1);
    }
  }

  function Pow2(j: nat): nat {
    if j == 0 then 1 else 2 * Pow2(j - 1)
  }

  /** With the default configuration the delays double from one second up
      to the 30-second cap: 1, 2, 4, 8, 16, 30, 30, ... seconds. */
  lemma {:induction false} DefaultDelays(j: nat)
    ensures Delay(DEFAULT_CONFIG, j) == Min(1000 * Pow2(j), 30000)
  {
    if j > 0 {
      DefaultDelays(j - 1);
      var p := Pow2(j - 1);
      assert Delay(DEFAULT_CONFIG, j) == Min(Min(1000 * p, 30000) * 2, 30000);
      assert 1000 * Pow2(j) == 2 * (1000 * p);
    }
  }

  /** The default configuration makes three attempts: when all fail it
      sleeps 1 s and then 2 s. */
  lemma DefaultAllFail<T>(outcomes: seq<TorrerResult<T>>)
    requires 3 <= |outcomes|
    requires forall j :: 0 <= j < 3 ==> outcomes[j].Err?
    ensures Calls(outcomes, DEFAULT_CONFIG.maxAttempts) == 3
    ensures Sleeps(outcomes, DEFAULT_CONFIG.maxAttempts) == 2
    ensures Delay(DEFAULT_CONFIG, 0) == 1000 && Delay(DEFAULT_CONFIG, 1) == 2000
  {
    AllFail(outcomes, 3);
  }
}
