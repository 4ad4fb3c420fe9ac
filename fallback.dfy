/** The automatic fallback of src/core/fallback.rs: when Tor does not
    work, probe the configured bridges one by one, with an exponential
    back-off between rounds. Clocks, sleeps and the network are the
    environment: an attempt is given the result of listing the bridges,
    what probing each bridge gives, and the time it starts; sleeps are
    returned, in seconds, instead of taken. */
module Fallback {
  import opened Wrappers
  import opened Errors
  import opened Decimal
  import opened Probes
  import opened Bridges
  import opened BridgeStorage
  import opened TorCommands
  import TorControl
  import Health

  const MAX_RETRIES: u32 := 4

  /** What the world looks like during one `attempt_fallback`: the result
      of `list_bridges`, how a connection to each bridge ends, and the
      instant the attempt starts. */
  datatype Attempt = Attempt(listing: TorrerResult<seq<Bridge>>, probe: Bridge -> ConnectOutcome, now: nat)

  /** The manager's fields other than its bridge manager. */
  datatype FallbackState = FallbackState(fallbackActive: bool, retryCount: u32, lastFallbackAttempt: Option<nat>)

  /** What `attempt_fallback_with_retry` produces: its result, the final
      state, the sleeps taken in order, and how many attempts it made. */
  datatype RetryRun = RetryRun(result: TorrerResult<bool>, state: FallbackState, sleeps: seq<nat>, attempts: nat)

  const INITIAL_STATE := FallbackState(false, 0, None)

  // ------------------------------------------------------- specification

  /** A bridge `test_bridge` reports reachable. */
  predicate Reachable(b: Bridge, probe: Bridge -> ConnectOutcome) {
    TestBridge(probe(b)) == Ok(true)
  }

  /** The index of the first reachable bridge. */
  function FirstReachable(bs: seq<Bridge>, probe: Bridge -> ConnectOutcome): (r: Option<nat>)
    ensures r.Some? ==>
      r.value < |bs| && Reachable(bs[r.value], probe) && forall j :: 0 <= j < r.value ==> !Reachable(bs[j], probe)
    ensures r.None? ==> forall j :: 0 <= j < |bs| ==> !Reachable(bs[j], probe)
  {
    if bs == [] then None
    else if Reachable(bs[0], probe) then Some(0)
    else match FirstReachable(bs[1..], probe)
      case None => None
      case Some(k) => Some(k + 1)
  }

  /** What `attempt_fallback` returns. */
  function AttemptOutcome(a: Attempt): TorrerResult<bool> {
    match a.listing
    case Err(e) => Err(e)
    case Ok(bs) => Ok(FirstReachable(bs, a.probe).Some?)
  }

  /** The bridges `attempt_fallback` probes, in order. */
  function Probed(a: Attempt): seq<Bridge> {
    match a.listing
    case Err(_) => []
    case Ok(bs) =>
      match FirstReachable(bs, a.probe)
      case Some(k) => bs[..k + 1]
      case None => bs
  }

  /** The state after `attempt_fallback`. */
  function AttemptState(st: FallbackState, a: Attempt): FallbackState {
    var stamped := st.(lastFallbackAttempt := Some(a.now));
    if AttemptOutcome(a) == Ok(true) then stamped.(fallbackActive := true, retryCount := 0)
    else stamped
  }

  /** The back-off delay, in seconds, after attempt `i`: 1, 2, 4, 8. */
  function Backoff(i: nat): nat {
    if i <= 1 then 1 else 2 * Backoff(i - 1)
  }

  lemma BackoffBounded(i: nat)
    requires 1 <= i <= MAX_RETRIES as nat
    ensures Backoff(i) <= 8 && Backoff(i + 1) == 2 * Backoff(i)
  {
  }

  /** The retry loop from attempt `attempt` on, with the current delay,
      state and sleeps so far. */
  function RetryFrom(attempt: nat, delay: nat, st: FallbackState, sleeps: seq<nat>, env: nat -> Attempt): RetryRun
    requires 1 <= attempt <= MAX_RETRIES + 1
    decreases MAX_RETRIES + 1 - attempt
  {
    if attempt > MAX_RETRIES then RetryRun(Ok(false), st, sleeps, MAX_RETRIES as nat)
    else
      var a := env(attempt);
      var st1 := AttemptState(st, a);
      var outcome := AttemptOutcome(a);
      if outcome == Ok(true) then RetryRun(Ok(true), st1, sleeps, attempt)
      else
        var st2 := AfterFailure(attempt, outcome, st1);
        var more := attempt < MAX_RETRIES as nat;
        RetryFrom(attempt + 1, if more then delay * 2 else delay, st2, if more then sleeps + [delay] else sleeps, env)
  }

  /** The state after a failed attempt: an `Ok(false)` records the attempt
      number in `retryCount`, an error leaves it as it was. */
  function AfterFailure(attempt: nat, outcome: TorrerResult<bool>, st: FallbackState): FallbackState
    requires 1 <= attempt <= MAX_RETRIES as nat
  {
    if outcome.Err? then st
    else if attempt < MAX_RETRIES as nat then st.(retryCount := attempt as u32)
    else st.(retryCount := MAX_RETRIES)
  }

  /** `attempt_fallback_with_retry` from the state `st`; attempt `i`
      meets the world `env(i)`. */
  function RetrySpec(st: FallbackState, env: nat -> Attempt): RetryRun {
    RetryFrom(1, 1, st, [], env)
  }

  /** The result of the future `check_tor_connection` wraps in a timeout:
      connect, authenticate and read the status, the first failure
      propagated. */
  function ConnectionCheck(outcome: ConnectOutcome, cookie: Option<string>, replies: seq<TorControl.Exchange>): TorrerResult<bool> {
    var c := TorControl.SessionConnect(TorControl.NewSession(TorControl.DEFAULT_CONTROL_PORT, replies), outcome);
    if c.result.Err? then Err(c.result.error)
    else
      var a := TorControl.SessionAuthenticate(c.session, cookie);
      if a.result.Err? then Err(a.result.error)
      else
        var g := TorControl.SessionGetStatus(a.session);
        if g.result.Err? then Err(g.result.error)
        else Ok(g.result.value.circuitEstablished)
  }

  // ------------------------------------------------------------- methods

  /** `check_tor_connection`: a fresh client; every failure, and running
      past the 30 s limit, is `Ok(false)`. */
  method CheckTorConnection(outcome: ConnectOutcome, cookie: Option<string>, replies: seq<TorControl.Exchange>,
                            withinTimeout: bool)
    returns (r: TorrerResult<bool>)
    ensures r.Ok?
    ensures r == Ok(withinTimeout && ConnectionCheck(outcome, cookie, replies) == Ok(true))
  {
    var check: TorrerResult<bool>;
    var client := new TorControl.TorClient(replies);
    var c := client.Connect(outcome);
    if c.Err? {
      check := Err(c.error);
    } else {
      var a := client.Authenticate(cookie);
      if a.Err? {
        check := Err(a.error);
      } else {
        var status := client.GetStatus();
        if status.Err? {
          check := Err(status.error);
        } else {
          check := Ok(status.value.circuitEstablished);
        }
      }
    }
    if !withinTimeout {
      return Ok(false);
    }
    match check
    case Ok(true) => r := Ok(true);
    case Ok(false) => r := Ok(false);
    case Err(_) => r := Ok(false);
  }

  class FallbackManager {
    var fallbackActive: bool
    var retryCount: u32
    var lastFallbackAttempt: Option<nat>

    function State(): FallbackState
      reads this
    {
      FallbackState(fallbackActive, retryCount, lastFallbackAttempt)
    }

    /** `FallbackManager::new`. */
    constructor ()
      ensures State() == INITIAL_STATE
    {
      fallbackActive, retryCount, lastFallbackAttempt := false, 0, None;
    }

    /** `attempt_fallback`: stamp the attempt, list the bridges, and probe
        them in order until one is reachable. */
    method AttemptFallback(a: Attempt) returns (r: TorrerResult<bool>, probed: seq<Bridge>)
      modifies this
      ensures r == AttemptOutcome(a)
      ensures State() == AttemptState(old(State()), a)
      ensures probed == Probed(a)
    {
      lastFallbackAttempt := Some(a.now);
      probed := [];
      if a.listing.Err? {
        r := Err(a.listing.error);
        return;
      }
      var bridges := a.listing.value;
      if |bridges| == 0 {
        r := Ok(false);
        return;
      }
      for i := 0 to |bridges|
        invariant probed == bridges[..i]
        invariant forall j :: 0 <= j < i ==> !Reachable(bridges[j], a.probe)
        invariant State() == old(State()).(lastFallbackAttempt := Some(a.now))
      {
        probed := probed + [bridges[i]];
        var test := TestBridge(a.probe(bridges[i]));
        match test
        case Ok(true) =>
          fallbackActive := true;
          retryCount := 0;
          r := Ok(true);
          return;
        case Ok(false) =>
        case Err(_) =>
      }
      assert bridges[..|bridges|] == bridges;
      r := Ok(false);
    }

    /** `attempt_fallback_with_retry`: up to four attempts, sleeping 1, 2
        and 4 seconds between them. */
    method AttemptFallbackWithRetry(env: nat -> Attempt) returns (r: TorrerResult<bool>, sleeps: seq<nat>, attempts: nat)
      modifies this
      ensures RetryRun(r, State(), sleeps, attempts) == RetrySpec(old(State()), env)
    {
      var retryDelay: u64 := 1;
      sleeps := [];
      attempts := 0;
      for attempt := 1 to MAX_RETRIES as nat + 1
        invariant retryDelay as nat == Backoff(if attempt <= MAX_RETRIES as nat then attempt else MAX_RETRIES as nat)
        invariant attempts == attempt - 1
        invariant RetrySpec(old(State()), env) == RetryFrom(attempt, retryDelay as nat, State(), sleeps, env)
      {
        attempts := attempt;
        BackoffBounded(attempt);
        var outcome, _ := AttemptFallback(env(attempt));
        ghost var st1 := State();
        match outcome
        case Ok(true) =>
          r := Ok(true);
          return;
        case Ok(false) =>
          if attempt < MAX_RETRIES as nat {
            sleeps := sleeps + [retryDelay as nat];
            retryDelay := retryDelay * 2;
            retryCount := attempt;
          } else {
            retryCount := MAX_RETRIES;
          }
        case Err(_) =>
          if attempt < MAX_RETRIES as nat {
            sleeps := sleeps + [retryDelay as nat];
            retryDelay := retryDelay * 2;
          }
        assert State() == AfterFailure(attempt, outcome, st1);
      }
      r := Ok(false);
    }

    /** `reset`. */
    method Reset()
      modifies this
      ensures State() == INITIAL_STATE
    {
      fallbackActive := false;
      retryCount := 0;
      lastFallbackAttempt := None;
    }

    /** `time_since_last_attempt` at the instant `now`; `Instant::elapsed`
        saturates at zero. */
    function TimeSinceLastAttempt(now: nat): (r: Option<nat>)
      reads this
      ensures r.Some? <==> lastFallbackAttempt.Some?
      ensures r.Some? && lastFallbackAttempt.value <= now ==> r.value + lastFallbackAttempt.value == now
    {
      match lastFallbackAttempt
      case None => None
      case Some(t) => Some(if now >= t then now - t else 0)
    }
  }

  // ---------------------------------------------------------------- lemmas

  /** `check_tor_connection` reports `true` exactly when the check
      `check_tor_circuit` makes succeeds in time. */
  lemma ConnectionCheckIsCircuitVerdict(outcome: ConnectOutcome, cookie: Option<string>, replies: seq<TorControl.Exchange>)
    ensures ConnectionCheck(outcome, cookie, replies) == Ok(true) <==> Health.CircuitVerdict(outcome, cookie, replies)
  {
  }

  /** A daemon that never answers fails the check, cookie or not. */
  lemma SilentDaemonFailsCheck(outcome: ConnectOutcome, cookie: Option<string>)
    ensures ConnectionCheck(outcome, cookie, []).Err?
  {
    var c := TorControl.SessionConnect(TorControl.NewSession(TorControl.DEFAULT_CONTROL_PORT, []), outcome);
    if c.result.Ok? {
      var s := c.session;
      assert s.daemon == [];
      var s1 := if cookie.Some? then TorControl.SessionSendRaw(s, BuildAuthenticate(cookie)) else TorControl.Step(Err(TorControl.NOT_CONNECTED), s);
      assert s1.result.Err? && s1.session.daemon == [];
    }
  }

  /** An attempt succeeds iff the listing succeeds and some bridge is
      reachable; it fails only when the listing does; an empty list is
      `Ok(false)` with nothing probed. */
  lemma AttemptOutcomeMeaning(a: Attempt)
    ensures AttemptOutcome(a) == Ok(true) <==>
      a.listing.Ok? && exists k :: 0 <= k < |a.listing.value| && Reachable(a.listing.value[k], a.probe)
    ensures AttemptOutcome(a).Err? <==> a.listing.Err?
    ensures a.listing == Ok([]) ==> AttemptOutcome(a) == Ok(false) && Probed(a) == []
  {
  }

  /** Bridges are probed in order, each at most once: the probed ones are
      a prefix of the list, ending at the winner when there is one, and
      the whole list when every probe fails. */
  lemma ProbedInOrder(a: Attempt)
    requires a.listing.Ok?
    ensures var p := Probed(a); var bs := a.listing.value;
      p <= bs
      && (AttemptOutcome(a) == Ok(true) ==>
            (p != [] && Reachable(p[|p| - 1], a.probe) && forall j :: 0 <= j < |p| - 1 ==> !Reachable(p[j], a.probe)))
      && (AttemptOutcome(a) == Ok(false) ==> p == bs && forall j :: 0 <= j < |p| ==> !Reachable(p[j], a.probe))
  {
  }

  /** The attempt is stamped whatever happens, even when listing fails;
      success sets the flag and clears the retry count, and failure
      leaves both alone. */
  lemma AttemptStateEffects(st: FallbackState, a: Attempt)
    ensures AttemptState(st, a).lastFallbackAttempt == Some(a.now)
    ensures AttemptOutcome(a) == Ok(true) ==> AttemptState(st, a).fallbackActive && AttemptState(st, a).retryCount == 0
    ensures AttemptOutcome(a) != Ok(true) ==>
      AttemptState(st, a).fallbackActive == st.fallbackActive && AttemptState(st, a).retryCount == st.retryCount
  {
  }

  /** The retry loop never fails, and succeeds iff some remaining attempt
      does. */
  lemma {:induction false} RetryResult(attempt: nat, delay: nat, st: FallbackState, sleeps: seq<nat>, env: nat -> Attempt)
    requires 1 <= attempt <= MAX_RETRIES + 1
    ensures RetryFrom(attempt, delay, st, sleeps, env).result.Ok?
    ensures RetryFrom(attempt, delay, st, sleeps, env).result == Ok(true) <==>
      exists i :: attempt <= i <= MAX_RETRIES as nat && AttemptOutcome(env(i)) == Ok(true)
    decreases MAX_RETRIES + 1 - attempt
  {
    if attempt <= MAX_RETRIES as nat && AttemptOutcome(env(attempt)) != Ok(true) {
      var st1 := AttemptState(st, env(attempt));
      var outcome := AttemptOutcome(env(attempt));
      var st2 :=
        if outcome.Err? then st1
        else if attempt < MAX_RETRIES as nat then st1.(retryCount := attempt)
        else st1.(retryCount := MAX_RETRIES);
      var more := attempt < MAX_RETRIES as nat;
      RetryResult(attempt + 1, if more then delay * 2 else delay, st2, if more then sleeps + [delay] else sleeps, env);
    }
  }

  /** The loop stops at the first successful attempt, and otherwise makes
      all four; the last attempt made is the one stamped. */
  lemma {:induction false} RetryAttempts(attempt: nat, delay: nat, st: FallbackState, sleeps: seq<nat>, env: nat -> Attempt)
    requires 1 <= attempt <= MAX_RETRIES
    ensures var run := RetryFrom(attempt, delay, st, sleeps, env);
      attempt <= run.attempts <= MAX_RETRIES as nat
      && (forall i :: attempt <= i < run.attempts ==> AttemptOutcome(env(i)) != Ok(true))
      && (run.result == Ok(true) ==> AttemptOutcome(env(run.attempts)) == Ok(true))
      && (run.result == Ok(false) ==> run.attempts == MAX_RETRIES as nat)
      && run.state.lastFallbackAttempt == Some(env(run.attempts).now)
    decreases MAX_RETRIES - attempt
  {
    if attempt < MAX_RETRIES as nat && AttemptOutcome(env(attempt)) != Ok(true) {
      var st1 := AttemptState(st, env(attempt));
      var outcome := AttemptOutcome(env(attempt));
      var st2 := if outcome.Err? then st1 else st1.(retryCount := attempt);
      RetryAttempts(attempt + 1, delay * 2, st2, sleeps + [delay], env);
    }
  }

  /** Between attempts the loop sleeps 1, 2 and then 4 seconds, and never
      after the last one: the sleeps are the first `attempts - 1` of
      those. */
  lemma {:induction false} RetrySleeps(attempt: nat, st: FallbackState, env: nat -> Attempt)
    requires 1 <= attempt <= MAX_RETRIES
    ensures var run := RetryFrom(attempt, Backoff(attempt), st, [1, 2, 4][..attempt - 1], env);
      1 <= run.attempts <= MAX_RETRIES as nat && run.sleeps == [1, 2, 4][..run.attempts - 1]
    decreases MAX_RETRIES - attempt
  {
    var sleeps := [1, 2, 4][..attempt - 1];
    if attempt < MAX_RETRIES as nat && AttemptOutcome(env(attempt)) != Ok(true) {
      var st1 := AttemptState(st, env(attempt));
      var outcome := AttemptOutcome(env(attempt));
      var st2 := if outcome.Err? then st1 else st1.(retryCount := attempt);
      assert sleeps + [Backoff(attempt)] == [1, 2, 4][..attempt];
      RetrySleeps(attempt + 1, st2, env);
    }
  }

  /** The retry count at the end: zero after a success; otherwise the
      number of the last attempt that returned `Ok(false)`, or unchanged
      when every remaining attempt failed with an error. */
  lemma {:induction false} RetryCount(attempt: nat, delay: nat, st: FallbackState, sleeps: seq<nat>, env: nat -> Attempt)
    requires 1 <= attempt <= MAX_RETRIES + 1
    ensures var run := RetryFrom(attempt, delay, st, sleeps, env);
      (run.result == Ok(true) ==> run.state.retryCount == 0 && run.state.fallbackActive)
      && (run.result == Ok(false) ==>
            run.state.fallbackActive == st.fallbackActive
            && ((run.state.retryCount == st.retryCount
                 && forall i :: attempt <= i <= MAX_RETRIES as nat ==> AttemptOutcome(env(i)).Err?)
                || (attempt <= run.state.retryCount as nat <= MAX_RETRIES as nat
                    && AttemptOutcome(env(run.state.retryCount as nat)) == Ok(false)
                    && forall i :: run.state.retryCount as nat < i <= MAX_RETRIES as nat ==> AttemptOutcome(env(i)).Err?)))
    decreases MAX_RETRIES + 1 - attempt
  {
    if attempt <= MAX_RETRIES as nat && AttemptOutcome(env(attempt)) != Ok(true) {
      var st1 := AttemptState(st, env(attempt));
      var outcome := AttemptOutcome(env(attempt));
      var st2 :=
        if outcome.Err? then st1
        else if attempt < MAX_RETRIES as nat then st1.(retryCount := attempt)
        else st1.(retryCount := MAX_RETRIES);
      assert st2.retryCount as nat == if outcome.Err? then st.retryCount as nat else attempt;
      var more := attempt < MAX_RETRIES as nat;
      RetryCount(attempt + 1, if more then delay * 2 else delay, st2, if more then sleeps + [delay] else sleeps, env);
    }
  }

  /** From a new or reset manager, a round in which every bridge of every
      attempt is unreachable ends with `Ok(false)` after four attempts
      and sleeps of 1, 2 and 4 seconds. */
  lemma AllUnreachable(env: nat -> Attempt)
    requires forall i :: 1 <= i <= MAX_RETRIES as nat ==> AttemptOutcome(env(i)) == Ok(false)
    ensures var run := RetrySpec(INITIAL_STATE, env);
      run.result == Ok(false) && run.attempts == 4 && run.sleeps == [1, 2, 4]
      && run.state.retryCount == 4 && !run.state.fallbackActive
  {
    RetryResult(1, 1, INITIAL_STATE, [], env);
    RetrySleeps(1, INITIAL_STATE, env);
    RetryAttempts(1, 1, INITIAL_STATE, [], env);
    RetryCount(1, 1, INITIAL_STATE, [], env);
    assert [1, 2, 4][..3] == [1, 2, 4];
    assert [1, 2, 4][..0] == [];
  }
}
