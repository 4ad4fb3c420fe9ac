/** The engine of src/core/engine.rs: starting and stopping transparent
    routing through Tor. Its collaborators are reduced to their outcomes:
    the control port is the client of `TorControl` against a daemon given
    by its connect outcome, cookie and replies; each iptables, DNS and IPv6
    operation succeeds or fails as given. The engine records, in order,
    every system operation it asks for, so what `start` leaves behind and
    what `stop` cleans up can be stated. The persisted state file that
    `stop` and the fallback update, and the 2 s pause of `restart`, are not
    modelled. */
module Engine {
  import opened Wrappers
  import opened Errors
  import opened Text
  import opened Probes
  import TorControl
  import Fallback

  datatype EngineStatus = EngineStatus(isRunning: bool, torConnected: bool, circuitEstablished: bool)

  /** The system operations the engine asks its managers for. */
  datatype SystemCall = Backup | ApplyRouting | ConfigureDns | DisableIpv6 | RemoveRouting | RemoveDns | Restore

  /** What `start` meets: the control port, and how each system
      operation ends. */
  datatype StartWorld = StartWorld(
    connect: ConnectOutcome,
    cookie: Option<string>,
    daemon: seq<TorControl.Exchange>,
    backup: TorrerResult<Unit>,
    routing: TorrerResult<Unit>,
    dns: TorrerResult<Unit>,
    ipv6: TorrerResult<Unit>)

  /** What `stop` meets: how each cleanup operation ends, the second
      restore included. */
  datatype StopWorld = StopWorld(
    removeRouting: TorrerResult<Unit>,
    removeDns: TorrerResult<Unit>,
    restore: TorrerResult<Unit>,
    restoreAgain: TorrerResult<Unit>)

  /** The engine's fields: whether routing is on, the client it keeps, and
      the system operations asked for so far. */
  datatype EngineState = EngineState(isRunning: bool, torClient: Option<TorControl.Session>, calls: seq<SystemCall>)

  /** A result and the engine's state after the call. */
  datatype EngineStep<T> = EngineStep(result: TorrerResult<T>, state: EngineState)

  /** The system calls made while setting up and how setup ended. */
  datatype SetupRun = SetupRun(calls: seq<SystemCall>, result: TorrerResult<Unit>)

  const INITIAL_STATE := EngineState(false, None, [])
  const ALREADY_RUNNING := Tor("Tor routing is already running")
  const FALLBACK_FAILED := Tor("Fallback to bridges failed")
  const SETUP_CALLS: seq<SystemCall> := [Backup, ApplyRouting, ConfigureDns, DisableIpv6]

  // ------------------------------------------------------- specification

  /** Backup, routing rules, DNS and IPv6, stopping at the first failure. */
  function Setup(w: StartWorld): (r: SetupRun)
    ensures 1 <= |r.calls| <= 4 && r.calls == SETUP_CALLS[..|r.calls|]
    ensures r.result.Ok? <==> w.backup.Ok? && w.routing.Ok? && w.dns.Ok? && w.ipv6.Ok?
  {
    if w.backup.Err? then SetupRun([Backup], w.backup)
    else if w.routing.Err? then SetupRun([Backup, ApplyRouting], w.routing)
    else if w.dns.Err? then SetupRun([Backup, ApplyRouting, ConfigureDns], w.dns)
    else SetupRun(SETUP_CALLS, w.ipv6)
  }

  /** `start` from the state `st`. */
  function StartSpec(st: EngineState, w: StartWorld): EngineStep<Unit> {
    if st.isRunning then EngineStep(Err(ALREADY_RUNNING), st)
    else
      var c := TorControl.SessionConnect(TorControl.NewSession(TorControl.DEFAULT_CONTROL_PORT, w.daemon), w.connect);
      if c.result.Err? then EngineStep(Err(c.result.error), st)
      else
        var a := TorControl.SessionAuthenticate(c.session, w.cookie);
        if a.result.Err? then EngineStep(Err(a.result.error), st)
        else
          var setup := Setup(w);
          var st1 := st.(calls := st.calls + setup.calls);
          if setup.result.Err? then EngineStep(Err(setup.result.error), st1)
          else
            var g := TorControl.SessionGetStatus(a.session);
            if g.result.Err? then EngineStep(Err(g.result.error), st1)
            else EngineStep(Ok(Unit), EngineState(true, Some(g.session), st1.calls))
  }

  /** The cleanup calls `stop` makes: all three, and the restore once more
      when it failed. */
  function CleanupCalls(w: StopWorld): seq<SystemCall> {
    [RemoveRouting, RemoveDns, Restore] + (if w.restore.Err? then [Restore] else [])
  }

  /** The errors `stop` collects, in order. */
  function StopErrors(w: StopWorld): seq<string> {
    (if w.removeRouting.Err? then ["Failed to remove routing rules: " + Display(w.removeRouting.error)] else [])
    + (if w.removeDns.Err? then ["Failed to remove DNS config: " + Display(w.removeDns.error)] else [])
    + (if w.restore.Err? then ["Failed to restore iptables: " + Display(w.restore.error)] else [])
  }

  /** The error list of `stop`, built one cleanup step at a time. */
  lemma StopErrorsSteps(w: StopWorld, e1: seq<string>, e2: seq<string>, e3: seq<string>)
    requires e1 == if w.removeRouting.Err? then ["Failed to remove routing rules: " + Display(w.removeRouting.error)] else []
    requires e2 == e1 + if w.removeDns.Err? then ["Failed to remove DNS config: " + Display(w.removeDns.error)] else []
    requires e3 == e2 + if w.restore.Err? then ["Failed to restore iptables: " + Display(w.restore.error)] else []
    ensures e3 == StopErrors(w)
  {
  }

  /** `stop` from the state `st`. */
  function StopSpec(st: EngineState, w: StopWorld): EngineStep<Unit> {
    if !st.isRunning then EngineStep(Ok(Unit), st)
    else
      var errors := StopErrors(w);
      var st1 := EngineState(false, None, st.calls + CleanupCalls(w));
      if errors == [] then EngineStep(Ok(Unit), st1)
      else EngineStep(Err(Tor("Tor routing stopped with errors: " + Join(errors, "; "))), st1)
  }

  /** `status` from the state `st`: the client is asked when there is
      one, and its session moves on. */
  function StatusSpec(st: EngineState): EngineStep<EngineStatus> {
    if !st.isRunning then EngineStep(Ok(EngineStatus(false, false, false)), st)
    else match st.torClient
      case None => EngineStep(Ok(EngineStatus(true, false, false)), st)
      case Some(s) =>
        var g := TorControl.SessionGetStatus(s);
        var st1 := st.(torClient := Some(g.session));
        if g.result.Ok? then
          EngineStep(Ok(EngineStatus(true, g.result.value.isConnected, g.result.value.circuitEstablished)), st1)
        else EngineStep(Ok(EngineStatus(true, false, false)), st1)
  }

  /** The engine's `attempt_fallback` with a fresh fallback manager. */
  function FallbackSpec(st: EngineState, a: Fallback.Attempt): EngineStep<Unit> {
    match Fallback.AttemptOutcome(a)
    case Ok(true) => EngineStep(Ok(Unit), st.(isRunning := true))
    case Ok(false) => EngineStep(Err(FALLBACK_FAILED), st)
    case Err(e) => EngineStep(Err(e), st)
  }

  /** `restart`: stop, ignoring its errors; start; and when that fails,
      the fallback. */
  function RestartSpec(st: EngineState, stopWorld: StopWorld, startWorld: StartWorld, a: Fallback.Attempt): EngineStep<Unit> {
    var stopped := StopSpec(st, stopWorld).state;
    var started := StartSpec(stopped, startWorld);
    if started.result.Ok? then started
    else
      var fb := FallbackSpec(started.state, a);
      if fb.result.Err? then
        EngineStep(Err(Tor("Restart failed: start error: " + Display(started.result.error)
                           + ", fallback error: " + Display(fb.result.error))), fb.state)
      else fb
  }

  /** What the engine keeps true between calls: a stopped engine holds no
      client. */
  predicate Consistent(st: EngineState) {
    !st.isRunning ==> st.torClient.None?
  }

  /** Every operation keeps the engine consistent. */
  lemma ConsistentPreserved(st: EngineState, startWorld: StartWorld, stopWorld: StopWorld, a: Fallback.Attempt)
    requires Consistent(st)
    ensures Consistent(INITIAL_STATE)
    ensures Consistent(StartSpec(st, startWorld).state)
    ensures Consistent(StopSpec(st, stopWorld).state)
    ensures Consistent(StatusSpec(st).state)
    ensures Consistent(FallbackSpec(st, a).state)
  {
  }

  /** So does `restart`, which runs them in turn. */
  lemma RestartConsistent(st: EngineState, stopWorld: StopWorld, startWorld: StartWorld, a: Fallback.Attempt)
    requires Consistent(st)
    ensures Consistent(RestartSpec(st, stopWorld, startWorld, a).state)
  {
    var stopped := StopSpec(st, stopWorld).state;
    ConsistentPreserved(st, startWorld, stopWorld, a);
    var started := StartSpec(stopped, startWorld);
    ConsistentPreserved(stopped, startWorld, stopWorld, a);
    ConsistentPreserved(started.state, startWorld, stopWorld, a);
  }

  // ------------------------------------------------------------- methods

  class TorrerEngine {
    var isRunning: bool
    var torClient: Option<TorControl.Session>
    var calls: seq<SystemCall>

    function State(): EngineState
      reads this
    {
      EngineState(isRunning, torClient, calls)
    }

    constructor ()
      ensures State() == INITIAL_STATE
    {
      isRunning, torClient, calls := false, None, [];
    }

    /** One system operation: recorded, and its outcome passed on. */
    method Call(call: SystemCall, outcome: TorrerResult<Unit>) returns (r: TorrerResult<Unit>)
      modifies this
      ensures r == outcome
      ensures State() == old(State()).(calls := old(calls) + [call])
    {
      calls := calls + [call];
      r := outcome;
    }

    /** `start`. */
    method Start(w: StartWorld) returns (r: TorrerResult<Unit>)
      modifies this
      ensures EngineStep(r, State()) == StartSpec(old(State()), w)
    {
      if isRunning {
        return Err(ALREADY_RUNNING);
      }
      var client := new TorControl.TorClient(w.daemon);
      var c := client.Connect(w.connect);
      if c.Err? {
        return Err(c.error);
      }
      var a := client.Authenticate(w.cookie);
      if a.Err? {
        return Err(a.error);
      }
      r := SetupSystem(w);
      if r.Err? {
        return;
      }
      var status := client.GetStatus();
      if status.Err? {
        return Err(status.error);
      }
      // An unestablished circuit is only worth a warning.
      torClient := Some(client.State());
      isRunning := true;
      r := Ok(Unit);
    }

    /** The four system steps of `start`, each with `?`. */
    method SetupSystem(w: StartWorld) returns (r: TorrerResult<Unit>)
      modifies this
      ensures r == Setup(w).result
      ensures State() == old(State()).(calls := old(calls) + Setup(w).calls)
    {
      r := Call(Backup, w.backup);
      if r.Err? {
        return;
      }
      r := Call(ApplyRouting, w.routing);
      if r.Err? {
        return;
      }
      r := Call(ConfigureDns, w.dns);
      if r.Err? {
        return;
      }
      r := Call(DisableIpv6, w.ipv6);
    }

    /** `stop`: every cleanup step runs, failures are collected, and the
        engine ends stopped without a client. */
    method Stop(w: StopWorld) returns (r: TorrerResult<Unit>)
      modifies this
      ensures EngineStep(r, State()) == StopSpec(old(State()), w)
    {
      if !isRunning {
        return Ok(Unit);
      }
      ghost var calls0 := calls;
      var errors: seq<string> := [];
      var removed := Call(RemoveRouting, w.removeRouting);
      if removed.Err? {
        errors := errors + ["Failed to remove routing rules: " + Display(removed.error)];
      }
      ghost var errors1 := errors;
      var dnsRemoved := Call(RemoveDns, w.removeDns);
      if dnsRemoved.Err? {
        errors := errors + ["Failed to remove DNS config: " + Display(dnsRemoved.error)];
      }
      ghost var errors2 := errors;
      assert calls == calls0 + [RemoveRouting, RemoveDns];
      var restored := Call(Restore, w.restore);
      if restored.Err? {
        errors := errors + ["Failed to restore iptables: " + Display(restored.error)];
        var _ := Call(Restore, w.restoreAgain);
      }
      assert calls == calls0 + CleanupCalls(w);
      StopErrorsSteps(w, errors1, errors2, errors);
      torClient := None;
      isRunning := false;
      if errors == [] {
        r := Ok(Unit);
      } else {
        r := Err(Tor("Tor routing stopped with errors: " + Join(errors, "; ")));
      }
    }

    /** `stop_with_verification`: `stop`, then nothing more is checked. */
    method StopWithVerification(w: StopWorld) returns (r: TorrerResult<Unit>)
      modifies this
      ensures EngineStep(r, State()) == StopSpec(old(State()), w)
    {
      r := Stop(w);
      if r.Err? {
        return;
      }
      r := Ok(Unit);
    }

    /** `status`. */
    method Status() returns (r: TorrerResult<EngineStatus>)
      modifies this
      ensures EngineStep(r, State()) == StatusSpec(old(State()))
    {
      if !isRunning {
        return Ok(EngineStatus(false, false, false));
      }
      match torClient
      case None =>
        r := Ok(EngineStatus(true, false, false));
      case Some(s) =>
        var client := new TorControl.TorClient(s.daemon);
        client.connected, client.controlPort, client.sent := s.connected, s.controlPort, s.sent;
        var status := client.GetStatus();
        torClient := Some(client.State());
        match status
        case Ok(st) => r := Ok(EngineStatus(true, st.isConnected, st.circuitEstablished));
        case Err(_) => r := Ok(EngineStatus(true, false, false));
    }

    /** The engine's `attempt_fallback`: a new fallback manager makes one
        attempt; success marks routing as running. */
    method AttemptFallback(a: Fallback.Attempt) returns (r: TorrerResult<Unit>)
      modifies this
      ensures EngineStep(r, State()) == FallbackSpec(old(State()), a)
    {
      var manager := new Fallback.FallbackManager();
      var outcome, _ := manager.AttemptFallback(a);
      match outcome
      case Ok(true) =>
        isRunning := true;
        r := Ok(Unit);
      case Ok(false) =>
        r := Err(FALLBACK_FAILED);
      case Err(e) =>
        r := Err(e);
    }

    /** `restart`. */
    method Restart(stopWorld: StopWorld, startWorld: StartWorld, a: Fallback.Attempt) returns (r: TorrerResult<Unit>)
      modifies this
      ensures EngineStep(r, State()) == RestartSpec(old(State()), stopWorld, startWorld, a)
    {
      var _ := Stop(stopWorld);
      r := Start(startWorld);
      if r.Ok? {
        return;
      }
      var fallback := AttemptFallback(a);
      if fallback.Err? {
        r := Err(Tor("Restart failed: start error: " + Display(r.error) + ", fallback error: " + Display(fallback.error)));
        return;
      }
      r := Ok(Unit);
    }
  }

  /** `TorrerEngine::new`: fails when the iptables manager cannot be
      created. */
  method NewEngine(iptables: TorrerResult<Unit>) returns (r: TorrerResult<TorrerEngine>)
    ensures r.Ok? <==> iptables.Ok?
    ensures r.Err? ==> r.error == iptables.error
    ensures r.Ok? ==> fresh(r.value) && r.value.State() == INITIAL_STATE
  {
    if iptables.Err? {
      return Err(iptables.error);
    }
    var engine := new TorrerEngine();
    r := Ok(engine);
  }

  // ---------------------------------------------------------------- lemmas

  /** A new engine reports everything off. */
  lemma NewEngineStatus()
    ensures StatusSpec(INITIAL_STATE) == EngineStep(Ok(EngineStatus(false, false, false)), INITIAL_STATE)
  {
  }

  /** `start` on a running engine fails and changes nothing. */
  lemma StartWhileRunning(st: EngineState, w: StartWorld)
    requires st.isRunning
    ensures StartSpec(st, w) == EngineStep(Err(ALREADY_RUNNING), st)
  {
  }

  /** `start` succeeds exactly when the engine was stopped and connect,
      authenticate, the four system steps and the status query all
      succeed, whether or not a circuit is established; the engine is then
      running, keeps the client, and has asked for the four steps. */
  lemma StartSucceeds(st: EngineState, w: StartWorld)
    ensures var r := StartSpec(st, w);
      var c := TorControl.SessionConnect(TorControl.NewSession(TorControl.DEFAULT_CONTROL_PORT, w.daemon), w.connect);
      var a := TorControl.SessionAuthenticate(c.session, w.cookie);
      r.result.Ok? <==>
        !st.isRunning && w.connect == Connected && a.result.Ok?
        && w.backup.Ok? && w.routing.Ok? && w.dns.Ok? && w.ipv6.Ok?
        && TorControl.SessionGetStatus(a.session).result.Ok?
    ensures var r := StartSpec(st, w);
      r.result.Ok? ==> r.state.isRunning && r.state.torClient.Some? && r.state.calls == st.calls + SETUP_CALLS
  {
  }

  /** A failed `start` on a stopped engine leaves it stopped with its
      client, but what setup did is not undone: the calls made are a
      prefix of the setup steps, with no cleanup among them. */
  lemma StartFailureNotRolledBack(st: EngineState, w: StartWorld)
    requires !st.isRunning && StartSpec(st, w).result.Err?
    ensures var s := StartSpec(st, w).state;
      !s.isRunning && s.torClient == st.torClient
      && |st.calls| <= |s.calls| && s.calls[..|st.calls|] == st.calls
      && s.calls[|st.calls|..] <= SETUP_CALLS
      && (forall k :: |st.calls| <= k < |s.calls| ==> s.calls[k] != RemoveRouting && s.calls[k] != RemoveDns && s.calls[k] != Restore)
  {
    var s := StartSpec(st, w).state;
    var added := s.calls[|st.calls|..];
    assert s.calls == st.calls + added;
    forall k | |st.calls| <= k < |s.calls|
      ensures s.calls[k] != RemoveRouting && s.calls[k] != RemoveDns && s.calls[k] != Restore
    {
      assert s.calls[k] == added[k - |st.calls|];
      assert added[k - |st.calls|] in SETUP_CALLS;
    }
  }

  /** Setup that fails at its first step asks for the backup only, while
      a failure at the routing rules leaves the backup taken and nothing
      restored. */
  lemma SetupStopsAtFailure(w: StartWorld)
    ensures w.backup.Err? ==> Setup(w) == SetupRun([Backup], w.backup)
    ensures w.backup.Ok? && w.routing.Err? ==> Setup(w).calls == [Backup, ApplyRouting] && Setup(w).result == w.routing
  {
  }

  /** `stop` on a stopped engine succeeds and does nothing. */
  lemma StopWhenStopped(st: EngineState, w: StopWorld)
    requires !st.isRunning
    ensures StopSpec(st, w) == EngineStep(Ok(Unit), st)
  {
  }

  /** `stop` on a running engine always ends stopped without a client,
      after all three cleanup steps (the restore twice when it failed);
      it fails iff one of the three steps failed. */
  lemma StopCleansUp(st: EngineState, w: StopWorld)
    requires st.isRunning
    ensures var r := StopSpec(st, w);
      !r.state.isRunning && r.state.torClient.None?
      && r.state.calls == st.calls + [RemoveRouting, RemoveDns, Restore] + (if w.restore.Err? then [Restore] else [])
      && (r.result.Err? <==> w.removeRouting.Err? || w.removeDns.Err? || w.restore.Err?)
  {
    var errors := StopErrors(w);
    assert errors == [] <==> !(w.removeRouting.Err? || w.removeDns.Err? || w.restore.Err?);
  }

  /** The message lists every failure, each with its step. */
  lemma StopErrorsListed(w: StopWorld)
    ensures |StopErrors(w)| == (if w.removeRouting.Err? then 1 else 0) + (if w.removeDns.Err? then 1 else 0)
                                + (if w.restore.Err? then 1 else 0)
    ensures w.restore.Err? ==>
      StopErrors(w)[|StopErrors(w)| - 1] == "Failed to restore iptables: " + Display(w.restore.error)
    ensures w.removeRouting.Err? ==>
      StopErrors(w)[0] == "Failed to remove routing rules: " + Display(w.removeRouting.error)
  {
  }

  /** `status` never fails; it reports running exactly when the engine
      is, and Tor flags only while running. */
  lemma StatusReports(st: EngineState)
    ensures var r := StatusSpec(st);
      r.result.Ok? && r.result.value.isRunning == st.isRunning
      && (r.result.value.torConnected ==> st.isRunning && st.torClient.Some?)
      && (r.result.value.circuitEstablished ==> st.isRunning && st.torClient.Some?)
      && r.state.isRunning == st.isRunning && r.state.calls == st.calls
  {
  }

  /** While running with a client whose status query succeeds, the Tor
      flags are the client's; when it fails both are false. */
  lemma StatusFromClient(st: EngineState)
    requires st.isRunning && st.torClient.Some?
    ensures var g := TorControl.SessionGetStatus(st.torClient.value);
      var r := StatusSpec(st);
      (g.result.Ok? ==> r.result.value.torConnected == g.result.value.isConnected
                        && r.result.value.circuitEstablished == g.result.value.circuitEstablished)
      && (g.result.Err? ==> !r.result.value.torConnected && !r.result.value.circuitEstablished)
  {
  }

  /** After `start` succeeds, `status` reports the engine running. */
  lemma StartThenStatus(st: EngineState, w: StartWorld)
    requires StartSpec(st, w).result.Ok?
    ensures StatusSpec(StartSpec(st, w).state).result.value.isRunning
  {
  }

  /** `restart` ignores how `stop` went: its outcome is that of starting
      from the stopped engine, then of the fallback. Success through the
      fallback leaves the engine marked running but without a client; a
      failed restart leaves it stopped. */
  lemma RestartOutcome(st: EngineState, stopWorld: StopWorld, startWorld: StartWorld, a: Fallback.Attempt)
    requires Consistent(st)
    ensures var stopped := StopSpec(st, stopWorld).state;
      var r := RestartSpec(st, stopWorld, startWorld, a);
      !stopped.isRunning
      && (r.result.Ok? <==> StartSpec(stopped, startWorld).result.Ok? || Fallback.AttemptOutcome(a) == Ok(true))
      && (r.result.Ok? && StartSpec(stopped, startWorld).result.Err? ==> r.state.isRunning && r.state.torClient.None?)
      && (r.result.Err? ==> !r.state.isRunning)
  {
    var stopped := StopSpec(st, stopWorld).state;
    if st.isRunning {
      StopCleansUp(st, stopWorld);
    }
    if StartSpec(stopped, startWorld).result.Err? {
      StartFailureNotRolledBack(stopped, startWorld);
    }
  }

  /** The engine's fallback succeeds iff some listed bridge is reachable. */
  lemma FallbackOutcome(st: EngineState, a: Fallback.Attempt)
    ensures FallbackSpec(st, a).result.Ok? <==>
      a.listing.Ok? && exists k :: 0 <= k < |a.listing.value| && Fallback.Reachable(a.listing.value[k], a.probe)
    ensures FallbackSpec(st, a).state.calls == st.calls && FallbackSpec(st, a).state.torClient == st.torClient
  {
    Fallback.AttemptOutcomeMeaning(a);
  }
}
