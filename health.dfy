/** The health checker of src/core/health.rs. The probes that run external
    programs (`systemctl`, `iptables --version`, `dig`) are their outcomes,
    passed in; the two control-port probes run the control client of
    `TorControl` against a daemon given by its connect outcome and its
    replies. */
module Health {
  import opened Wrappers
  import opened Errors
  import opened Decimal
  import opened Text
  import opened Probes
  import opened TorCommands
  import opened TorControl

  datatype HealthStatus = HealthStatus(torDaemon: bool, torControl: bool, torCircuit: bool, iptables: bool, dns: bool)

  /** What each probe would observe. Each control-port probe opens its own
      client, so each has its own connect outcome; only the circuit probe
      talks to the daemon. */
  datatype Observations = Observations(
    daemonActive: bool,
    controlConnect: ConnectOutcome,
    circuitConnect: ConnectOutcome,
    cookie: Option<string>,
    circuitReplies: seq<Exchange>,
    iptablesOk: bool,
    dnsOk: bool)

  /** The probes in the order `check_all` may run them. */
  datatype Probe = DaemonProbe | ControlProbe | CircuitProbe | IptablesProbe | DnsProbe

  // ------------------------------------------------------- specification

  function Fields(h: HealthStatus): seq<bool> {
    [h.torDaemon, h.torControl, h.torCircuit, h.iptables, h.dns]
  }

  function TrueCount(bs: seq<bool>): (n: nat)
    ensures n <= |bs|
  {
    if bs == [] then 0 else (if bs[0] then 1 else 0) + TrueCount(bs[1..])
  }

  /** `is_healthy`. */
  predicate IsHealthy(h: HealthStatus): (r: bool)
    ensures r <==> 20 * TrueCount(Fields(h)) == 100
  {
    var f := Fields(h);
    AllTrueCount(f);
    assert f[0] == h.torDaemon && f[1] == h.torControl && f[2] == h.torCircuit;
    assert f[3] == h.iptables && f[4] == h.dns;
    h.torDaemon && h.torControl && h.torCircuit && h.iptables && h.dns
  }

  /** `check_tor_control` on a connect outcome. */
  function ControlVerdict(outcome: ConnectOutcome): bool {
    SessionConnect(NewSession(DEFAULT_CONTROL_PORT, []), outcome).result.Ok?
  }

  /** `check_tor_circuit`: connect, authenticate, read the status; the
      verdict is `circuit_established`, and any failure is `false`. */
  function CircuitVerdict(outcome: ConnectOutcome, cookie: Option<string>, replies: seq<Exchange>): bool {
    var c := SessionConnect(NewSession(DEFAULT_CONTROL_PORT, replies), outcome);
    if c.result.Err? then false
    else
      var a := SessionAuthenticate(c.session, cookie);
      if a.result.Err? then false
      else
        var g := SessionGetStatus(a.session);
        g.result.Ok? && g.result.value.circuitEstablished
  }

  /** The status `check_all` reports for the given observations. */
  function Assess(o: Observations): (h: HealthStatus)
    ensures h.torCircuit ==> h.torControl
    ensures h.torControl ==> h.torDaemon
  {
    var control := o.daemonActive && ControlVerdict(o.controlConnect);
    HealthStatus(o.daemonActive, control,
      control && CircuitVerdict(o.circuitConnect, o.cookie, o.circuitReplies),
      o.iptablesOk, o.dnsOk)
  }

  /** The probes `check_all` runs: control only when the daemon is up, the
      circuit only when control is up, and iptables and DNS always. */
  function ProbesRun(o: Observations): seq<Probe> {
    var h := Assess(o);
    [DaemonProbe] + (if h.torDaemon then [ControlProbe] else [])
      + (if h.torControl then [CircuitProbe] else []) + [IptablesProbe, DnsProbe]
  }

  // ------------------------------------------------------------- methods

  /** `HealthStatus::score`. */
  method Score(h: HealthStatus) returns (score: u8)
    ensures score == 20 * TrueCount(Fields(h))
  {
    var total: nat := 0;
    if h.torDaemon { total := total + 20; }
    if h.torControl { total := total + 20; }
    if h.torCircuit { total := total + 20; }
    if h.iptables { total := total + 20; }
    if h.dns { total := total + 20; }
    FieldsCount(h);
    score := total;
  }

  /** `check_tor_control`: a fresh client that only connects. */
  method CheckTorControl(outcome: ConnectOutcome) returns (ok: bool)
    ensures ok == ControlVerdict(outcome)
  {
    var client := new TorClient([]);
    var r := client.Connect(outcome);
    ok := r.Ok?;
  }

  /** `check_tor_circuit`. */
  method CheckTorCircuit(outcome: ConnectOutcome, cookie: Option<string>, replies: seq<Exchange>)
    returns (established: bool)
    ensures established == CircuitVerdict(outcome, cookie, replies)
  {
    var client := new TorClient(replies);
    var c := client.Connect(outcome);
    if c.Ok? {
      var a := client.Authenticate(cookie);
      if a.Ok? {
        var g := client.GetStatus();
        if g.Ok? {
          return g.value.circuitEstablished;
        }
      }
    }
    established := false;
  }

  /** `check_all`: fill in the status field by field; it never fails. The
      probes run are logged in order. */
  method CheckAll(o: Observations) returns (r: TorrerResult<HealthStatus>, probed: seq<Probe>)
    ensures r == Ok(Assess(o))
    ensures probed == ProbesRun(o)
  {
    var status := HealthStatus(false, false, false, false, false);
    status := status.(torDaemon := o.daemonActive);
    probed := [DaemonProbe];
    if status.torDaemon {
      var control := CheckTorControl(o.controlConnect);
      status := status.(torControl := control);
      probed := probed + [ControlProbe];
      if status.torControl {
        var circuit := CheckTorCircuit(o.circuitConnect, o.cookie, o.circuitReplies);
        status := status.(torCircuit := circuit);
        probed := probed + [CircuitProbe];
      }
    }
    status := status.(iptables := o.iptablesOk);
    status := status.(dns := o.dnsOk);
    probed := probed + [IptablesProbe, DnsProbe];
    r := Ok(status);
  }

  function Bit(b: bool): nat {
    if b then 1 else 0
  }

  lemma FieldsCount(h: HealthStatus)
    ensures TrueCount(Fields(h)) == Bit(h.torDaemon) + Bit(h.torControl) + Bit(h.torCircuit) + Bit(h.iptables) + Bit(h.dns)
  {
    var f5 := Fields(h);
    var f4, f3, f2, f1 := f5[1..], f5[2..], f5[3..], f5[4..];
    assert f1[1..] == [] && f2[1..] == f1 && f3[1..] == f2 && f4[1..] == f3;
    assert TrueCount(f1) == Bit(h.dns);
    assert TrueCount(f2) == Bit(h.iptables) + TrueCount(f1);
    assert TrueCount(f3) == Bit(h.torCircuit) + TrueCount(f2);
    assert TrueCount(f4) == Bit(h.torControl) + TrueCount(f3);
  }

  // ---------------------------------------------------------------- lemmas

  /** The score is a multiple of 20 from 0 to 100. */
  lemma ScoreRange(h: HealthStatus)
    ensures 20 * TrueCount(Fields(h)) <= 100 && (20 * TrueCount(Fields(h))) % 20 == 0
  {
  }

  lemma {:induction false} AllTrueCount(bs: seq<bool>)
    ensures TrueCount(bs) == |bs| <==> forall i :: 0 <= i < |bs| ==> bs[i]
  {
    if bs != [] {
      AllTrueCount(bs[1..]);
      assert forall i :: 1 <= i < |bs| ==> bs[i] == bs[1..][i - 1];
    }
  }

  /** The control probe passes exactly when the connection is made. */
  lemma ControlVerdictIff(outcome: ConnectOutcome)
    ensures ControlVerdict(outcome) <==> outcome == Connected
  {
  }

  /** The circuit probe never passes without a connection, and fails when
      the daemon has nothing to say. */
  lemma CircuitNeedsDaemon(outcome: ConnectOutcome, cookie: Option<string>)
    ensures CircuitVerdict(outcome, cookie, []) == false
  {
    var c := SessionConnect(NewSession(DEFAULT_CONTROL_PORT, []), outcome);
    if c.result.Ok? {
      assert SessionAuthenticate(c.session, cookie).result.Err?;
    }
  }

  /** Without a cookie, three replies none of which starts with `515`:
      bare authentication passes on the first whatever it says, and the
      circuit is established iff the second mentions
      `status/circuit-established=1`. */
  lemma CircuitWithoutCookie(auth: string, first: string, second: string, rest: seq<Exchange>)
    requires !StartsWith(auth, "515") && !StartsWith(first, "515") && !StartsWith(second, "515")
    ensures CircuitVerdict(Connected, None, [Reply(auth), Reply(first), Reply(second)] + rest)
      == Contains(first, "status/circuit-established=1")
  {
    var replies := [Reply(auth), Reply(first), Reply(second)] + rest;
    var s := NewSession(DEFAULT_CONTROL_PORT, replies).(connected := true);
    var a := SessionAuthenticate(s, None);
    assert a.result.Ok? && a.session.daemon == replies[1..] by {
      ReplyChecked(s, BuildAuthenticate(None), auth);
    }
    StatusFromReplies(a.session, first, second);
  }

  /** `check_all` with every probe passing reports a healthy system. */
  lemma AllPassingIsHealthy(o: Observations)
    requires o.daemonActive && o.controlConnect == Connected && o.iptablesOk && o.dnsOk
    requires CircuitVerdict(o.circuitConnect, o.cookie, o.circuitReplies)
    ensures IsHealthy(Assess(o))
    ensures ProbesRun(o) == [DaemonProbe, ControlProbe, CircuitProbe, IptablesProbe, DnsProbe]
  {
  }

  /** With the daemon down neither control-port probe runs, and the status
      is unhealthy whatever the others say. */
  lemma DaemonDownSkipsControl(o: Observations)
    requires !o.daemonActive
    ensures ProbesRun(o) == [DaemonProbe, IptablesProbe, DnsProbe]
    ensures !Assess(o).torControl && !Assess(o).torCircuit && !IsHealthy(Assess(o))
  {
  }
}
