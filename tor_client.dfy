/** The control-port client (src/tor/client.rs). The TCP stream is not
    modelled; what the daemon does is an oracle: the outcome of the
    connect attempt is a parameter, and each command exchange takes the
    next entry of `daemon`, which is either the whole reply (the single
    4096-byte read is taken to return all of it) or the I/O failure that
    ends the exchange. Commands written to the socket are recorded in
    `sent`. */
module TorControl {
  import opened Wrappers
  import opened Errors
  import opened Text
  import opened Decimal
  import opened Probes
  import opened TorCommands

  const DEFAULT_CONTROL_PORT: u16 := 9051

  const NOT_CONNECTED := Tor("Not connected to Tor")
  const AUTH_REQUIRED := Tor("Authentication required")
  const AUTH_FAILED := Tor("Authentication failed. Please check Tor configuration.")

  /** One command exchange as the daemon plays it; a failed write or read
      carries the text of its I/O error. */
  datatype Exchange = Reply(text: string) | WriteFailed(reason: string) | ReadTimedOut | ReadFailed(reason: string)

  datatype CircuitInfo = CircuitInfo(status: string)

  datatype TorStatus = TorStatus(isConnected: bool, circuitEstablished: bool, circuitInfo: Option<CircuitInfo>)

  /** The client's state: whether it holds a stream, its port, and the
      conversation so far. */
  datatype Session = Session(connected: bool, controlPort: u16, sent: seq<string>, daemon: seq<Exchange>)

  /** A result together with the session after the call. */
  datatype Step<T> = Step(result: TorrerResult<T>, session: Session)

  /** `TorClient::with_port`; `TorClient::new` is this with port 9051. */
  function NewSession(port: u16, daemon: seq<Exchange>): Session {
    Session(false, port, [], daemon)
  }

  /** The next exchange; a daemon with nothing more to say never answers. */
  function NextExchange(daemon: seq<Exchange>): Exchange {
    if daemon == [] then ReadTimedOut else daemon[0]
  }

  function Remaining(daemon: seq<Exchange>): seq<Exchange> {
    if daemon == [] then [] else daemon[1..]
  }

  /** `connect`: the stream is stored only when the connection is made;
      otherwise nothing changes. */
  function SessionConnect(s: Session, outcome: ConnectOutcome): (r: Step<Unit>)
    ensures r.result.Ok? <==> outcome == Connected
    ensures r.result.Ok? ==> r.session == s.(connected := true)
    ensures r.result.Err? ==> r.session == s && r.result.error.Tor?
  {
    match outcome
    case Connected => Step(Ok(Unit), s.(connected := true))
    case ConnectFailed => Step(Err(Tor("Failed to connect to Tor control port. Is Tor running?")), s)
    case TimedOut => Step(Err(Tor("Connection timeout. Is Tor running?")), s)
  }

  /** `send_raw_command`: write the command, read one reply, and turn a
      reply starting with `515` into an error. */
  function SessionSendRaw(s: Session, command: string): (r: Step<string>)
    ensures r.session.connected == s.connected && r.session.controlPort == s.controlPort
    ensures r.result.Ok? ==> s.connected && !StartsWith(r.result.value, "515")
    ensures r.result.Ok? ==> r.session.sent == s.sent + [command]
    ensures r.result.Ok? ==> NextExchange(s.daemon) == Reply(r.result.value)
    ensures s.connected && NextExchange(s.daemon).WriteFailed? ==>
      r.result == Err(Tor("Failed to write command: " + NextExchange(s.daemon).reason)) && r.session.sent == s.sent
    ensures s.connected && NextExchange(s.daemon).ReadFailed? ==>
      r.result == Err(Tor("Failed to read response: " + NextExchange(s.daemon).reason))
  {
    if !s.connected then Step(Err(NOT_CONNECTED), s)
    else
      var rest := Remaining(s.daemon);
      match NextExchange(s.daemon)
      case WriteFailed(e) => Step(Err(Tor("Failed to write command: " + e)), s.(daemon := rest))
      case ReadTimedOut => Step(Err(Tor("Read timeout")), s.(sent := s.sent + [command], daemon := rest))
      case ReadFailed(e) => Step(Err(Tor("Failed to read response: " + e)), s.(sent := s.sent + [command], daemon := rest))
      case Reply(text) =>
        var s' := s.(sent := s.sent + [command], daemon := rest);
        if StartsWith(text, "515") then Step(Err(AUTH_REQUIRED), s')
        else Step(Ok(text), s')
  }

  /** `authenticate`. `cookie` is the hex-encoded content of the cookie
      file, or `None` when it cannot be read: cookie authentication first,
      then bare `AUTHENTICATE`. */
  function SessionAuthenticate(s: Session, cookie: Option<string>): (r: Step<Unit>)
    ensures r.session.connected == s.connected && r.session.controlPort == s.controlPort
    ensures r.result.Ok? ==> s.connected
  {
    if !s.connected then Step(Err(NOT_CONNECTED), s)
    else
      var s1 := if cookie.Some? then SessionSendRaw(s, BuildAuthenticate(cookie)) else Step(Err(NOT_CONNECTED), s);
      if cookie.Some? && s1.result.Ok? && Contains(s1.result.value, "250") then Step(Ok(Unit), s1.session)
      else
        var s2 := SessionSendRaw(s1.session, BuildAuthenticate(None));
        if s2.result.Err? then Step(Err(AUTH_FAILED), s2.session)
        else Step(Ok(Unit), s2.session)
  }

  /** `get_status`: two GETINFO queries. */
  function SessionGetStatus(s: Session): (r: Step<TorStatus>)
    ensures r.session.connected == s.connected && r.session.controlPort == s.controlPort
    ensures r.result.Ok? ==> r.result.value.isConnected && r.result.value.circuitInfo.Some?
  {
    if !s.connected then Step(Err(NOT_CONNECTED), s)
    else
      var s1 := SessionSendRaw(s, BuildGetinfo("status/circuit-established"));
      if s1.result.Err? then Step(Err(s1.result.error), s1.session)
      else
        var established := Contains(s1.result.value, "status/circuit-established=1");
        var s2 := SessionSendRaw(s1.session, BuildGetinfo("circuit-status"));
        if s2.result.Err? then Step(Err(s2.result.error), s2.session)
        else Step(Ok(TorStatus(true, established, Some(CircuitInfo(s2.result.value)))), s2.session)
  }

  /** `TorClient`: the stream (here whether there is one) and the port,
      with the daemon's side of the conversation. */
  class TorClient {
    var connected: bool
    var controlPort: u16
    var sent: seq<string>
    var daemon: seq<Exchange>

    function State(): Session
      reads this
    {
      Session(connected, controlPort, sent, daemon)
    }

    /** `TorClient::new`. */
    constructor (daemon: seq<Exchange>)
      ensures State() == NewSession(DEFAULT_CONTROL_PORT, daemon)
    {
      connected, controlPort, sent := false, DEFAULT_CONTROL_PORT, [];
      this.daemon := daemon;
    }

    /** `TorClient::with_port`. */
    constructor WithPort(port: u16, daemon: seq<Exchange>)
      ensures State() == NewSession(port, daemon)
    {
      connected, controlPort, sent := false, port, [];
      this.daemon := daemon;
    }

    method Connect(outcome: ConnectOutcome) returns (r: TorrerResult<Unit>)
      modifies this
      ensures Step(r, State()) == SessionConnect(old(State()), outcome)
    {
      match outcome
      case Connected =>
        connected := true;
        r := Ok(Unit);
      case ConnectFailed =>
        r := Err(Tor("Failed to connect to Tor control port. Is Tor running?"));
      case TimedOut =>
        r := Err(Tor("Connection timeout. Is Tor running?"));
    }

    method SendRawCommand(command: string) returns (r: TorrerResult<string>)
      modifies this
      ensures Step(r, State()) == SessionSendRaw(old(State()), command)
    {
      if !connected {
        return Err(NOT_CONNECTED);
      }
      var exchange := NextExchange(daemon);
      daemon := Remaining(daemon);
      if exchange.WriteFailed? {
        return Err(Tor("Failed to write command: " + exchange.reason));
      }
      sent := sent + [command];
      match exchange
      case ReadTimedOut => r := Err(Tor("Read timeout"));
      case ReadFailed(e) => r := Err(Tor("Failed to read response: " + e));
      case Reply(text) =>
        if StartsWith(text, "515") {
          r := Err(AUTH_REQUIRED);
        } else {
          r := Ok(text);
        }
    }

    /** `send_command` is `send_raw_command`. */
    method SendCommand(command: string) returns (r: TorrerResult<string>)
      modifies this
      ensures Step(r, State()) == SessionSendRaw(old(State()), command)
    {
      r := SendRawCommand(command);
    }

    method Authenticate(cookie: Option<string>) returns (r: TorrerResult<Unit>)
      modifies this
      ensures Step(r, State()) == SessionAuthenticate(old(State()), cookie)
    {
      if !connected {
        return Err(NOT_CONNECTED);
      }
      if cookie.Some? {
        var response := SendRawCommand(BuildAuthenticate(cookie));
        if response.Ok? && Contains(response.value, "250") {
          return Ok(Unit);
        }
      }
      var bare := SendRawCommand(BuildAuthenticate(None));
      if bare.Err? {
        return Err(AUTH_FAILED);
      }
      r := Ok(Unit);
    }

    method GetStatus() returns (r: TorrerResult<TorStatus>)
      modifies this
      ensures Step(r, State()) == SessionGetStatus(old(State()))
    {
      if !connected {
        return Err(NOT_CONNECTED);
      }
      var response := SendRawCommand(BuildGetinfo("status/circuit-established"));
      if response.Err? {
        return Err(response.error);
      }
      var established := Contains(response.value, "status/circuit-established=1");
      var circuitResponse := SendRawCommand(BuildGetinfo("circuit-status"));
      if circuitResponse.Err? {
        return Err(circuitResponse.error);
      }
      r := Ok(TorStatus(true, established, Some(CircuitInfo(circuitResponse.value))));
    }
  }

  // ---------------------------------------------------------------- lemmas

  /** Without a stream every request fails with "Not connected to Tor" and
      nothing is sent or read. */
  lemma UnconnectedSendsNothing(s: Session, command: string, cookie: Option<string>)
    requires !s.connected
    ensures SessionSendRaw(s, command) == Step(Err(NOT_CONNECTED), s)
    ensures SessionAuthenticate(s, cookie) == Step(Err(NOT_CONNECTED), s)
    ensures SessionGetStatus(s) == Step(Err(NOT_CONNECTED), s)
  {
  }

  /** A reply starting with `515` is an error whatever the command; any
      other reply is returned verbatim. */
  lemma ReplyChecked(s: Session, command: string, text: string)
    requires s.connected && NextExchange(s.daemon) == Reply(text)
    ensures SessionSendRaw(s, command).result == if StartsWith(text, "515") then Err(AUTH_REQUIRED) else Ok(text)
    ensures SessionSendRaw(s, command).session == s.(sent := s.sent + [command], daemon := s.daemon[1..])
  {
  }

  /** Cookie authentication succeeds on any reply containing `250`
      anywhere, after sending `AUTHENTICATE <cookie>` alone. */
  lemma CookieAccepted(s: Session, cookie: string, text: string)
    requires s.connected && NextExchange(s.daemon) == Reply(text)
    requires !StartsWith(text, "515") && Contains(text, "250")
    ensures SessionAuthenticate(s, Some(cookie)).result == Ok(Unit)
    ensures SessionAuthenticate(s, Some(cookie)).session.sent == s.sent + ["AUTHENTICATE " + cookie + CRLF]
  {
  }

  /** Bare authentication never looks at the reply: any reply not
      starting with `515` is accepted. */
  lemma BareAuthenticationAcceptsAnyReply(s: Session, text: string)
    requires s.connected && NextExchange(s.daemon) == Reply(text)
    ensures SessionAuthenticate(s, None).result.Ok? <==> !StartsWith(text, "515")
    ensures SessionAuthenticate(s, None).session.sent == s.sent + ["AUTHENTICATE" + CRLF]
  {
  }

  /** A rejected cookie falls back to bare authentication, whose reply
      alone decides. */
  lemma CookieRejectedFallsBack(s: Session, cookie: string, text: string)
    requires s.connected && NextExchange(s.daemon) == Reply(text)
    requires !Contains(text, "250")
    ensures var s1 := SessionSendRaw(s, BuildAuthenticate(Some(cookie))).session;
      SessionAuthenticate(s, Some(cookie)) == SessionAuthenticate(s1, None)
  {
  }

  /** `get_status` sends `GETINFO status/circuit-established` and then
      `GETINFO circuit-status`; the circuit counts as established iff the
      first reply mentions `status/circuit-established=1`, and the second
      reply is the circuit information verbatim. */
  lemma StatusFromReplies(s: Session, first: string, second: string)
    requires s.connected && |s.daemon| >= 2
    requires s.daemon[0] == Reply(first) && s.daemon[1] == Reply(second)
    requires !StartsWith(first, "515") && !StartsWith(second, "515")
    ensures SessionGetStatus(s).result == Ok(TorStatus(true, Contains(first, "status/circuit-established=1"), Some(CircuitInfo(second))))
    ensures SessionGetStatus(s).session.sent == s.sent + [BuildGetinfo("status/circuit-established"), BuildGetinfo("circuit-status")]
    ensures SessionGetStatus(s).session.daemon == s.daemon[2..]
  {
    var c1, c2 := BuildGetinfo("status/circuit-established"), BuildGetinfo("circuit-status");
    var r1 := SessionSendRaw(s, c1);
    assert r1 == Step(Ok(first), s.(sent := s.sent + [c1], daemon := s.daemon[1..])) by {
      ReplyChecked(s, c1, first);
    }
    var s1 := r1.session;
    assert NextExchange(s1.daemon) == Reply(second);
    var r2 := SessionSendRaw(s1, c2);
    assert r2 == Step(Ok(second), s1.(sent := s1.sent + [c2], daemon := s1.daemon[1..])) by {
      ReplyChecked(s1, c2, second);
    }
    assert s.daemon[1..][1..] == s.daemon[2..];
  }

  /** A failed connect leaves an unconnected client unconnected, so every
      later request fails without sending. */
  lemma FailedConnectStaysUnconnected(port: u16, daemon: seq<Exchange>, outcome: ConnectOutcome)
    requires outcome != Connected
    ensures !SessionConnect(NewSession(port, daemon), outcome).session.connected
  {
  }
}
