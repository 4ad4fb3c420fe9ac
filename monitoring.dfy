/** Connection and traffic counters (src/core/monitoring.rs). Instants are
    natural numbers of milliseconds on a monotonic clock, passed in as
    `now`. The counters are fixed-width and wrap around on overflow, as
    in a release build. */
module Monitoring {
  import opened Wrappers
  import opened Decimal
  import opened Errors
  import TorControl

  /** A snapshot of the counters (`Statistics`); the success rate is an
      exact real, the `f64` rounding is not modelled. */
  datatype Statistics = Statistics(
    uptime: Option<nat>,
    bytesSent: u64,
    bytesReceived: u64,
    connectionAttempts: u32,
    successfulConnections: u32,
    successRate: real)

  /** `ConnectionStatus`: what the daemon reports about the connection. */
  datatype ConnectionStatus = ConnectionStatus(
    isConnected: bool,
    circuitEstablished: bool,
    circuitInfo: Option<TorControl.CircuitInfo>)

  /** `Instant::elapsed`, which saturates at zero. */
  function Elapsed(start: nat, now: nat): nat {
    if now >= start then now - start else 0
  }

  /** Successful connections per hundred attempts; 0 with no attempts. */
  function SuccessRate(successes: nat, attempts: nat): (r: real)
    ensures attempts == 0 ==> r == 0.0
    ensures attempts > 0 ==> r * (attempts as real) == (successes as real) * 100.0
    ensures r >= 0.0
  {
    if attempts > 0 then (successes as real / attempts as real) * 100.0 else 0.0
  }

  class Monitoring {
    var startTime: Option<nat>
    var bytesSent: u64
    var bytesReceived: u64
    var connectionAttempts: u32
    var successfulConnections: u32

    /** `Monitoring::new`. */
    constructor ()
      ensures startTime == None
      ensures bytesSent == 0 && bytesReceived == 0
      ensures connectionAttempts == 0 && successfulConnections == 0
    {
      startTime := None;
      bytesSent, bytesReceived := 0, 0;
      connectionAttempts, successfulConnections := 0, 0;
    }

    method Start(now: nat)
      modifies this
      ensures startTime == Some(now)
      ensures bytesSent == old(bytesSent) && bytesReceived == old(bytesReceived)
      ensures connectionAttempts == old(connectionAttempts) && successfulConnections == old(successfulConnections)
    {
      startTime := Some(now);
    }

    method Stop()
      modifies this
      ensures startTime == None
      ensures bytesSent == old(bytesSent) && bytesReceived == old(bytesReceived)
      ensures connectionAttempts == old(connectionAttempts) && successfulConnections == old(successfulConnections)
    {
      startTime := None;
    }

    /** `uptime`: none unless started. */
    function Uptime(now: nat): (r: Option<nat>)
      reads this
      ensures r.None? <==> startTime.None?
      ensures r.Some? ==> r.value == Elapsed(startTime.value, now)
    {
      match startTime
      case None => None
      case Some(start) => Some(Elapsed(start, now))
    }

    method RecordConnectionAttempt()
      modifies this
      ensures connectionAttempts == Wrap32(old(connectionAttempts) + 1)
      ensures startTime == old(startTime) && successfulConnections == old(successfulConnections)
      ensures bytesSent == old(bytesSent) && bytesReceived == old(bytesReceived)
    {
      connectionAttempts := Wrap32(connectionAttempts + 1);
    }

    method RecordSuccessfulConnection()
      modifies this
      ensures successfulConnections == Wrap32(old(successfulConnections) + 1)
      ensures startTime == old(startTime) && connectionAttempts == old(connectionAttempts)
      ensures bytesSent == old(bytesSent) && bytesReceived == old(bytesReceived)
    {
      successfulConnections := Wrap32(successfulConnections + 1);
    }

    method RecordBytesSent(bytes: u64)
      modifies this
      ensures bytesSent == Wrap64(old(bytesSent) + bytes)
      ensures startTime == old(startTime) && bytesReceived == old(bytesReceived)
      ensures connectionAttempts == old(connectionAttempts) && successfulConnections == old(successfulConnections)
    {
      bytesSent := Wrap64(bytesSent + bytes);
    }

    method RecordBytesReceived(bytes: u64)
      modifies this
      ensures bytesReceived == Wrap64(old(bytesReceived) + bytes)
      ensures startTime == old(startTime) && bytesSent == old(bytesSent)
      ensures connectionAttempts == old(connectionAttempts) && successfulConnections == old(successfulConnections)
    {
      bytesReceived := Wrap64(bytesReceived + bytes);
    }

    /** `get_stats`: the four counters as they are, the uptime, and the
      success rate computed from the two connection counters. */
    function GetStats(now: nat): (st: Statistics)
      reads this
      ensures st.uptime.None? <==> startTime.None?
      ensures st.bytesSent == bytesSent && st.bytesReceived == bytesReceived
      ensures st.connectionAttempts == connectionAttempts && st.successfulConnections == successfulConnections
      ensures connectionAttempts == 0 ==> st.successRate == 0.0
      ensures connectionAttempts > 0 ==>
        st.successRate * (connectionAttempts as real) == (successfulConnections as real) * 100.0
    {
      Statistics(Uptime(now), bytesSent, bytesReceived, connectionAttempts, successfulConnections,
        SuccessRate(successfulConnections, connectionAttempts))
    }

    /** `get_connection_status`: one status query on the client; its error
      is passed on, and on success the three fields are copied over. */
    method GetConnectionStatus(client: TorControl.TorClient) returns (r: TorrerResult<ConnectionStatus>)
      modifies client
      ensures client.State() == TorControl.SessionGetStatus(old(client.State())).session
      ensures var q := TorControl.SessionGetStatus(old(client.State())).result;
        (q.Err? ==> r == Err(q.error))
        && (q.Ok? ==> r == Ok(ConnectionStatus(q.value.isConnected, q.value.circuitEstablished, q.value.circuitInfo)))
    {
      var status := client.GetStatus();
      if status.Err? {
        return Err(status.error);
      }
      r := Ok(ConnectionStatus(status.value.isConnected, status.value.circuitEstablished, status.value.circuitInfo));
    }
  }

  // ---------------------------------------------------------------- lemmas

  /** The rate is a percentage while successes do not outnumber attempts. */
  lemma SuccessRateBounded(successes: nat, attempts: nat)
    requires successes <= attempts
    ensures 0.0 <= SuccessRate(successes, attempts) <= 100.0
  {
    if attempts > 0 {
      var r := SuccessRate(successes, attempts);
      var a := attempts as real;
      assert r * a == (successes as real) * 100.0;
      assert (successes as real) * 100.0 <= a * 100.0;
      assert r <= 100.0 by {
        assert a >= 1.0;
        assert r * a <= 100.0 * a;
      }
    }
  }

  /** Nothing ties successes to attempts, so the rate can pass 100: one
      attempt and two successes give 200. */
  lemma SuccessRateCanExceed100()
    ensures SuccessRate(2, 1) == 200.0
  {
  }
}
