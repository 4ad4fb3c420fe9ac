/** How a TCP connection attempt made under a timeout ends. Every network
    probe of the program (the control-port connect, the bridge
    reachability tests) is modelled by one of these outcomes, supplied by
    the caller. */
module Probes {
  datatype ConnectOutcome = Connected | ConnectFailed | TimedOut
}
