/** The crate's error enum (src/error/types.rs). The `Io` and `Json` variants wrap
    foreign error values; here they carry only their message. */
module Errors {
  import opened Wrappers

  datatype TorrerError =
    | Tor(message: string)
    | Iptables(message: string)
    | Config(message: string)
    | Bridge(message: string)
    | Io(message: string)
    | Parse(message: string)
    | Json(message: string)

  /** The `Display` text of an error: a prefix naming the kind, then the
      message. */
  function Display(e: TorrerError): (text: string)
    ensures |text| > |e.message|
    ensures text[|text| - |e.message|..] == e.message
  {
    match e
    case Tor(m) => "Tor error: " + m
    case Iptables(m) => "iptables error: " + m
    case Config(m) => "Configuration error: " + m
    case Bridge(m) => "Bridge error: " + m
    case Io(m) => "IO error: " + m
    case Parse(m) => "Parse error: " + m
    case Json(m) => "JSON error: " + m
  }

  /** `TorrerResult<T>`. */
  type TorrerResult<T> = Result<T, TorrerError>
}
