/** A Tor bridge and its one-line text form (src/bridge/types.rs). */
module Bridges {
  import opened Wrappers
  import opened Text
  import opened Decimal

  datatype Bridge = Bridge(address: string, port: u16, fingerprint: Option<string>, transport: Option<string>)

  const EMPTY_LINE_MSG := "Empty bridge string"
  const NO_FIELDS_MSG := "Invalid bridge format. Expected IP:PORT"
  const NOT_ADDRESS_PORT_MSG := "Invalid bridge format. Expected IP:PORT (e.g., 1.2.3.4:443)"
  const EMPTY_ADDRESS_MSG := "Bridge address cannot be empty"
  const BAD_PORT_MSG := "Invalid port number. Must be between 1 and 65535"
  const ZERO_PORT_MSG := "Port number cannot be 0"

  /** `Bridge::new`: a bridge with neither fingerprint nor transport. */
  function NewBridge(address: string, port: u16): (b: Bridge)
    ensures b.address == address && b.port == port
    ensures WellFormed(b) <==> IsToken(address) && ':' !in address && port != 0
    ensures Validate(b).Ok? <==> address != [] && port != 0
  {
    Bridge(address, port, None, None)
  }

  /** A text that `split_whitespace` yields as one field. */
  predicate IsToken(s: string) {
    s != [] && NoWhitespace(s)
  }

  /** The bridges whose text form reads back as themselves. */
  predicate WellFormed(b: Bridge) {
    IsToken(b.address) && ':' !in b.address && b.port != 0
    && (b.fingerprint.Some? ==> IsToken(b.fingerprint.value))
    && (b.transport.Some? ==> IsToken(b.transport.value) && b.fingerprint.Some?)
  }

  /** The Tor-config keyword, dropped case-insensitively before the fields. */
  function StripBridgeKeyword(line: string): string {
    if StartsWith(Upper(line), "BRIDGE ") then line[7..] else line
  }

  /** `Bridge::from_str`: `[Bridge ]ADDRESS:PORT [FINGERPRINT [TRANSPORT]]`;
      further fields are ignored. */
  function FromStr(s: string): (r: Result<Bridge, string>)
    ensures r.Ok? ==> WellFormed(r.value)
  {
    var line := Trim(s);
    if line == [] then Err(EMPTY_LINE_MSG)
    else FromFields(SplitWhitespace(StripBridgeKeyword(line)))
  }

  /** The part of `from_str` that works on the whitespace-separated fields. */
  function FromFields(parts: seq<string>): (r: Result<Bridge, string>)
    requires forall k :: 0 <= k < |parts| ==> IsToken(parts[k])
    ensures r.Ok? ==> WellFormed(r.value)
  {
    if parts == [] then Err(NO_FIELDS_MSG)
    else
      assert NoWhitespace(parts[0]) && (|parts| > 1 ==> parts[1] != []) by {
        assert IsToken(parts[0]);
        assert |parts| > 1 ==> IsToken(parts[1]);
      }
      var addrParts := Split(parts[0], ':');
      if |addrParts| != 2 then Err(NOT_ADDRESS_PORT_MSG)
      else if addrParts[0] == [] then Err(EMPTY_ADDRESS_MSG)
      else match ParseU16(addrParts[1])
        case None => Err(BAD_PORT_MSG)
        case Some(port) =>
          if port == 0 then Err(ZERO_PORT_MSG)
          else
            SplitKeepsNoWhitespace(parts[0], ':');
            var fingerprint := if |parts| > 1 && parts[1] != [] then Some(parts[1]) else None;
            var transport := if |parts| > 2 then Some(parts[2]) else None;
            Ok(Bridge(addrParts[0], port, fingerprint, transport))
  }

  /** `Bridge::validate`: the address must be non-empty and the port non-zero;
      an odd fingerprint length is only logged. */
  function Validate(b: Bridge): (r: Result<Unit, string>)
    ensures r.Ok? <==> b.address != [] && b.port != 0
  {
    if b.address == [] then Err(EMPTY_ADDRESS_MSG)
    else if b.port == 0 then
      Err("Invalid port number: " + NatToString(b.port) + ". Must be between 1 and 65535")
    else Ok(Unit)
  }

  /** `Bridge::to_tor_config`: `Bridge ADDRESS:PORT[ FINGERPRINT][ TRANSPORT]`. */
  function ToTorConfig(b: Bridge): (line: string)
    ensures StartsWith(Upper(line), "BRIDGE ")
  {
    UpperBridgeKeyword(Fields(b));
    "Bridge " + Fields(b)
  }

  function Endpoint(b: Bridge): string {
    b.address + ":" + NatToString(b.port)
  }

  function OptionalField(f: Option<string>): string {
    if f.Some? then " " + f.value else ""
  }

  function Fields(b: Bridge): string {
    Endpoint(b) + OptionalField(b.fingerprint) + OptionalField(b.transport)
  }

  lemma {:induction false} SplitKeepsNoWhitespace(s: string, sep: char)
    requires NoWhitespace(s)
    ensures forall k :: 0 <= k < |Split(s, sep)| ==> NoWhitespace(Split(s, sep)[k])
    decreases |s|
  {
    if sep in s {
      var i := IndexOfChar(s, sep);
      SplitKeepsNoWhitespace(s[i + 1..], sep);
    }
  }

  // ---------------------------------------------------------------- lemmas

  /** Every parsed bridge passes `validate`. */
  lemma ParsedBridgeValidates(s: string)
    requires FromStr(s).Ok?
    ensures Validate(FromStr(s).value).Ok?
  {
  }

  /** The "no fields" error of `from_str` cannot happen: a trimmed non-empty
      line keeps at least one field after the keyword is dropped. */
  lemma FromStrAlwaysHasFields(s: string)
    ensures FromStr(s) != Err(NO_FIELDS_MSG)
  {
    var line := Trim(s);
    if line != [] {
      KeywordLeavesFields(line);
    }
  }

  lemma KeywordLeavesFields(line: string)
    requires line != [] && !IsWhitespace(line[|line| - 1])
    ensures SplitWhitespace(StripBridgeKeyword(line)) != []
  {
    var rest := StripBridgeKeyword(line);
    if StartsWith(Upper(line), "BRIDGE ") {
      assert Upper(line)[6] == ' ';
      assert |line| > 7;
      assert rest[|rest| - 1] == line[|line| - 1];
    }
    SplitWhitespaceEmpty(rest);
  }

  lemma UpperBridgeKeyword(s: string)
    ensures StartsWith(Upper("Bridge " + s), "BRIDGE ")
  {
    var u := Upper("Bridge " + s);
    assert u[..7] == "BRIDGE ";
  }

  /** A token followed by a space contributes exactly itself as the
      first field. */
  lemma SplitSpaced(first: string, rest: string)
    requires IsToken(first)
    ensures SplitWhitespace(first + " " + rest) == [first] + SplitWhitespace(rest)
  {
    assert first + " " + rest == first + (" " + rest);
    SplitWhitespaceCons(first, " " + rest);
    SplitWhitespaceSkip(' ', rest);
  }

  lemma EndpointToken(b: Bridge)
    requires WellFormed(b)
    ensures IsToken(Endpoint(b))
    ensures Endpoint(b)[|Endpoint(b)| - 1] == NatToString(b.port)[|NatToString(b.port)| - 1]
  {
    var e := Endpoint(b);
    var ps := NatToString(b.port);
    assert forall i :: 0 <= i < |ps| ==> IsDigit(ps[i]);
    assert forall i :: 0 <= i < |e| ==> e[i] == (if i < |b.address| then b.address[i] else if i == |b.address| then ':' else ps[i - |b.address| - 1]);
  }

  /** The text form of the fields holds no whitespace besides the single
      spaces between them and ends in a non-whitespace character. */
  lemma FieldsSplit(b: Bridge)
    requires WellFormed(b)
    ensures SplitWhitespace(Fields(b)) ==
      [Endpoint(b)]
      + (if b.fingerprint.Some? then [b.fingerprint.value] else [])
      + (if b.transport.Some? then [b.transport.value] else [])
    ensures !IsWhitespace(Fields(b)[|Fields(b)| - 1])
  {
    var e := Endpoint(b);
    EndpointToken(b);
    assert !IsWhitespace(e[|e| - 1]) by {
      var ps := NatToString(b.port);
      assert IsDigit(ps[|ps| - 1]);
    }
    if b.fingerprint.None? {
      assert Fields(b) == e;
      SplitWhitespaceSingle(e);
    } else if b.transport.None? {
      var f := b.fingerprint.value;
      assert Fields(b) == e + " " + f;
      SplitSpaced(e, f);
      SplitWhitespaceSingle(f);
    } else {
      FieldsSplitFull(b, e, b.fingerprint.value, b.transport.value);
    }
  }

  lemma FieldsSplitFull(b: Bridge, e: string, f: string, t: string)
    requires IsToken(e) && IsToken(f) && IsToken(t)
    requires e == Endpoint(b) && b.fingerprint == Some(f) && b.transport == Some(t)
    ensures SplitWhitespace(Fields(b)) == [e, f, t]
    ensures Fields(b)[|Fields(b)| - 1] == t[|t| - 1]
  {
    assert Fields(b) == e + " " + (f + " " + t);
    SplitThree(e, f, t);
  }

  lemma SplitThree(e: string, f: string, t: string)
    requires IsToken(e) && IsToken(f) && IsToken(t)
    ensures SplitWhitespace(e + " " + (f + " " + t)) == [e, f, t]
    ensures (e + " " + (f + " " + t))[|e + " " + (f + " " + t)| - 1] == t[|t| - 1]
  {
    SplitSpaced(e, f + " " + t);
    SplitSpaced(f, t);
    SplitWhitespaceSingle(t);
  }

  lemma EndpointSplit(b: Bridge)
    requires WellFormed(b)
    ensures Split(Endpoint(b), ':') == [b.address, NatToString(b.port)]
  {
    var ps := NatToString(b.port);
    assert ':' !in ps by {
      assert forall i :: 0 <= i < |ps| ==> IsDigit(ps[i]);
    }
    SplitTwo(b.address, ps, ':');
  }

  /** `from_str` reads back what `to_tor_config` wrote, for every bridge
      whose fields are single whitespace-free tokens. */
  lemma ParseToTorConfig(b: Bridge)
    requires WellFormed(b)
    ensures FromStr(ToTorConfig(b)) == Ok(b)
  {
    TorConfigIsTrimmed(b);
    TorConfigKeyword(b);
    FromFieldsOfBridge(b);
  }

  lemma TorConfigIsTrimmed(b: Bridge)
    requires WellFormed(b)
    ensures Trim(ToTorConfig(b)) == ToTorConfig(b)
  {
    var line := ToTorConfig(b);
    FieldsSplit(b);
    assert line[|line| - 1] == Fields(b)[|Fields(b)| - 1];
    TrimIdentity(line);
  }

  lemma TorConfigKeyword(b: Bridge)
    ensures StartsWith(Upper(ToTorConfig(b)), "BRIDGE ")
    ensures StripBridgeKeyword(ToTorConfig(b)) == Fields(b)
  {
    UpperBridgeKeyword(Fields(b));
  }

  lemma FromFieldsOfBridge(b: Bridge)
    requires WellFormed(b)
    ensures FromFields(SplitWhitespace(Fields(b))) == Ok(b)
  {
    FieldsSplit(b);
    EndpointSplit(b);
    ParseU16NatToString(b.port);
  }

  /** The round trip fails for a bridge that has a transport but no
      fingerprint: the transport is read back as the fingerprint. */
  lemma TransportWithoutFingerprintMisread()
    ensures var b := Bridge("1.2.3.4", 443, None, Some("obfs4"));
      FromStr(ToTorConfig(b)) == Ok(Bridge("1.2.3.4", 443, Some("obfs4"), None))
  {
    var b := Bridge("1.2.3.4", 443, None, Some("obfs4"));
    var b' := Bridge("1.2.3.4", 443, Some("obfs4"), None);
    assert ToTorConfig(b) == ToTorConfig(b') by {
      assert Fields(b) == Fields(b');
    }
    ParseToTorConfig(b');
  }

  /** Parsing is a normal form: writing a parsed bridge and reading it again
      gives the same bridge. */
  lemma ParseWriteParse(s: string)
    requires FromStr(s).Ok?
    ensures FromStr(ToTorConfig(FromStr(s).value)) == FromStr(s)
  {
    ParseToTorConfig(FromStr(s).value);
  }

  /** `Bridge::new` with a proper address and port survives the text form. */
  lemma NewBridgeRoundTrip(address: string, port: u16)
    requires IsToken(address) && ':' !in address && port != 0
    ensures FromStr(ToTorConfig(NewBridge(address, port))) == Ok(NewBridge(address, port))
  {
    ParseToTorConfig(NewBridge(address, port));
  }
  // ------------------------------------------------- what from_str accepts

  /** The field stage of `from_str`, case by case: each way the first field
      can fail gives its own error, and otherwise the bridge holds the
      address and port of the first field and the second and third fields
      as they are, whatever their form; later fields are ignored. */
  lemma FromFieldsOutcome(parts: seq<string>)
    requires forall k :: 0 <= k < |parts| ==> IsToken(parts[k])
    ensures parts == [] ==> FromFields(parts) == Err(NO_FIELDS_MSG)
    ensures parts != [] ==>
      (var ap := Split(parts[0], ':');
       var port := if |ap| == 2 then ParseU16(ap[1]) else None;
       && (|ap| != 2 ==> FromFields(parts) == Err(NOT_ADDRESS_PORT_MSG))
       && (|ap| == 2 && ap[0] == [] ==> FromFields(parts) == Err(EMPTY_ADDRESS_MSG))
       && (|ap| == 2 && ap[0] != [] && port.None? ==> FromFields(parts) == Err(BAD_PORT_MSG))
       && (|ap| == 2 && ap[0] != [] && port == Some(0) ==> FromFields(parts) == Err(ZERO_PORT_MSG))
       && (FromFields(parts).Ok? <==> |ap| == 2 && ap[0] != [] && port.Some? && port.value != 0)
       && (FromFields(parts).Ok? ==>
             FromFields(parts).value
             == Bridge(ap[0], port.value,
                       if |parts| > 1 then Some(parts[1]) else None,
                       if |parts| > 2 then Some(parts[2]) else None)))
  {
  }

  /** `from_str` refuses exactly the blank texts with "Empty bridge string";
      any other text goes to the field stage after trimming and dropping
      the keyword. */
  lemma FromStrOutcome(s: string)
    ensures FromStr(s) == Err(EMPTY_LINE_MSG) <==> forall i :: 0 <= i < |s| ==> IsWhitespace(s[i])
    ensures Trim(s) != [] ==> FromStr(s) == FromFields(SplitWhitespace(StripBridgeKeyword(Trim(s))))
  {
    TrimEmptyIffAllWhitespace(s);
    if Trim(s) != [] {
      var parts := SplitWhitespace(StripBridgeKeyword(Trim(s)));
      FromFieldsOutcome(parts);
      assert EMPTY_LINE_MSG[0] == 'E';
      assert NO_FIELDS_MSG[0] == 'I' && NOT_ADDRESS_PORT_MSG[0] == 'I' && BAD_PORT_MSG[0] == 'I';
      assert EMPTY_ADDRESS_MSG[0] == 'B' && ZERO_PORT_MSG[0] == 'P';
    }
  }

  /** The keyword is optional: `Bridge `, `bridge ` or any other casing of
      it before a trimmed line that does not itself start with the keyword
      parses like the line alone. */
  lemma KeywordOptional(kw: string, line: string)
    requires |kw| == 7 && Upper(kw) == "BRIDGE "
    requires line != [] && Trim(line) == line && !StartsWith(Upper(line), "BRIDGE ")
    ensures FromStr(kw + line) == FromStr(line)
  {
    var s := kw + line;
    assert UpperChar(kw[0]) == 'B';
    assert !IsWhitespace(s[0]);
    assert !IsWhitespace(s[|s| - 1]) by {
      assert s[|s| - 1] == line[|line| - 1];
    }
    TrimIdentity(s);
    UpperAppend(kw, line);
    assert Upper(s)[..7] == Upper(kw);
    assert s[7..] == line;
  }

  /** A trimmed text without the keyword goes to the field stage whole. */
  lemma FromStrOfTrimmed(s: string)
    requires s != [] && Trim(s) == s && !StartsWith(Upper(s), "BRIDGE ")
    ensures FromStr(s) == FromFields(SplitWhitespace(s))
  {
  }

  /** A text whose first character does not upper-case to `B` does not
      start with the keyword. */
  lemma NotKeyword(s: string)
    requires s != [] && UpperChar(s[0]) != 'B'
    ensures !StartsWith(Upper(s), "BRIDGE ")
  {
  }

  /** A one-field text goes to the field stage as that field. */
  lemma FieldOnly(field: string)
    requires IsToken(field) && !StartsWith(Upper(field), "BRIDGE ")
    ensures FromStr(field) == FromFields([field])
  {
    TrimIdentity(field);
    FromStrOfTrimmed(field);
    SplitWhitespaceSingle(field);
  }

  /** `ADDRESS:PORT` is one field, split at its one colon. */
  lemma EndpointField(address: string, port: string)
    requires NoWhitespace(address) && NoWhitespace(port) && ':' !in address && ':' !in port
    ensures IsToken(address + ":" + port)
    ensures Split(address + ":" + port, ':') == [address, port]
  {
    var e := address + ":" + port;
    assert address + [':'] + port == e;
    SplitTwo(address, port, ':');
    assert NoWhitespace(e) by {
      forall i | 0 <= i < |e| ensures !IsWhitespace(e[i]) {
        if i < |address| {
          assert e[i] == address[i];
        } else if i > |address| {
          assert e[i] == port[i - |address| - 1];
        }
      }
    }
  }

  /** A lone `ADDRESS:PORT` field, split at its one colon. */
  lemma EndpointOnly(address: string, port: string)
    requires NoWhitespace(address) && NoWhitespace(port) && ':' !in address && ':' !in port
    requires !StartsWith(Upper(address + ":" + port), "BRIDGE ")
    ensures FromStr(address + ":" + port) == FromFields([address + ":" + port])
    ensures Split(address + ":" + port, ':') == [address, port]
  {
    EndpointField(address, port);
    FieldOnly(address + ":" + port);
  }

  /** A lone `ADDRESS:PORT` field whose text does not start with `B`. */
  lemma BadEndpoint(address: string, port: string)
    requires NoWhitespace(address) && NoWhitespace(port) && ':' !in address && ':' !in port
    requires UpperChar((address + ":" + port)[0]) != 'B'
    ensures FromStr(address + ":" + port) == FromFields([address + ":" + port])
    ensures Split(address + ":" + port, ':') == [address, port]
  {
    NotKeyword(address + ":" + port);
    EndpointOnly(address, port);
  }
}
