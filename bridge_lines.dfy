/** What `Bridge::from_str` makes of whole lines: which texts it refuses
    with which message, which it accepts and with what fields. */
module BridgeLines {
  import opened Wrappers
  import opened Text
  import opened Decimal
  import opened Bridges

  /** A trimmed text without the keyword whose fields are `ts` goes to the
      field stage as `ts`. */
  lemma FromStrIs(s: string, ts: seq<string>)
    requires s != [] && Trim(s) == s && !StartsWith(Upper(s), "BRIDGE ")
    requires SplitWhitespace(s) == ts
    ensures FromStr(s) == FromFields(ts)
  {
    FromStrOfTrimmed(s);
  }

  lemma JoinedLineFacts(s: string, ts: seq<string>)
    requires s == Join(ts, " ")
    requires ts != [] && forall k :: 0 <= k < |ts| ==> ts[k] != [] && NoWhitespace(ts[k])
    requires UpperChar(ts[0][0]) != 'B'
    ensures s != [] && Trim(s) == s && !StartsWith(Upper(s), "BRIDGE ")
    ensures SplitWhitespace(s) == ts
  {
    JoinedTokensEnds(ts);
    assert NoWhitespace(ts[0]) && NoWhitespace(ts[|ts| - 1]);
    TrimIdentity(s);
    NotKeyword(s);
    SplitJoinedTokens(ts);
  }

  /** Fields written one space apart, the first not starting with `B`, go
      to the field stage as they are. */
  lemma JoinedLine(s: string, ts: seq<string>)
    requires s == Join(ts, " ")
    requires ts != [] && forall k :: 0 <= k < |ts| ==> ts[k] != [] && NoWhitespace(ts[k])
    requires UpperChar(ts[0][0]) != 'B'
    ensures FromStr(s) == FromFields(ts)
  {
    JoinedLineFacts(s, ts);
    FromStrIs(s, ts);
  }

  /** The field stage reads no field after the third. */
  lemma FieldsAfterThirdIgnored(parts: seq<string>)
    requires |parts| > 3 && forall k :: 0 <= k < |parts| ==> parts[k] != [] && NoWhitespace(parts[k])
    ensures FromFields(parts) == FromFields(parts[..3])
  {
    FromFieldsOutcome(parts);
    FromFieldsOutcome(parts[..3]);
  }

  /** A line of more than three fields parses as its first three do:
      whatever follows the transport is ignored. */
  lemma ExtraFieldsIgnored(s: string, ts: seq<string>, head: seq<string>)
    requires |ts| > 3 && forall k :: 0 <= k < |ts| ==> ts[k] != [] && NoWhitespace(ts[k])
    requires s == Join(ts, " ") && head == ts[..3]
    requires UpperChar(ts[0][0]) != 'B'
    ensures FromStr(s) == FromFields(head)
  {
    FieldsAfterThirdIgnored(ts);
    JoinedLine(s, ts);
  }

  /** The field stage on a lone field that splits at one colon. */
  lemma EndpointFields(e: string, address: string, port: string)
    requires IsToken(e) && Split(e, ':') == [address, port]
    ensures address == [] ==> FromFields([e]) == Err(EMPTY_ADDRESS_MSG)
    ensures address != [] && ParseU16(port).None? ==> FromFields([e]) == Err(BAD_PORT_MSG)
    ensures address != [] && ParseU16(port) == Some(0) ==> FromFields([e]) == Err(ZERO_PORT_MSG)
    ensures address != [] && ParseU16(port).Some? && ParseU16(port).value != 0 ==>
      FromFields([e]) == Ok(Bridge(address, ParseU16(port).value, None, None))
  {
    FromFieldsOutcome([e]);
  }

  /** `ADDRESS:PORT` with a non-empty address and a port from 1 to 65535
      is accepted with the address kept exactly as written: it is not
      checked to be an IP address. */
  lemma EndpointAccepted(s: string, address: string, port: string, n: nat)
    requires s == address + ":" + port
    requires IsToken(address) && NoWhitespace(port) && ':' !in address && ':' !in port
    requires UpperChar(address[0]) != 'B'
    requires ParseU16(port) == Some(n) && n != 0
    ensures FromStr(s) == Ok(Bridge(address, n, None, None))
  {
    EndpointField(address, port);
    BadEndpoint(address, port);
    EndpointFields(s, address, port);
  }

  /** A port that does not parse as a `u16` is refused. */
  lemma BadPortRejected(s: string, address: string, port: string)
    requires s == address + ":" + port
    requires IsToken(address) && NoWhitespace(port) && ':' !in address && ':' !in port
    requires UpperChar(address[0]) != 'B'
    requires ParseU16(port).None?
    ensures FromStr(s) == Err(BAD_PORT_MSG)
  {
    EndpointField(address, port);
    BadEndpoint(address, port);
    EndpointFields(s, address, port);
  }

  /** A port that parses as 0 is refused. */
  lemma ZeroPortRejected(s: string, address: string, port: string)
    requires s == address + ":" + port
    requires IsToken(address) && NoWhitespace(port) && ':' !in address && ':' !in port
    requires UpperChar(address[0]) != 'B'
    requires ParseU16(port) == Some(0)
    ensures FromStr(s) == Err(ZERO_PORT_MSG)
  {
    EndpointField(address, port);
    BadEndpoint(address, port);
    EndpointFields(s, address, port);
  }

  /** A field that starts with its colon has an empty address and is
      refused, whatever the port. */
  lemma EmptyAddressRejected(s: string, port: string)
    requires s == ":" + port
    requires NoWhitespace(port) && ':' !in port
    ensures FromStr(s) == Err(EMPTY_ADDRESS_MSG)
  {
    assert s == [] + ":" + port;
    BadEndpoint([], port);
    EndpointFields(s, [], port);
  }

  lemma WrongColonFields(s: string)
    requires IsToken(s) && |Split(s, ':')| != 2
    ensures FromFields([s]) == Err(NOT_ADDRESS_PORT_MSG)
  {
    FromFieldsOutcome([s]);
  }

  /** A lone field that does not split into exactly two pieces at `:` is
      refused as not `ADDRESS:PORT`. */
  lemma WrongColonCount(s: string)
    requires IsToken(s) && UpperChar(s[0]) != 'B' && |Split(s, ':')| != 2
    ensures FromStr(s) == Err(NOT_ADDRESS_PORT_MSG)
  {
    NotKeyword(s);
    FieldOnly(s);
    WrongColonFields(s);
  }

  /** A lone field without a colon is refused as not `ADDRESS:PORT`. */
  lemma NoColonRejected(s: string)
    requires IsToken(s) && ':' !in s && UpperChar(s[0]) != 'B'
    ensures FromStr(s) == Err(NOT_ADDRESS_PORT_MSG)
  {
    WrongColonCount(s);
  }

  lemma ExtraColonSplit(s: string, head: string, rest: string)
    requires s == head + ":" + rest
    requires ':' !in head && ':' in rest
    ensures |Split(s, ':')| > 2
  {
    assert s == head + [':'] + rest;
    SplitCons(head, rest, ':');
    SplitAtSeparator(rest, ':');
  }

  /** A lone field with a second colon, such as a bare IPv6 address with a
      port, is refused as not `ADDRESS:PORT`. */
  lemma ExtraColonRejected(s: string, head: string, rest: string)
    requires s == head + ":" + rest
    requires NoWhitespace(s) && ':' !in head && ':' in rest
    requires UpperChar(s[0]) != 'B'
    ensures FromStr(s) == Err(NOT_ADDRESS_PORT_MSG)
  {
    ExtraColonSplit(s, head, rest);
    WrongColonCount(s);
  }

  /** `ADDRESS:PORT` and a second field: the second field is kept as the
      fingerprint whatever its form, not only as 40 hexadecimal digits. */
  lemma FingerprintKept(s: string, address: string, port: string, n: nat, fp: string)
    requires s == address + ":" + port + " " + fp
    requires IsToken(address) && NoWhitespace(port) && ':' !in address && ':' !in port && IsToken(fp)
    requires UpperChar(address[0]) != 'B'
    requires ParseU16(port) == Some(n) && n != 0
    ensures FromStr(s) == Ok(Bridge(address, n, Some(fp), None))
  {
    var e := address + ":" + port;
    EndpointField(address, port);
    assert Join([e, fp], " ") == s;
    JoinedLine(s, [e, fp]);
    FromFieldsOutcome([e, fp]);
  }

  /** The keyword in any casing before a line without surrounding
      whitespace is dropped. */
  lemma KeywordDropped(s: string, kw: string, line: string)
    requires s == kw + line && |kw| == 7 && Upper(kw) == "BRIDGE "
    requires line != [] && !IsWhitespace(line[0]) && !IsWhitespace(line[|line| - 1])
    requires UpperChar(line[0]) != 'B'
    ensures FromStr(s) == FromStr(line)
  {
    TrimIdentity(line);
    NotKeyword(line);
    KeywordOptional(kw, line);
  }

  // ---------------------------------------------------------- worked texts

  lemma Port443()
    ensures ParseU16("443") == Some(443)
  {
    assert "443"[..2] == "44" && "44"[..1] == "4" && "4"[..0] == [];
    assert DigitsValue("443") == 443;
  }

  lemma Port0()
    ensures ParseU16("0") == Some(0)
  {
    assert DigitsValue("0") == 0 by { assert "0"[..0] == []; }
  }

  lemma Port70000()
    ensures ParseU16("70000") == None
  {
    assert "70000"[..4] == "7000" && "7000"[..3] == "700" && "700"[..2] == "70" && "70"[..1] == "7";
    assert "7"[..0] == [];
    assert DigitsValue("70000") == 70000;
  }

  lemma PortAbc()
    ensures ParseU16("abc") == None
  {
    assert !IsDigit("abc"[0]);
  }

  lemma LowerKeyword()
    ensures Upper("bridge ") == "BRIDGE "
  {
  }

  lemma EmptyTextRejected()
    ensures FromStr("") == Err(EMPTY_LINE_MSG)
  {
    FromStrOutcome("");
  }

  lemma BlankTextRejected()
    ensures FromStr(" \t ") == Err(EMPTY_LINE_MSG)
  {
    FromStrOutcome(" \t ");
  }

  lemma WordRejected()
    ensures FromStr("invalid") == Err(NOT_ADDRESS_PORT_MSG)
  {
    NoColonRejected("invalid");
  }

  lemma AddressOnlyRejected()
    ensures FromStr("1.2.3.4") == Err(NOT_ADDRESS_PORT_MSG)
  {
    NoColonRejected("1.2.3.4");
  }

  lemma Ipv6Rejected()
    ensures FromStr("::1:443") == Err(NOT_ADDRESS_PORT_MSG)
  {
    ExtraColonRejected("::1:443", "", ":1:443");
  }

  lemma NoAddressRejected()
    ensures FromStr(":443") == Err(EMPTY_ADDRESS_MSG)
  {
    EmptyAddressRejected(":443", "443");
  }

  lemma PortZeroRejected()
    ensures FromStr("1.2.3.4:0") == Err(ZERO_PORT_MSG)
  {
    Port0();
    ZeroPortRejected("1.2.3.4:0", "1.2.3.4", "0");
  }

  lemma PortTooLargeRejected()
    ensures FromStr("1.2.3.4:70000") == Err(BAD_PORT_MSG)
  {
    Port70000();
    BadPortRejected("1.2.3.4:70000", "1.2.3.4", "70000");
  }

  lemma PortNotNumberRejected()
    ensures FromStr("1.2.3.4:abc") == Err(BAD_PORT_MSG)
  {
    PortAbc();
    BadPortRejected("1.2.3.4:abc", "1.2.3.4", "abc");
  }

  /** The texts `from_str` refuses, each with its error: a blank text, a
      first field with no `:` or with more than one, an empty address, and
      a port that is 0, too large or not a number. */
  lemma FromStrRejects()
    ensures FromStr("") == Err(EMPTY_LINE_MSG) && FromStr(" \t ") == Err(EMPTY_LINE_MSG)
    ensures FromStr("invalid") == Err(NOT_ADDRESS_PORT_MSG)
    ensures FromStr("1.2.3.4") == Err(NOT_ADDRESS_PORT_MSG)
    ensures FromStr("::1:443") == Err(NOT_ADDRESS_PORT_MSG)
    ensures FromStr(":443") == Err(EMPTY_ADDRESS_MSG)
    ensures FromStr("1.2.3.4:0") == Err(ZERO_PORT_MSG)
    ensures FromStr("1.2.3.4:70000") == Err(BAD_PORT_MSG)
    ensures FromStr("1.2.3.4:abc") == Err(BAD_PORT_MSG)
  {
    EmptyTextRejected();
    BlankTextRejected();
    WordRejected();
    AddressOnlyRejected();
    Ipv6Rejected();
    NoAddressRejected();
    PortZeroRejected();
    PortTooLargeRejected();
    PortNotNumberRejected();
  }

  lemma AnyAddressAccepted()
    ensures FromStr("999.999.999.999:443") == Ok(Bridge("999.999.999.999", 443, None, None))
  {
    Port443();
    EndpointAccepted("999.999.999.999:443", "999.999.999.999", "443", 443);
  }

  lemma PlainEndpointAccepted()
    ensures FromStr("192.168.1.1:443") == Ok(Bridge("192.168.1.1", 443, None, None))
  {
    Port443();
    EndpointAccepted("192.168.1.1:443", "192.168.1.1", "443", 443);
  }

  lemma ShortEndpointAccepted()
    ensures FromStr("1.2.3.4:443") == Ok(Bridge("1.2.3.4", 443, None, None))
  {
    Port443();
    EndpointAccepted("1.2.3.4:443", "1.2.3.4", "443", 443);
  }

  lemma LowerKeywordAccepted()
    ensures FromStr("bridge 1.2.3.4:443") == FromStr("1.2.3.4:443")
  {
    LowerKeyword();
    KeywordDropped("bridge 1.2.3.4:443", "bridge ", "1.2.3.4:443");
  }

  lemma ShortFingerprintParts()
    ensures "192.168.1.1:443 ABC123DEF456" == "192.168.1.1" + ":" + "443" + " " + "ABC123DEF456"
    ensures IsToken("192.168.1.1") && NoWhitespace("443") && IsToken("ABC123DEF456")
    ensures ':' !in "192.168.1.1" && ':' !in "443" && UpperChar('1') != 'B'
  {
  }

  lemma ShortFingerprintAccepted()
    ensures FromStr("192.168.1.1:443 ABC123DEF456") == Ok(Bridge("192.168.1.1", 443, Some("ABC123DEF456"), None))
  {
    Port443();
    ShortFingerprintParts();
    FingerprintKept("192.168.1.1:443 ABC123DEF456", "192.168.1.1", "443", 443, "ABC123DEF456");
  }

  /** The texts `from_str` accepts as they are: an address that is no IP
      address, the keyword in lower case, and a short fingerprint. */
  lemma FromStrAccepts()
    ensures FromStr("999.999.999.999:443") == Ok(Bridge("999.999.999.999", 443, None, None))
    ensures FromStr("192.168.1.1:443") == Ok(Bridge("192.168.1.1", 443, None, None))
    ensures FromStr("bridge 1.2.3.4:443") == FromStr("1.2.3.4:443") == Ok(Bridge("1.2.3.4", 443, None, None))
    ensures FromStr("192.168.1.1:443 ABC123DEF456") == Ok(Bridge("192.168.1.1", 443, Some("ABC123DEF456"), None))
  {
    AnyAddressAccepted();
    PlainEndpointAccepted();
    ShortEndpointAccepted();
    LowerKeywordAccepted();
    ShortFingerprintAccepted();
  }
}
