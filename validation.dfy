/** The input validators of src/utils/validation.rs. Each reports its
    failure as a `Config` error. `validate_ip` defers to `std::net::IpAddr`'s
    parser, which is not part of this model: it is the parameter `isIp`. */
module Validation {
  import opened Wrappers
  import opened Errors
  import opened Text
  import opened Decimal

  /** `validate_port`. The `port > 65535` half of the guard can never hold
      for a `u16`; it is kept as the source writes it. */
  function ValidatePort(port: u16): (r: TorrerResult<Unit>)
    ensures r.Err? <==> port == 0
    ensures r.Err? ==> r.error.Config?
  {
    if port == 0 || port > 65535 then
      Err(Config("Invalid port number: " + NatToString(port) + " (must be 1-65535)"))
    else Ok(Unit)
  }

  /** `validate_country_code`: two bytes, both ASCII letters of either case. */
  function ValidateCountryCode(code: string): (r: TorrerResult<Unit>)
    ensures r.Ok? <==> |code| == 2 && AllAsciiAlpha(code)
    ensures r.Err? ==> r.error.Config?
  {
    TwoAsciiLetters(code);
    if ByteLen(code) != 2 then Err(Config("Country code must be 2 letters (e.g., CA, US)"))
    else if !AllAsciiAlpha(code) then Err(Config("Country code must contain only letters"))
    else Ok(Unit)
  }

  /** `validate_bridge`: `IP:PORT` with exactly one `:`, an address `isIp`
      accepts and a non-zero `u16` port. */
  function ValidateBridge(bridge: string, isIp: string -> bool): (r: TorrerResult<Unit>)
    ensures r.Ok? ==> ':' in bridge
    ensures r.Err? ==> r.error.Config?
  {
    var parts := Split(bridge, ':');
    if |parts| != 2 then Err(Config("Invalid bridge format. Expected IP:PORT"))
    else if !isIp(parts[0]) then Err(Config("Invalid IP address: " + parts[0]))
    else match ParseU16(parts[1])
      case None => Err(Config("Invalid port number in bridge"))
      case Some(port) => ValidatePort(port)
  }

  // ---------------------------------------------------------------- lemmas

  /** With exactly one `:`, the bridge is accepted iff the address passes
      `isIp` and the port text is a non-zero `u16`. */
  lemma ValidateBridgeOneColon(ip: string, port: string, isIp: string -> bool)
    requires ':' !in ip && ':' !in port
    ensures ValidateBridge(ip + [':'] + port, isIp).Ok?
        <==> isIp(ip) && ParseU16(port).Some? && ParseU16(port).value != 0
  {
    SplitTwo(ip, port, ':');
  }

  /** Without a `:` there is no port: the format error. */
  lemma ValidateBridgeNoColon(bridge: string, isIp: string -> bool)
    requires ':' !in bridge
    ensures ValidateBridge(bridge, isIp) == Err(Config("Invalid bridge format. Expected IP:PORT"))
  {
  }

  /** Two or more `:` are a format error, whatever surrounds them; this
      rejects IPv6 literals such as `::1:443`. */
  lemma ValidateBridgeTwoColons(a: string, b: string, rest: string, isIp: string -> bool)
    requires ':' !in a && ':' !in b
    ensures ValidateBridge(a + [':'] + b + [':'] + rest, isIp) == Err(Config("Invalid bridge format. Expected IP:PORT"))
  {
    var s := a + [':'] + b + [':'] + rest;
    assert s == a + [':'] + (b + [':'] + rest);
    SplitCons(a, b + [':'] + rest, ':');
    SplitCons(b, rest, ':');
  }

  /** A trailing token after the port, as in a bridge line with a
      fingerprint, makes the port text fail to parse. */
  lemma ValidateBridgeTrailingToken(ip: string, port: string, fp: string, isIp: string -> bool)
    requires ':' !in ip && ':' !in port && ':' !in fp
    requires isIp(ip)
    ensures ValidateBridge(ip + [':'] + (port + " " + fp), isIp) == Err(Config("Invalid port number in bridge"))
  {
    var p := port + " " + fp;
    assert ':' !in p by {
      assert forall i :: 0 <= i < |p| ==> p[i] == (if i < |port| then port[i] else if i == |port| then ' ' else fp[i - |port| - 1]);
    }
    SplitTwo(ip, p, ':');
    assert !IsDigit(p[|port|]);
    if p != [] && p[0] == '+' {
      assert p[1..][|port| - 1] == ' ';
    }
  }

  /** Two letters of either case pass. */
  lemma CountryCodesAccepted()
    ensures ValidateCountryCode("CA").Ok? && ValidateCountryCode("US").Ok? && ValidateCountryCode("us").Ok?
  {
  }

  /** A wrong length or a digit fails, the length being checked first. */
  lemma CountryCodesRejected()
    ensures ValidateCountryCode("INVALID") == Err(Config("Country code must be 2 letters (e.g., CA, US)"))
    ensures ValidateCountryCode("C") == Err(Config("Country code must be 2 letters (e.g., CA, US)"))
    ensures ValidateCountryCode("C1") == Err(Config("Country code must contain only letters"))
  {
    var invalid, c, c1 := "INVALID", "C", "C1";
    assert ByteLen(invalid) >= |invalid| == 7;
    assert ByteLen(c) == 1 && ByteLen(c1) == 2;
    assert !AllAsciiAlpha(c1) by {
      assert c1[1] == '1';
    }
  }
}
