/** Exit-country selection (src/tor/country.rs): validating ISO 3166-1
    alpha-2 codes, restricting Tor's `ExitNodes` to them over the control
    port, clearing the restriction, and reading it back. `CountrySelector`
    holds a code it never reads; every operation here works on the
    control-port client alone. */
module Countries {
  import opened Wrappers
  import opened Errors
  import opened Text
  import opened TorCommands
  import TorControl

  /** `CountrySelector::new` stores the code; no operation reads it. */
  datatype CountrySelector = CountrySelector(countryCode: Option<string>)

  const NO_VALID_CODES := Tor("No valid country codes provided")
  const CLEAR_EXIT_NODES := "SETCONF ExitNodes=\r\n"
  const EXIT_NODES_QUERY := "GETCONF ExitNodes\r\n"
  const EXIT_NODES_PREFIX := "250 ExitNodes="

  /** What `validate_country_code` accepts: two ASCII letters of either
      case. */
  predicate CodeAccepted(code: string) {
    |code| == 2 && AllAsciiAlpha(code)
  }

  /** What is sent to Tor: two upper-case ASCII letters. */
  predicate IsUpperCode(code: string) {
    |code| == 2 && forall i :: 0 <= i < 2 ==> 'A' <= code[i] <= 'Z'
  }

  /** `validate_country_code`: the length is counted in bytes, then every
      character must be an ASCII letter. */
  function ValidateCountryCode(code: string): (r: TorrerResult<Unit>)
    ensures r.Ok? <==> CodeAccepted(code)
    ensures r.Err? ==> r.error.Tor? && StartsWith(r.error.message, "Invalid country code: '" + code + "'. Must ")
  {
    TwoAsciiLetters(code);
    var head := "Invalid country code: '" + code + "'. Must ";
    if ByteLen(code) != 2 then
      Err(Tor(head + "be exactly 2 letters (ISO 3166-1 alpha-2 format, e.g., CA, US, DE)"))
    else if !AllAsciiAlpha(code) then
      Err(Tor(head + "contain only letters"))
    else Ok(Unit)
  }

  /** Each piece trimmed. */
  function TrimAll(pieces: seq<string>): (r: seq<string>)
    ensures |r| == |pieces|
  {
    seq(|pieces|, k requires 0 <= k < |pieces| => Trim(pieces[k]))
  }

  /** `acc` put in front of a successful list; an error passes through. */
  function PrependAll(acc: seq<string>, r: TorrerResult<seq<string>>): TorrerResult<seq<string>> {
    match r
    case Ok(v) => Ok(acc + v)
    case Err(e) => Err(e)
  }

  /** The loop of `validate_country_codes`: skip empty pieces, stop at the
      first invalid code, upper-case the others. */
  function CheckCodes(codes: seq<string>): (r: TorrerResult<seq<string>>)
    ensures r.Ok? ==> |r.value| <= |codes|
  {
    if codes == [] then Ok([])
    else if codes[0] == [] then CheckCodes(codes[1..])
    else match ValidateCountryCode(codes[0])
      case Err(e) => Err(e)
      case Ok(_) => PrependAll([Upper(codes[0])], CheckCodes(codes[1..]))
  }

  /** `validate_country_codes`: split at `,`, trim, check, and refuse an
      empty result. */
  function ValidatedCodes(input: string): TorrerResult<seq<string>> {
    match CheckCodes(TrimAll(Split(input, ',')))
    case Err(e) => Err(e)
    case Ok(v) => if v == [] then Err(NO_VALID_CODES) else Ok(v)
  }

  /** The codes `set_exit_country` sends: the list when the input has a
      `,`, otherwise the whole input, untrimmed, as one code. */
  function CodesFor(input: string): TorrerResult<seq<string>> {
    if ',' in input then ValidatedCodes(input)
    else match ValidateCountryCode(input)
      case Err(e) => Err(e)
      case Ok(_) => Ok([Upper(input)])
  }

  /** The `ExitNodes` value: the codes in braces. */
  function ExitNodesValue(codes: seq<string>): string {
    if |codes| == 1 then "{" + codes[0] + "}" else "{" + Join(codes, ",") + "}"
  }

  function SetExitNodesCommand(value: string): string {
    "SETCONF ExitNodes=" + value + "\r\n"
  }

  /** A reply mentioning `552` or `error` is a refusal. */
  predicate Refused(response: string) {
    Contains(response, "552") || Contains(response, "error")
  }

  /** `set_exit_country` on a session. */
  function SessionSetExitCountry(s: TorControl.Session, input: string): TorControl.Step<Unit> {
    match CodesFor(input)
    case Err(e) => TorControl.Step(Err(e), s)
    case Ok(codes) =>
      var st := TorControl.SessionSendRaw(s, SetExitNodesCommand(ExitNodesValue(codes)));
      if st.result.Err? then TorControl.Step(Err(st.result.error), st.session)
      else if Refused(st.result.value) then
        TorControl.Step(Err(Tor("Failed to set exit country: " + st.result.value)), st.session)
      else TorControl.Step(Ok(Unit), st.session)
  }

  /** `clear_exit_country` on a session: the reply's content is ignored. */
  function SessionClearExitCountry(s: TorControl.Session): TorControl.Step<Unit> {
    var st := TorControl.SessionSendRaw(s, CLEAR_EXIT_NODES);
    if st.result.Err? then TorControl.Step(Err(st.result.error), st.session)
    else TorControl.Step(Ok(Unit), st.session)
  }

  /** `str::trim_start_matches(c)`. */
  function TrimStartMatches(s: string, c: char): (r: string)
    ensures r == [] || r[0] != c
    ensures |r| <= |s|
  {
    if s != [] && s[0] == c then TrimStartMatches(s[1..], c) else s
  }

  /** `str::trim_end_matches(c)`. */
  function TrimEndMatches(s: string, c: char): (r: string)
    ensures r == [] || r[|r| - 1] != c
    ensures |r| <= |s|
  {
    if s != [] && s[|s| - 1] == c then TrimEndMatches(s[..|s| - 1], c) else s
  }

  /** `str::trim_matches(c)`. */
  function TrimMatches(s: string, c: char): string {
    TrimEndMatches(TrimStartMatches(s, c), c)
  }

  /** The value part of an `ExitNodes` line as the source takes it: after
      the prefix, and only if it ends in `\r\n`, else nothing. */
  function NodesOf(line: string): string
    requires StartsWith(line, EXIT_NODES_PREFIX)
  {
    var rest := line[|EXIT_NODES_PREFIX|..];
    if EndsWith(rest, "\r\n") then rest[..|rest| - 2] else ""
  }

  /** The value of the first `ExitNodes` line, the braces trimmed. */
  function CountryFromNodes(nodes: string): Option<string> {
    if nodes == [] || nodes == "{}" then None
    else
      var codes := TrimMatches(TrimMatches(nodes, '{'), '}');
      if codes == [] then None else Some(codes)
  }

  /** The loop of `get_exit_country`: the first line with the prefix
      decides. */
  function ExitCountryIn(lines: seq<string>): Option<string> {
    if lines == [] then None
    else if StartsWith(lines[0], EXIT_NODES_PREFIX) then CountryFromNodes(NodesOf(lines[0]))
    else ExitCountryIn(lines[1..])
  }

  /** `get_exit_country` on a session. */
  function SessionExitCountry(s: TorControl.Session): TorControl.Step<Option<string>> {
    var st := TorControl.SessionSendRaw(s, EXIT_NODES_QUERY);
    if st.result.Err? then TorControl.Step(Err(st.result.error), st.session)
    else TorControl.Step(Ok(ExitCountryIn(Lines(st.result.value))), st.session)
  }

  /** `validate_country_codes`. */
  method ValidateCountryCodes(input: string) returns (r: TorrerResult<seq<string>>)
    ensures r == ValidatedCodes(input)
    ensures r.Ok? ==> r.value != [] && forall k :: 0 <= k < |r.value| ==> IsUpperCode(r.value[k])
  {
    var codes := TrimAll(Split(input, ','));
    var validated: seq<string> := [];
    assert codes[0..] == codes;
    assert PrependAll([], CheckCodes(codes)) == CheckCodes(codes) by {
      if CheckCodes(codes).Ok? {
        assert [] + CheckCodes(codes).value == CheckCodes(codes).value;
      }
    }
    for i := 0 to |codes|
      invariant CheckCodes(codes) == PrependAll(validated, CheckCodes(codes[i..]))
    {
      CheckCodesStep(codes, i);
      var code := codes[i];
      if code == [] {
        continue;
      }
      var v := ValidateCountryCode(code);
      if v.Err? {
        return Err(v.error);
      }
      PrependAllAssoc(validated, [Upper(code)], CheckCodes(codes[i + 1..]));
      validated := validated + [Upper(code)];
    }
    assert codes[|codes|..] == [];
    assert validated + [] == validated;
    if validated == [] {
      return Err(NO_VALID_CODES);
    }
    CheckCodesOk(codes);
    r := Ok(validated);
  }

  /** `set_exit_country`. */
  method SetExitCountry(client: TorControl.TorClient, input: string) returns (r: TorrerResult<Unit>)
    modifies client
    ensures TorControl.Step(r, client.State()) == SessionSetExitCountry(old(client.State()), input)
  {
    var codes: seq<string>;
    if ',' in input {
      var v := ValidateCountryCodes(input);
      if v.Err? {
        return Err(v.error);
      }
      codes := v.value;
    } else {
      var v := ValidateCountryCode(input);
      if v.Err? {
        return Err(v.error);
      }
      codes := [Upper(input)];
    }
    var exitNodes := ExitNodesValue(codes);
    var response := client.SendCommand(SetExitNodesCommand(exitNodes));
    if response.Err? {
      return Err(response.error);
    }
    if Contains(response.value, "552") || Contains(response.value, "error") {
      return Err(Tor("Failed to set exit country: " + response.value));
    }
    r := Ok(Unit);
  }

  /** `clear_exit_country`. */
  method ClearExitCountry(client: TorControl.TorClient) returns (r: TorrerResult<Unit>)
    modifies client
    ensures TorControl.Step(r, client.State()) == SessionClearExitCountry(old(client.State()))
  {
    var response := client.SendCommand(CLEAR_EXIT_NODES);
    if response.Err? {
      return Err(response.error);
    }
    r := Ok(Unit);
  }

  /** `get_exit_country`. */
  method GetExitCountry(client: TorControl.TorClient) returns (r: TorrerResult<Option<string>>)
    modifies client
    ensures TorControl.Step(r, client.State()) == SessionExitCountry(old(client.State()))
  {
    var response := client.SendCommand(EXIT_NODES_QUERY);
    if response.Err? {
      return Err(response.error);
    }
    var lines := Lines(response.value);
    for i := 0 to |lines|
      invariant ExitCountryIn(lines) == ExitCountryIn(lines[i..])
    {
      assert lines[i..][0] == lines[i] && lines[i..][1..] == lines[i + 1..];
      var line := lines[i];
      if StartsWith(line, EXIT_NODES_PREFIX) {
        var nodes := NodesOf(line);
        if nodes == [] || nodes == "{}" {
          return Ok(None);
        }
        var codes := TrimMatches(TrimMatches(nodes, '{'), '}');
        if codes == [] {
          return Ok(None);
        }
        return Ok(Some(codes));
      }
    }
    assert lines[|lines|..] == [];
    r := Ok(None);
  }

  // ------------------------------------------------------- loop helpers

  lemma CheckCodesStep(codes: seq<string>, i: nat)
    requires i < |codes|
    ensures CheckCodes(codes[i..]) ==
      if codes[i] == [] then CheckCodes(codes[i + 1..])
      else match ValidateCountryCode(codes[i])
        case Err(e) => Err(e)
        case Ok(_) => PrependAll([Upper(codes[i])], CheckCodes(codes[i + 1..]))
  {
    assert codes[i..][0] == codes[i] && codes[i..][1..] == codes[i + 1..];
  }

  lemma PrependAllAssoc(a: seq<string>, b: seq<string>, r: TorrerResult<seq<string>>)
    ensures PrependAll(a, PrependAll(b, r)) == PrependAll(a + b, r)
  {
    if r.Ok? {
      AppendAssoc(a, b, r.value);
    }
  }

  // ---------------------------------------------------------------- lemmas

  /** An accepted code, upper-cased, is two upper-case letters. */
  lemma UpperOfAccepted(code: string)
    requires CodeAccepted(code)
    ensures IsUpperCode(Upper(code))
  {
    assert IsAsciiAlpha(code[0]) && IsAsciiAlpha(code[1]);
  }

  /** The pieces that are not empty, in order. */
  function NonEmpty(codes: seq<string>): (r: seq<string>)
    ensures |r| <= |codes|
  {
    if codes == [] then []
    else (if codes[0] == [] then [] else [codes[0]]) + NonEmpty(codes[1..])
  }

  /** The check succeeds exactly when every non-empty code is accepted. */
  lemma {:induction false} CheckCodesIff(codes: seq<string>)
    ensures CheckCodes(codes).Ok? <==> forall k :: 0 <= k < |codes| && codes[k] != [] ==> CodeAccepted(codes[k])
  {
    if codes != [] {
      var rest := codes[1..];
      CheckCodesIff(rest);
      assert forall k :: 1 <= k < |codes| ==> codes[k] == rest[k - 1];
    }
  }

  /** On success the result is the non-empty codes upper-cased, in order,
      each two upper-case letters. */
  lemma {:induction false} CheckCodesOk(codes: seq<string>)
    ensures CheckCodes(codes).Ok? ==>
      var ne := NonEmpty(codes);
      var v := CheckCodes(codes).value;
      |v| == |ne| && forall k :: 0 <= k < |v| ==> v[k] == Upper(ne[k]) && IsUpperCode(v[k])
  {
    if codes != [] {
      CheckCodesOk(codes[1..]);
      if codes[0] != [] && CodeAccepted(codes[0]) {
        UpperOfAccepted(codes[0]);
      }
    }
  }

  /** On failure the error is that of the first non-empty code that is not
      accepted. */
  lemma {:induction false} CheckCodesErr(codes: seq<string>)
    ensures CheckCodes(codes).Err? ==>
      exists k :: 0 <= k < |codes| && codes[k] != [] && !CodeAccepted(codes[k])
        && CheckCodes(codes).error == ValidateCountryCode(codes[k]).error
        && forall j :: 0 <= j < k ==> codes[j] == [] || CodeAccepted(codes[j])
  {
    if codes != [] && CheckCodes(codes).Err? {
      var rest := codes[1..];
      if codes[0] == [] || CodeAccepted(codes[0]) {
        CheckCodesErr(rest);
        var k :| 0 <= k < |rest| && rest[k] != [] && !CodeAccepted(rest[k])
          && CheckCodes(rest).error == ValidateCountryCode(rest[k]).error
          && forall j :: 0 <= j < k ==> rest[j] == [] || CodeAccepted(rest[j]);
        assert codes[k + 1] == rest[k];
        assert forall j :: 1 <= j < k + 1 ==> codes[j] == rest[j - 1];
      } else {
        assert codes[0] != [] && !CodeAccepted(codes[0]);
      }
    }
  }

  /** What `set_exit_country` sends is a non-empty list of two-letter
      upper-case codes. */
  lemma CodesForSent(input: string)
    ensures CodesFor(input).Ok? ==>
      var v := CodesFor(input).value;
      v != [] && forall k :: 0 <= k < |v| ==> IsUpperCode(v[k])
  {
    if ',' in input {
      CheckCodesOk(TrimAll(Split(input, ',')));
    } else if CodeAccepted(input) {
      UpperOfAccepted(input);
    }
  }

  /** Without a `,` the input is one code and is not trimmed: it is
      accepted iff it is exactly two ASCII letters. */
  lemma SingleCodeUntrimmed(input: string)
    requires ',' !in input
    ensures CodesFor(input).Ok? <==> CodeAccepted(input)
    ensures CodesFor(input).Ok? ==> CodesFor(input) == Ok([Upper(input)])
  {
  }

  /** A padded single code is refused: without a `,` nothing is trimmed. */
  lemma PaddedSingleRefused()
    ensures CodesFor(" US").Err?
    ensures CodesFor("us") == Ok(["US"])
  {
    var pad := " US";
    assert ByteLen(pad) >= |pad|;
    var us := "us";
    assert CodeAccepted(us);
    assert Upper(us) == "US";
  }

  /** A trailing `,` leaves an empty piece, which is skipped. */
  lemma TrailingCommaSkipped()
    ensures CodesFor("US,") == Ok(["US"])
  {
    var usc := "US,";
    assert usc == "US" + [','] + "";
    SplitCons("US", "", ',');
    TrimIdentity("US");
    var codes := TrimAll(Split(usc, ','));
    assert codes == ["US", ""];
    assert CodeAccepted("US");
    assert Upper("US") == "US";
    assert CheckCodes(codes[1..]) == Ok([]);
    assert codes[0] == "US" && codes[0] != [];
    assert ValidateCountryCode(codes[0]) == Ok(Unit);
    assert ["US"] + [] == ["US"];
    assert CheckCodes(codes) == Ok(["US"]);
    assert usc[2] == ',';
    assert ValidatedCodes(usc) == Ok(["US"]);
  }

  /** A lone `,` yields nothing to send. */
  lemma LoneCommaRefused()
    ensures CodesFor(",") == Err(NO_VALID_CODES)
  {
    var comma := ",";
    assert comma == "" + [','] + "";
    SplitCons("", "", ',');
    var codes := TrimAll(Split(comma, ','));
    assert codes == ["", ""];
    assert CheckCodes(codes[1..]) == Ok([]);
  }

  /** The source's two formats agree: one code in braces is the joined
      list in braces. */
  lemma {:induction false} ExitNodesBraced(codes: seq<string>)
    ensures ExitNodesValue(codes) == "{" + Join(codes, ",") + "}"
  {
    if |codes| == 1 {
      assert Join(codes, ",") == codes[0];
    }
  }

  /** The command is `SETCONF` with key `ExitNodes`. */
  lemma SetExitNodesIsSetconf(value: string)
    ensures SetExitNodesCommand(value) == BuildSetconf("ExitNodes", value)
    ensures CLEAR_EXIT_NODES == BuildSetconf("ExitNodes", "")
  {
    assert SetExitNodesCommand(value) == "SETCONF " + "ExitNodes" + "=" + value + CRLF;
    assert CLEAR_EXIT_NODES == "SETCONF " + "ExitNodes" + "=" + [] + CRLF;
  }

  /** An input that fails validation sends nothing. */
  lemma InvalidSendsNothing(s: TorControl.Session, input: string)
    requires CodesFor(input).Err?
    ensures SessionSetExitCountry(s, input) == TorControl.Step(Err(CodesFor(input).error), s)
  {
  }

  /** With valid codes and a reply that is not `515`, one `SETCONF` is
      sent and the call succeeds iff the reply mentions neither `552` nor
      `error`. */
  lemma SetExitCountryReply(s: TorControl.Session, input: string, text: string)
    requires s.connected && CodesFor(input).Ok?
    requires TorControl.NextExchange(s.daemon) == TorControl.Reply(text) && !StartsWith(text, "515")
    ensures var st := SessionSetExitCountry(s, input);
      (st.result.Ok? <==> !Contains(text, "552") && !Contains(text, "error"))
      && st.session.sent == s.sent + [BuildSetconf("ExitNodes", "{" + Join(CodesFor(input).value, ",") + "}")]
  {
    var codes := CodesFor(input).value;
    ExitNodesBraced(codes);
    SetExitNodesIsSetconf(ExitNodesValue(codes));
    TorControl.ReplyChecked(s, SetExitNodesCommand(ExitNodesValue(codes)), text);
  }

  /** Clearing succeeds on any reply but `515`, whatever it says. */
  lemma ClearIgnoresReply(s: TorControl.Session, text: string)
    requires s.connected
    requires TorControl.NextExchange(s.daemon) == TorControl.Reply(text) && !StartsWith(text, "515")
    ensures SessionClearExitCountry(s).result == Ok(Unit)
    ensures SessionClearExitCountry(s).session.sent == s.sent + [BuildSetconf("ExitNodes", "")]
  {
    SetExitNodesIsSetconf("");
    TorControl.ReplyChecked(s, CLEAR_EXIT_NODES, text);
  }

  /** A line of `lines` never ends in `\r\n`, so the source's suffix test
      fails and the value it reads is always empty. */
  lemma NodesAlwaysEmpty(line: string)
    requires '\n' !in line && StartsWith(line, EXIT_NODES_PREFIX)
    ensures NodesOf(line) == []
  {
    var rest := line[|EXIT_NODES_PREFIX|..];
    assert !EndsWith(rest, "\r\n") by {
      if |rest| >= 2 {
        assert rest[|rest| - 1] == line[|line| - 1];
        assert line[|line| - 1] in line;
      }
    }
  }

  /** As written, `get_exit_country` finds no country in any reply. */
  lemma {:induction false} ExitCountryAlwaysNone(lines: seq<string>)
    requires forall k :: 0 <= k < |lines| ==> '\n' !in lines[k]
    ensures ExitCountryIn(lines) == None
  {
    if lines != [] {
      if StartsWith(lines[0], EXIT_NODES_PREFIX) {
        NodesAlwaysEmpty(lines[0]);
      } else {
        ExitCountryAlwaysNone(lines[1..]);
      }
    }
  }

  /** Whatever the daemon answers, a successful query reports no country. */
  lemma GetExitCountryNeverSome(s: TorControl.Session)
    ensures SessionExitCountry(s).result.Ok? ==> SessionExitCountry(s).result == Ok(None)
  {
    var st := TorControl.SessionSendRaw(s, EXIT_NODES_QUERY);
    if st.result.Ok? {
      ExitCountryAlwaysNone(Lines(st.result.value));
    }
  }

  /** Even the reply the source's comment expects yields no country. */
  lemma ExpectedReplyIgnored()
    ensures ExitCountryIn(Lines("250 ExitNodes={US}\r\n")) == None
  {
    ExitCountryAlwaysNone(Lines("250 ExitNodes={US}\r\n"));
  }

  // ------------------------------------------------- the intended reading

  /** The evidently intended value: all of the line after the prefix,
      since `lines` has already removed the terminator. */
  function ExitCountryInFixed(lines: seq<string>): Option<string> {
    if lines == [] then None
    else if StartsWith(lines[0], EXIT_NODES_PREFIX) then CountryFromNodes(lines[0][|EXIT_NODES_PREFIX|..])
    else ExitCountryInFixed(lines[1..])
  }

  /** A one-line reply split by `lines`. */
  lemma LinesOfCrlfLine(line: string)
    requires '\n' !in line && '\r' !in line
    ensures Lines(line + "\r\n") == [line]
  {
    var s := line + "\r\n";
    assert s[..|line| + 1] == line + "\r";
    assert '\n' !in line + "\r";
    IndexOfCharIs(s, '\n', |line| + 1);
    assert s[|line| + 2..] == [];
    assert DropCr(line + "\r") == line;
  }

  /** Brace trimming recovers a value that does not start or end with a
      brace. */
  lemma TrimBraces(v: string)
    requires v != [] && v[0] != '{' && v[0] != '}' && v[|v| - 1] != '{' && v[|v| - 1] != '}'
    ensures TrimMatches(TrimMatches("{" + v + "}", '{'), '}') == v
  {
    var b := "{" + v + "}";
    assert b[1..] == v + "}";
    assert TrimStartMatches(b, '{') == v + "}";
    assert TrimEndMatches(v + "}", '{') == v + "}";
    assert TrimStartMatches(v + "}", '}') == v + "}";
    assert (v + "}")[..|v|] == v;
    assert TrimEndMatches(v + "}", '}') == v;
  }

  /** The joined upper-case codes are letters and commas. */
  lemma {:induction false} JoinedCodesChars(codes: seq<string>)
    requires forall k :: 0 <= k < |codes| ==> IsUpperCode(codes[k])
    ensures var j := Join(codes, ",");
      forall i :: 0 <= i < |j| ==> 'A' <= j[i] <= 'Z' || j[i] == ','
    ensures codes != [] ==> var j := Join(codes, ","); |j| >= 2 && 'A' <= j[0] <= 'Z' && 'A' <= j[|j| - 1] <= 'Z'
  {
    if |codes| > 1 {
      JoinedCodesChars(codes[1..]);
      var tail := Join(codes[1..], ",");
      assert Join(codes, ",") == codes[0] + "," + tail;
    }
  }

  /** The reply line carrying a value free of line breaks. */
  lemma ExitNodesLine(v: string)
    requires '\n' !in v && '\r' !in v
    ensures Lines(EXIT_NODES_PREFIX + ("{" + v + "}") + "\r\n") == [EXIT_NODES_PREFIX + ("{" + v + "}")]
  {
    var b := "{" + v + "}";
    var line := EXIT_NODES_PREFIX + b;
    assert '\n' !in b && '\r' !in b;
    assert '\n' !in EXIT_NODES_PREFIX && '\r' !in EXIT_NODES_PREFIX;
    assert '\n' !in line && '\r' !in line;
    LinesOfCrlfLine(line);
  }

  /** Brace trimming recovers a braced value. */
  lemma CountryFromBraced(v: string)
    requires v != [] && v[0] != '{' && v[0] != '}' && v[|v| - 1] != '{' && v[|v| - 1] != '}'
    ensures CountryFromNodes("{" + v + "}") == Some(v)
  {
    var b := "{" + v + "}";
    TrimBraces(v);
    assert b[1] == v[0];
    assert b != "{}";
  }

  /** With the intended reading, a reply `250 ExitNodes={<v>}` yields `v`
      when `v` neither starts nor ends with a brace. */
  lemma ExitNodesReadBack(v: string)
    requires '\n' !in v && '\r' !in v
    requires v != [] && v[0] != '{' && v[0] != '}' && v[|v| - 1] != '{' && v[|v| - 1] != '}'
    ensures ExitCountryInFixed(Lines(EXIT_NODES_PREFIX + ("{" + v + "}") + "\r\n")) == Some(v)
  {
    var b := "{" + v + "}";
    var line := EXIT_NODES_PREFIX + b;
    ExitNodesLine(v);
    assert line[|EXIT_NODES_PREFIX|..] == b;
    assert StartsWith(line, EXIT_NODES_PREFIX);
    CountryFromBraced(v);
    assert ExitCountryInFixed([line]) == CountryFromNodes(b);
  }

  /** With the intended reading, querying after setting gives back the
      codes that were set: a reply `250 ExitNodes=<value>` for the value
      `set_exit_country` sends yields the comma-joined codes. */
  lemma SetThenGetFixed(codes: seq<string>)
    requires codes != [] && forall k :: 0 <= k < |codes| ==> IsUpperCode(codes[k])
    ensures ExitCountryInFixed(Lines(EXIT_NODES_PREFIX + ExitNodesValue(codes) + "\r\n")) == Some(Join(codes, ","))
  {
    var v := Join(codes, ",");
    JoinedCodesChars(codes);
    ExitNodesBraced(codes);
    assert '\n' !in v && '\r' !in v by {
      forall i | 0 <= i < |v| ensures v[i] != '\n' && v[i] != '\r' {
      }
    }
    ExitNodesReadBack(v);
  }
}
