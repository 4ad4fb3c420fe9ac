/** Reply parsing for the Tor control protocol (src/tor/protocol.rs). A
    reply is split into lines; the first token of the first line must be a
    `u16` status code, and the other lines, joined with `\n`, are its data.
    Only the final-line form `<code> <text>` of section 2.3 of the Tor
    control protocol specification is accepted: the `<code>+` and `<code>-`
    forms that begin multi-line replies are rejected. */
module TorProtocol {
  import opened Wrappers
  import opened Text
  import opened Decimal

  datatype Response = Response(statusCode: u16, data: string)

  datatype ParseError = EmptyResponse | InvalidFormat

  /** `parse_status_code`: the first whitespace-separated token as a `u16`. */
  function ParseStatusCode(line: string): (r: Result<u16, ParseError>)
    ensures r.Ok? <==> SplitWhitespace(line) != [] && ParseU16(SplitWhitespace(line)[0]).Some?
    ensures r.Ok? ==> Some(r.value) == ParseU16(SplitWhitespace(line)[0])
    ensures r.Err? ==> r.error == InvalidFormat
  {
    var parts := SplitWhitespace(line);
    if parts == [] then Err(InvalidFormat)
    else match ParseU16(parts[0])
      case None => Err(InvalidFormat)
      case Some(code) => Ok(code)
  }

  /** `parse_response`. */
  function ParseResponse(response: string): (r: Result<Response, ParseError>)
    ensures r == Err(EmptyResponse) <==> response == []
    ensures r.Ok? ==> Lines(response) != [] && Ok(r.value.statusCode) == ParseStatusCode(Lines(response)[0])
  {
    var lines := Lines(response);
    LinesEmpty(response);
    if lines == [] then Err(EmptyResponse)
    else match ParseStatusCode(lines[0])
      case Err(e) => Err(e)
      case Ok(code) =>
        var data := if |lines| > 1 then Join(lines[1..], "\n") else "";
        Ok(Response(code, data))
  }

  lemma LinesEmpty(s: string)
    ensures Lines(s) == [] <==> s == []
  {
  }

  // ---------------------------------------------------------------- lemmas

  lemma DigitsNoWhitespace(s: string)
    requires AllDigits(s)
    ensures NoWhitespace(s)
  {
    assert forall i :: 0 <= i < |s| ==> IsDigit(s[i]);
  }

  /** A status line `<code> <text>` yields its code. */
  lemma StatusLineCode(code: u16, text: string)
    ensures ParseStatusCode(NatToString(code) + " " + text) == Ok(code)
  {
    var c := NatToString(code);
    DigitsNoWhitespace(c);
    assert c + " " + text == c + (" " + text);
    SplitWhitespaceCons(c, " " + text);
    ParseU16NatToString(code);
  }

  /** The head of a multi-line reply, `<code>+<key>=` or
      `<code>-<key>=<value>`, has no status code the parser accepts: the
      separator stays glued to the digits of the first token. */
  lemma MultiLineHeadRejected(code: u16, sep: char, rest: string)
    requires sep == '+' || sep == '-'
    requires NoWhitespace(rest)
    ensures ParseStatusCode(NatToString(code) + [sep] + rest) == Err(InvalidFormat)
  {
    var c := NatToString(code);
    var token := c + [sep] + rest;
    assert NoWhitespace(token) by {
      DigitsNoWhitespace(c);
      assert forall i :: 0 <= i < |token| ==> token[i] == (if i < |c| then c[i] else if i == |c| then sep else rest[i - |c| - 1]);
    }
    SplitWhitespaceSingle(token);
    assert token[0] == c[0] && IsDigit(c[0]);
    assert !IsDigit(token[|c|]);
  }

  /** A reply whose first line is a multi-line head is a format error,
      whatever follows it: `GETINFO circuit-status`, answered with
      `250+circuit-status=`, never parses. */
  lemma MultiLineReplyRejected(code: u16, sep: char, rest: string, more: string)
    requires sep == '+' || sep == '-'
    requires NoWhitespace(rest)
    ensures ParseResponse(NatToString(code) + [sep] + rest + "\n" + more) == Err(InvalidFormat)
  {
    var head := NatToString(code) + [sep] + rest;
    assert ParseStatusCode(head) == Err(InvalidFormat) by {
      MultiLineHeadRejected(code, sep, rest);
    }
    assert TerminatorFree(head) by {
      var c := NatToString(code);
      DigitsNoWhitespace(c);
      assert forall i :: 0 <= i < |head| ==> head[i] == (if i < |c| then c[i] else if i == |c| then sep else rest[i - |c| - 1]);
      NoWhitespaceNoLineBreak(head);
    }
    assert Lines(head + "\n" + more)[0] == head by {
      LinesCons(head, more);
    }
  }

  /** The status line `<code> <text>` is terminator-free when `text` is. */
  lemma StatusLineTerminatorFree(code: u16, text: string)
    requires TerminatorFree(text) && text != []
    ensures TerminatorFree(NatToString(code) + " " + text)
  {
    var c := NatToString(code);
    var line := c + " " + text;
    assert forall i :: 0 <= i < |c| ==> IsDigit(c[i]);
    assert forall i :: 0 <= i < |line| ==> line[i] == (if i < |c| then c[i] else if i == |c| then ' ' else text[i - |c| - 1]);
    assert line[|line| - 1] == text[|text| - 1];
  }

  /** A reply whose lines are a status line followed by data lines
      parses to the status code and the data lines joined by `\n`. */
  lemma ParseOfLines(response: string, head: string, data: seq<string>, code: u16)
    requires Lines(response) == [head] + data
    requires ParseStatusCode(head) == Ok(code)
    ensures ParseResponse(response) == Ok(Response(code, Join(data, "\n")))
  {
    assert Lines(response)[1..] == data;
  }

  /** A reply made of the status line `<code> OK` and data lines, all
      terminator-free and the last non-empty, parses to that code with
      the data lines joined by `\n`. */
  lemma ParseReplyWithData(code: u16, data: seq<string>)
    requires forall k :: 0 <= k < |data| ==> TerminatorFree(data[k])
    requires data == [] || data[|data| - 1] != []
    ensures ParseResponse(NatToString(code) + " OK" + "\n" + Join(data, "\n")) == Ok(Response(code, Join(data, "\n")))
  {
    var head := NatToString(code) + " OK";
    var body := Join(data, "\n");
    assert head == NatToString(code) + " " + "OK";
    assert Lines(head + "\n" + body) == [head] + data by {
      StatusLineTerminatorFree(code, "OK");
      LinesCons(head, body);
      LinesOfJoin(data);
    }
    assert ParseStatusCode(head) == Ok(code) by {
      StatusLineCode(code, "OK");
    }
    ParseOfLines(head + "\n" + body, head, data, code);
  }

  /** A single status line carries no data. */
  lemma ParseStatusOnly(code: u16, text: string)
    requires TerminatorFree(text)
    ensures ParseResponse(NatToString(code) + " " + text) == Ok(Response(code, ""))
  {
    var line := NatToString(code) + " " + text;
    var c := NatToString(code);
    assert '\n' !in line by {
      assert forall i :: 0 <= i < |c| ==> IsDigit(c[i]);
      assert forall i :: 0 <= i < |line| ==> line[i] == (if i < |c| then c[i] else if i == |c| then ' ' else text[i - |c| - 1]);
    }
    LinesLast(line);
    StatusLineCode(code, text);
  }
}

/** Command lines for the Tor control protocol (src/tor/commands.rs). Each
    ends in CRLF, the command terminator of section 2.2 of the Tor control
    protocol specification. */
module TorCommands {
  import opened Wrappers
  import opened Text

  const CRLF := "\r\n"

  /** `build_authenticate` (section 3.5): a cookie, or null authentication. */
  function BuildAuthenticate(cookie: Option<string>): (r: string)
    ensures StartsWith(r, "AUTHENTICATE") && EndsWith(r, CRLF)
    ensures cookie.None? ==> |r| == 14
    ensures cookie.Some? ==> |r| == |cookie.value| + 15 && r[12] == ' ' && r[13..|r| - 2] == cookie.value
  {
    match cookie
    case Some(c) => "AUTHENTICATE " + c + CRLF
    case None => "AUTHENTICATE" + CRLF
  }

  /** `build_getinfo` (section 3.9). */
  function BuildGetinfo(key: string): (r: string)
    ensures StartsWith(r, "GETINFO ") && EndsWith(r, CRLF)
    ensures |r| == |key| + 10 && r[8..|r| - 2] == key
  {
    "GETINFO " + key + CRLF
  }

  /** `build_signal_newym` (section 3.7): `SIGNAL NEWNYM`. */
  function BuildSignalNewnym(): (r: string)
    ensures StartsWith(r, "SIGNAL ") && EndsWith(r, CRLF)
    ensures |r| == 15 && r[7..|r| - 2] == "NEWNYM"
  {
    "SIGNAL NEWNYM" + CRLF
  }

  /** `build_setconf` (section 3.1): `SETCONF key=value`. */
  function BuildSetconf(key: string, value: string): (r: string)
    ensures StartsWith(r, "SETCONF ") && EndsWith(r, CRLF)
    ensures |r| == |key| + |value| + 11
    ensures r[8..8 + |key|] == key && r[8 + |key|] == '=' && r[9 + |key|..|r| - 2] == value
  {
    "SETCONF " + key + "=" + value + CRLF
  }

  /** Distinct keys give distinct GETINFO commands. */
  lemma GetinfoInjective(k1: string, k2: string)
    requires BuildGetinfo(k1) == BuildGetinfo(k2)
    ensures k1 == k2
  {
    var r := BuildGetinfo(k1);
    assert k1 == r[8..|r| - 2];
  }

  /** Distinct cookies give distinct AUTHENTICATE commands, and none of
      them is the null-authentication command. */
  lemma AuthenticateInjective(c1: Option<string>, c2: Option<string>)
    requires BuildAuthenticate(c1) == BuildAuthenticate(c2)
    ensures c1 == c2
  {
    var r := BuildAuthenticate(c1);
    if c1.Some? && c2.Some? {
      assert c1.value == r[13..|r| - 2] == c2.value;
    }
  }

  /** The key and value of a SETCONF command are recovered from it when
      the key holds no `=`. */
  lemma SetconfInjective(k1: string, v1: string, k2: string, v2: string)
    requires '=' !in k1 && '=' !in k2
    requires BuildSetconf(k1, v1) == BuildSetconf(k2, v2)
    ensures k1 == k2 && v1 == v2
  {
    var r := BuildSetconf(k1, v1);
    assert k1 == r[8..8 + |k1|] == k2;
  }
}
