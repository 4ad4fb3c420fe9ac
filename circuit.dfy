/** The circuit queries of src/tor/circuit.rs: `get_circuits` sends
    `GETINFO circuit-status` and decodes the reply line by line;
    `new_circuit` sends `SIGNAL NEWNYM`. The client is the one of
    `TorControl`. */
module Circuits {
  import opened Wrappers
  import opened Errors
  import opened Text
  import opened TorCommands
  import TorControl

  const CIRCUIT_STATUS_QUERY := "GETINFO circuit-status\r\n"

  /** One decoded row. The third token is stored as `purpose`, although in
      the CIRC format of section 4.1.1 of the Tor control protocol
      specification it is the path. */
  datatype CircuitInfo = CircuitInfo(id: string, status: string, purpose: Option<string>, flags: Option<string>)

  // ------------------------------------------------------- specification

  /** The fields of a row by token position, with `id` given. */
  function FromTokens(id: string, parts: seq<string>): CircuitInfo
    requires |parts| >= 2
  {
    CircuitInfo(id, parts[1],
      if |parts| > 2 then Some(parts[2]) else None,
      if |parts| > 3 then Some(Join(parts[3..], " ")) else None)
  }

  /** A line that opens the section. */
  predicate IsMarker(line: string) {
    Contains(line, "circuit-status=")
  }

  /** A line that closes the section. */
  predicate EndsSection(line: string) {
    StartsWith(line, "250") && !Contains(line, "circuit-status")
  }

  /** The row a line inside the section yields, if any. */
  function SectionRow(line: string): Option<CircuitInfo> {
    var parts := SplitWhitespace(line);
    if Trim(line) != [] && !StartsWith(line, "250") && |parts| >= 2 then Some(FromTokens(parts[0], parts))
    else None
  }

  /** What the first pass does with one line. */
  datatype LineAction = Open | Close | Keep(row: CircuitInfo) | Pass

  function FirstPassAction(line: string, inSection: bool): LineAction {
    if IsMarker(line) then Open
    else if inSection && EndsSection(line) then Close
    else if inSection && SectionRow(line).Some? then Keep(SectionRow(line).value)
    else Pass
  }

  /** The first pass from a given line on, knowing whether the section is
      open. */
  function FirstPass(lines: seq<string>, inSection: bool): seq<CircuitInfo> {
    if lines == [] then []
    else
      match FirstPassAction(lines[0], inSection)
      case Open => FirstPass(lines[1..], true)
      case Close => []
      case Keep(row) => [row] + FirstPass(lines[1..], inSection)
      case Pass => FirstPass(lines[1..], inSection)
  }

  /** The text after the last `=` (all of it when there is none). */
  function AfterLastEquals(s: string): string {
    var pieces := Split(s, '=');
    pieces[|pieces| - 1]
  }

  /** The row the fallback pass takes from a line, if any. */
  function FallbackRow(line: string): Option<CircuitInfo> {
    var parts := SplitWhitespace(line);
    if (Contains(line, "circuit-status=") || Contains(line, "circuit ")) && |parts| >= 2 then
      Some(FromTokens(AfterLastEquals(parts[0]), parts))
    else None
  }

  /** The rows of every line, through a line decoder, in order. */
  function Rows(lines: seq<string>, fallback: bool): (r: seq<CircuitInfo>)
    ensures |r| <= |lines|
  {
    if lines == [] then []
    else
      var row := if fallback then FallbackRow(lines[0]) else SectionRow(lines[0]);
      (if row.Some? then [row.value] else []) + Rows(lines[1..], fallback)
  }

  /** `parse_circuit_status`: the first pass, or the fallback pass when the
      first found nothing. */
  function CircuitStatus(response: string): seq<CircuitInfo> {
    var lines := Lines(response);
    var first := FirstPass(lines, false);
    if first == [] then Rows(lines, true) else first
  }

  // ------------------------------------------------------------- methods

  /** `parse_circuit_status`; it never fails. */
  method ParseCircuitStatus(response: string) returns (r: TorrerResult<seq<CircuitInfo>>)
    ensures r == Ok(CircuitStatus(response))
  {
    var lines := Lines(response);
    var circuits := SectionPass(lines);
    if circuits == [] {
      circuits := FallbackPass(lines);
    }
    r := Ok(circuits);
  }

  /** The first loop of `parse_circuit_status`. */
  method SectionPass(lines: seq<string>) returns (circuits: seq<CircuitInfo>)
    ensures circuits == FirstPass(lines, false)
  {
    circuits := [];
    var inSection := false;
    var i := 0;
    while i < |lines|
      invariant 0 <= i <= |lines|
      invariant FirstPass(lines, false) == circuits + FirstPass(lines[i..], inSection)
    {
      FirstPassStep(lines, i, inSection);
      var line := lines[i];
      if IsMarker(line) {
        inSection := true;
        i := i + 1;
        continue;
      }
      if inSection && EndsSection(line) {
        break;
      }
      if inSection && Trim(line) != [] && !StartsWith(line, "250") {
        var parts := SplitWhitespace(line);
        if |parts| >= 2 {
          circuits := circuits + [FromTokens(parts[0], parts)];
        }
      }
      i := i + 1;
    }
    if i == |lines| {
      assert lines[i..] == [];
    }
  }

  /** The second loop of `parse_circuit_status`. */
  method FallbackPass(lines: seq<string>) returns (circuits: seq<CircuitInfo>)
    ensures circuits == Rows(lines, true)
  {
    circuits := [];
    for k := 0 to |lines|
      invariant Rows(lines, true) == circuits + Rows(lines[k..], true)
    {
      FallbackStep(lines, k);
      var line := lines[k];
      ghost var before, row := circuits, FallbackRow(line);
      if Contains(line, "circuit-status=") || Contains(line, "circuit ") {
        var parts := SplitWhitespace(line);
        if |parts| >= 2 {
          circuits := circuits + [FromTokens(AfterLastEquals(parts[0]), parts)];
        }
      }
      assert circuits == before + (if row.Some? then [row.value] else []);
      AppendAssoc(before, if row.Some? then [row.value] else [], Rows(lines[k + 1..], true));
    }
    assert lines[|lines|..] == [];
  }

  /** `get_circuits`: only a failure of the query is an error. */
  method GetCircuits(client: TorControl.TorClient) returns (r: TorrerResult<seq<CircuitInfo>>)
    modifies client
    ensures var st := TorControl.SessionSendRaw(old(client.State()), CIRCUIT_STATUS_QUERY);
      client.State() == st.session
      && r == if st.result.Ok? then Ok(CircuitStatus(st.result.value)) else Err(st.result.error)
  {
    var response := client.SendCommand(CIRCUIT_STATUS_QUERY);
    if response.Err? {
      return Err(response.error);
    }
    r := ParseCircuitStatus(response.value);
  }

  /** `new_circuit`: send `SIGNAL NEWNYM` and ignore the reply's content. */
  method NewCircuit(client: TorControl.TorClient) returns (r: TorrerResult<Unit>)
    modifies client
    ensures var st := TorControl.SessionSendRaw(old(client.State()), BuildSignalNewnym());
      client.State() == st.session
      && (r.Ok? <==> st.result.Ok?)
      && (r.Err? ==> r.error == st.result.error)
  {
    var response := client.SendCommand(BuildSignalNewnym());
    if response.Err? {
      return Err(response.error);
    }
    r := Ok(Unit);
  }

  // ---------------------------------------------------------------- lemmas

  /** One iteration of the first pass. */
  lemma FirstPassStep(lines: seq<string>, i: nat, inSection: bool)
    requires i < |lines|
    ensures FirstPass(lines[i..], inSection) ==
      match FirstPassAction(lines[i], inSection)
      case Open => FirstPass(lines[i + 1..], true)
      case Close => []
      case Keep(row) => [row] + FirstPass(lines[i + 1..], inSection)
      case Pass => FirstPass(lines[i + 1..], inSection)
  {
    assert lines[i..][0] == lines[i];
    assert lines[i..][1..] == lines[i + 1..];
  }

  /** One iteration of the fallback pass. */
  lemma FallbackStep(lines: seq<string>, k: nat)
    requires k < |lines|
    ensures Rows(lines[k..], true) ==
      (if FallbackRow(lines[k]).Some? then [FallbackRow(lines[k]).value] else []) + Rows(lines[k + 1..], true)
  {
    assert lines[k..][0] == lines[k];
    assert lines[k..][1..] == lines[k + 1..];
  }

  /** Every line up to and including the first marker is ignored. */
  lemma {:induction false} SkipsToMarker(pre: seq<string>, marker: string, post: seq<string>)
    requires forall k :: 0 <= k < |pre| ==> !IsMarker(pre[k])
    requires IsMarker(marker)
    ensures FirstPass(pre + [marker] + post, false) == FirstPass(post, true)
  {
    var all := pre + [marker] + post;
    if pre == [] {
      assert all[1..] == post;
    } else {
      assert all[0] == pre[0];
      assert all[1..] == pre[1..] + [marker] + post;
      SkipsToMarker(pre[1..], marker, post);
    }
  }

  /** The section closes at a line starting with `250` that does not
      mention `circuit-status`: nothing after it is read. */
  lemma SectionCloses(line: string, rest: seq<string>)
    requires EndsSection(line)
    ensures FirstPass([line] + rest, true) == []
  {
    assert !IsMarker(line) by {
      assert [] + "circuit-status" + "=" == "circuit-status=";
      if IsMarker(line) {
        ContainsPart(line, [], "circuit-status", "=");
      }
    }
  }

  /** Inside the section, lines that neither open nor close it are decoded
      one by one, in order. */
  lemma {:induction false} SectionBody(body: seq<string>, rest: seq<string>)
    requires forall k :: 0 <= k < |body| ==> !IsMarker(body[k]) && !StartsWith(body[k], "250")
    ensures FirstPass(body + rest, true) == Rows(body, false) + FirstPass(rest, true)
  {
    if body == [] {
      assert body + rest == rest;
    } else {
      assert body == [body[0]] + body[1..];
      assert body + rest == [body[0]] + (body[1..] + rest);
      SectionBody(body[1..], rest);
      SectionLine(body[0], body[1..], rest);
    }
  }

  /** One line of `SectionBody`. */
  lemma SectionLine(line: string, body: seq<string>, rest: seq<string>)
    requires !IsMarker(line) && !StartsWith(line, "250")
    requires FirstPass(body + rest, true) == Rows(body, false) + FirstPass(rest, true)
    ensures FirstPass([line] + (body + rest), true) == Rows([line] + body, false) + FirstPass(rest, true)
  {
    var lines := [line] + (body + rest);
    assert lines[0] == line && lines[1..] == body + rest;
    assert ([line] + body)[0] == line && ([line] + body)[1..] == body;
    var row := SectionRow(line);
    var front: seq<CircuitInfo> := if row.Some? then [row.value] else [];
    assert FirstPass(lines, true) == front + FirstPass(body + rest, true);
    assert Rows([line] + body, false) == front + Rows(body, false);
    AppendAssoc(front, Rows(body, false), FirstPass(rest, true));
  }

  /** A reply in the documented shape: lines before the marker, the
      marker line, the circuit rows, the closing `250` line. The result is
      the decoded rows; when none decodes, the fallback pass runs. */
  lemma ReplyShape(pre: seq<string>, marker: string, body: seq<string>, close: string, after: seq<string>)
    requires forall k :: 0 <= k < |pre| ==> !IsMarker(pre[k])
    requires IsMarker(marker)
    requires forall k :: 0 <= k < |body| ==> !IsMarker(body[k]) && !StartsWith(body[k], "250")
    requires EndsSection(close)
    ensures FirstPass(pre + [marker] + body + [close] + after, false) == Rows(body, false)
  {
    var post := body + ([close] + after);
    assert pre + [marker] + body + [close] + after == pre + [marker] + post;
    SkipsToMarker(pre, marker, post);
    SectionBody(body, [close] + after);
    SectionCloses(close, after);
  }

  /** A row line decodes by token position: id, status, the third token as
      `purpose`, the remaining tokens joined by single spaces as `flags`. */
  lemma RowByPosition(ts: seq<string>)
    requires |ts| >= 2
    requires forall k :: 0 <= k < |ts| ==> ts[k] != [] && NoWhitespace(ts[k])
    requires !StartsWith(Join(ts, " "), "250")
    ensures SectionRow(Join(ts, " ")) == Some(CircuitInfo(ts[0], ts[1],
      if |ts| > 2 then Some(ts[2]) else None,
      if |ts| > 3 then Some(Join(ts[3..], " ")) else None))
  {
    var line := Join(ts, " ");
    SplitJoinedTokens(ts);
    TrimEmptyIffAllWhitespace(line);
    assert line[0] == ts[0][0];
  }

  /** A CIRC row `<id> BUILT <path> PURPOSE=GENERAL`: the path lands in
      `purpose` and the `PURPOSE=` keyword argument in `flags`. */
  lemma PathStoredAsPurpose(id: string, path: string)
    requires id != [] && NoWhitespace(id) && path != [] && NoWhitespace(path)
    requires !StartsWith(id + " BUILT " + path + " PURPOSE=GENERAL", "250")
    ensures SectionRow(id + " BUILT " + path + " PURPOSE=GENERAL")
      == Some(CircuitInfo(id, "BUILT", Some(path), Some("PURPOSE=GENERAL")))
  {
    var ts := [id, "BUILT", path, "PURPOSE=GENERAL"];
    var t1, t2, t3 := ts[1..], ts[2..], ts[3..];
    assert t3 == ["PURPOSE=GENERAL"] && t2[1..] == t3 && t1[1..] == t2;
    assert Join(ts, " ") == id + " BUILT " + path + " PURPOSE=GENERAL" by {
      assert Join(t2, " ") == path + " " + "PURPOSE=GENERAL";
      assert Join(t1, " ") == "BUILT" + " " + path + " " + "PURPOSE=GENERAL";
    }
    RowByPosition(ts);
  }

  /** A line with fewer than two tokens, such as `.`, yields no row. */
  lemma {:induction false} ShortLinesSkipped(lines: seq<string>, fallback: bool)
    requires forall k :: 0 <= k < |lines| ==> |SplitWhitespace(lines[k])| < 2
    ensures Rows(lines, fallback) == []
  {
    if lines != [] {
      ShortLinesSkipped(lines[1..], fallback);
    }
  }

  /** The id of a fallback row is the text after the last `=` of its first
      token. */
  lemma {:induction false} AfterLastEqualsIs(s: string, id: string)
    requires '=' !in id
    ensures AfterLastEquals(s + "=" + id) == id
    decreases |s|
  {
    var t := s + "=" + id;
    assert t[..|s|] == s;
    if '=' in s {
      var i := IndexOfChar(s, '=');
      assert t[..i] == s[..i] && t[i] == '=';
      IndexOfCharIs(t, '=', i);
      assert Split(t, '=') == [t[..i]] + Split(t[i + 1..], '=');
      assert t[i + 1..] == s[i + 1..] + "=" + id;
      AfterLastEqualsIs(s[i + 1..], id);
    } else {
      IndexOfCharIs(t, '=', |s|);
      assert Split(t, '=') == [s] + Split(id, '=') by {
        assert t[|s| + 1..] == id;
      }
    }
  }

  /** `parse_circuit_status` yields at most one circuit per line of the reply. */
  lemma CircuitStatusBounded(response: string)
    ensures |CircuitStatus(response)| <= |Lines(response)|
  {
    FirstPassBounded(Lines(response), false);
  }

  /** At most one row per line. */
  lemma {:induction false} FirstPassBounded(lines: seq<string>, inSection: bool)
    ensures |FirstPass(lines, inSection)| <= |lines|
  {
    if lines != [] {
      FirstPassBounded(lines[1..], true);
      FirstPassBounded(lines[1..], inSection);
    }
  }
}
