/** The bridge list file and its manager (src/bridge/manager.rs). The file
    system is the manager's state: `file` is what
    `/etc/tor/torrer-bridges/bridges.conf` holds. How each save ends on
    the file system is an input. */
module BridgeStorage {
  import opened Wrappers
  import opened Text
  import opened Decimal
  import opened Errors
  import opened Bridges
  import opened Probes

  const BRIDGE_CONFIG_DIR := "/etc/tor/torrer-bridges"
  const BRIDGE_CONFIG_FILE := "bridges.conf"
  const HEADER := "# Torrer Bridge Configuration"

  /** A text file: missing, present but unreadable (with the text of the
      I/O error), or present with its text. */
  datatype TextFile = Missing | Unreadable(reason: string) | Present(text: string)

  /** How the file system treats one `save_bridges`: every line written,
      `File::create` failing, or the write of line `line` failing (line 0
      is the header) once the lines before it are written. */
  datatype WriteOutcome = Written | CreateFailed(reason: string) | WriteFailed(line: nat, reason: string)

  /** A result with the bridge file an operation leaves. */
  datatype FileStep<T> = FileStep(result: TorrerResult<T>, file: TextFile)

  /** What one line of a bridge file lists: the line, trimmed, is skipped
      when empty, a `#` comment or not a bridge. */
  function ParseBridgeLine(line: string): (r: seq<Bridge>)
    ensures |r| <= 1
    ensures forall i :: 0 <= i < |r| ==> WellFormed(r[i])
  {
    var t := Trim(line);
    if t == [] || t[0] == '#' then []
    else match FromStr(t)
      case Ok(b) => [b]
      case Err(_) => []
  }

  /** The bridges listed in a bridge file, line by line; other lines are
      skipped silently. */
  function ParseBridgeLines(ls: seq<string>): (r: seq<Bridge>)
    ensures |r| <= |ls|
    ensures forall i :: 0 <= i < |r| ==> WellFormed(r[i])
  {
    if ls == [] then [] else ParseBridgeLine(ls[0]) + ParseBridgeLines(ls[1..])
  }

  /** `list_bridges` on the bridge file: a missing file lists nothing, an
      unreadable one is an error. */
  function ListBridgesOf(f: TextFile): (r: TorrerResult<seq<Bridge>>)
    ensures r.Err? <==> f.Unreadable?
    ensures f.Missing? ==> r == Ok([])
    ensures f.Unreadable? ==> r == Err(TorrerError.Bridge("Failed to read bridge config: " + f.reason))
    ensures r.Ok? ==> forall i :: 0 <= i < |r.value| ==> WellFormed(r.value[i])
  {
    match f
    case Missing => Ok([])
    case Unreadable(e) => Err(TorrerError.Bridge("Failed to read bridge config: " + e))
    case Present(text) => Ok(ParseBridgeLines(Lines(text)))
  }

  /** One `to_tor_config` line per bridge, in order. */
  function TorConfigLines(bs: seq<Bridge>): (r: seq<string>)
    ensures |r| == |bs|
    ensures forall i :: 0 <= i < |bs| ==> r[i] == ToTorConfig(bs[i])
  {
    if bs == [] then [] else [ToTorConfig(bs[0])] + TorConfigLines(bs[1..])
  }

  /** The lines `save_bridges` writes: the header, then each bridge's line. */
  function SaveLines(bs: seq<Bridge>): seq<string> {
    [HEADER] + TorConfigLines(bs)
  }

  /** What `save_bridges` writes when every write succeeds. */
  function SavedText(bs: seq<Bridge>): string {
    Terminated(SaveLines(bs))
  }

  /** A save that writes every line: no failure, or a failure at a line
      past the last. */
  predicate SaveSucceeds(bs: seq<Bridge>, w: WriteOutcome) {
    w.Written? || (w.WriteFailed? && w.line > |bs|)
  }

  /** `save_bridges` from the file `f`: a failed create leaves the file as
      it was; a failed write leaves the lines written before it. */
  function SaveSpec(f: TextFile, bs: seq<Bridge>, w: WriteOutcome): FileStep<Unit> {
    match w
    case CreateFailed(e) => FileStep(Err(TorrerError.Bridge("Failed to create bridge config file: " + e)), f)
    case WriteFailed(k, e) =>
      if k <= |bs| then FileStep(Err(TorrerError.Bridge("Failed to write bridge config: " + e)), Present(Terminated(SaveLines(bs)[..k])))
      else FileStep(Ok(Unit), Present(SavedText(bs)))
    case Written => FileStep(Ok(Unit), Present(SavedText(bs)))
  }

  /** `add_bridge` from the file `f`. */
  function AddSpec(f: TextFile, b: Bridge, w: WriteOutcome): FileStep<Unit> {
    match Validate(b)
    case Err(e) => FileStep(Err(TorrerError.Bridge("Invalid bridge format: " + e)), f)
    case Ok(_) =>
      match ListBridgesOf(f)
      case Err(e) => FileStep(Err(e), f)
      case Ok(bs) =>
        if HasEndpoint(bs, b.address, b.port) then
          FileStep(Err(TorrerError.Bridge("Bridge " + b.address + ":" + NatToString(b.port) + " already exists")), f)
        else SaveSpec(f, bs + [b], w)
  }

  /** `remove_bridge` from the file `f`. */
  function RemoveSpec(f: TextFile, address: string, port: u16, w: WriteOutcome): FileStep<Unit> {
    match ListBridgesOf(f)
    case Err(e) => FileStep(Err(e), f)
    case Ok(bs) =>
      var kept := WithoutEndpoint(bs, address, port);
      if |kept| == |bs| then FileStep(Err(TorrerError.Bridge("Bridge not found")), f)
      else SaveSpec(f, kept, w)
  }

  /** `get_tor_bridges` on the file `f`. */
  function TorBridgesOf(f: TextFile): TorrerResult<seq<string>> {
    match ListBridgesOf(f)
    case Err(e) => Err(e)
    case Ok(bs) => Ok(TorConfigLines(bs))
  }

  /** `apply_to_tor` from the file `f`: with no bridges nothing is written. */
  function ApplySpec(f: TextFile, w: WriteOutcome): FileStep<Unit> {
    match ListBridgesOf(f)
    case Err(e) => FileStep(Err(e), f)
    case Ok(bs) => if bs == [] then FileStep(Ok(Unit), f) else SaveSpec(f, bs, w)
  }

  /** What one line of a Tor configuration file lists: the trimmed line
      counts when it starts with the keyword `Bridge ` (in any case) and
      parses. */
  function ParseTorrcLine(line: string): (r: seq<Bridge>)
    ensures r != [] <==> StartsWith(Upper(Trim(line)), "BRIDGE ") && FromStr(Trim(line)).Ok?
    ensures r != [] ==> r == [FromStr(Trim(line)).value]
    ensures forall i :: 0 <= i < |r| ==> WellFormed(r[i])
  {
    var t := Trim(line);
    if StartsWith(Upper(t), "BRIDGE ") then
      match FromStr(t)
      case Ok(b) => [b]
      case Err(_) => []
    else []
  }

  /** The bridges of a Tor configuration file, line by line. */
  function ParseTorrcLines(ls: seq<string>): (r: seq<Bridge>)
    ensures |r| <= |ls|
    ensures forall i :: 0 <= i < |r| ==> WellFormed(r[i])
  {
    if ls == [] then [] else ParseTorrcLine(ls[0]) + ParseTorrcLines(ls[1..])
  }

  /** `read_from_tor_config` on a torrc: a missing file gives no bridges,
      an unreadable one an error. */
  function ReadFromTorConfig(torrc: TextFile): (r: TorrerResult<seq<Bridge>>)
    ensures r.Err? <==> torrc.Unreadable?
    ensures r.Err? ==> r.error == TorrerError.Bridge("Failed to read Tor config file: " + torrc.reason)
    ensures torrc.Present? ==> r == Ok(ParseTorrcLines(Lines(torrc.text)))
  {
    match torrc
    case Missing => Ok([])
    case Unreadable(e) => Err(TorrerError.Bridge("Failed to read Tor config file: " + e))
    case Present(text) => Ok(ParseTorrcLines(Lines(text)))
  }

  predicate HasEndpoint(bs: seq<Bridge>, address: string, port: nat) {
    exists i :: 0 <= i < |bs| && bs[i].address == address && bs[i].port == port
  }

  /** `retain` keeping the bridges at a different address or port. */
  function WithoutEndpoint(bs: seq<Bridge>, address: string, port: nat): (r: seq<Bridge>)
    ensures |r| <= |bs|
    ensures !HasEndpoint(r, address, port)
    ensures |r| == |bs| <==> !HasEndpoint(bs, address, port)
    ensures forall i :: 0 <= i < |r| ==> r[i] in bs
    ensures forall i :: 0 <= i < |bs| && !(bs[i].address == address && bs[i].port == port) ==> bs[i] in r
  {
    if bs == [] then []
    else
      var rest := WithoutEndpoint(bs[1..], address, port);
      assert forall i :: 1 <= i < |bs| ==> bs[i] == bs[1..][i - 1];
      if bs[0].address == address && bs[0].port == port then rest
      else [bs[0]] + rest
  }

  /** No two bridges share an address and port. */
  predicate UniqueEndpoints(bs: seq<Bridge>) {
    forall i, j :: 0 <= i < j < |bs| ==> !(bs[i].address == bs[j].address && bs[i].port == bs[j].port)
  }

  /** `test_bridge`: never an error; `true` exactly when the connection was
      made within the timeout. */
  function TestBridge(outcome: ConnectOutcome): (r: TorrerResult<bool>)
    ensures r.Ok?
    ensures r.value <==> outcome == Connected
  {
    match outcome
    case Connected => Ok(true)
    case ConnectFailed => Ok(false)
    case TimedOut => Ok(false)
  }

  class BridgeManager {
    /** The bridge file. */
    var file: TextFile

    /** `BridgeManager::new`, over whatever the bridge file holds. */
    constructor(existing: TextFile)
      ensures file == existing
    {
      file := existing;
    }

    /** `list_bridges`. */
    method ListBridges() returns (r: TorrerResult<seq<Bridge>>)
      ensures r == ListBridgesOf(file)
    {
      match file
      case Missing =>
        r := Ok([]);
      case Unreadable(e) =>
        r := Err(TorrerError.Bridge("Failed to read bridge config: " + e));
      case Present(text) =>
        r := Ok(ParseBridgeLines(Lines(text)));
    }

    /** `save_bridges`: create (truncate) the file, then write the header
        and one line per bridge, stopping at the first failed write. */
    method SaveBridges(bs: seq<Bridge>, w: WriteOutcome) returns (r: TorrerResult<Unit>)
      modifies this
      ensures FileStep(r, file) == SaveSpec(old(file), bs, w)
    {
      if w.CreateFailed? {
        return Err(TorrerError.Bridge("Failed to create bridge config file: " + w.reason));
      }
      file := Present([]);
      if w.WriteFailed? && w.line == 0 {
        return Err(TorrerError.Bridge("Failed to write bridge config: " + w.reason));
      }
      WrittenHeader(bs);
      file := Present(file.text + HEADER + "\n");
      for i := 0 to |bs|
        invariant file == Present(Terminated(SaveLines(bs)[..i + 1]))
        invariant !(w.WriteFailed? && w.line <= i)
      {
        if w.WriteFailed? && w.line == i + 1 {
          return Err(TorrerError.Bridge("Failed to write bridge config: " + w.reason));
        }
        WrittenBridge(bs, i);
        file := Present(file.text + ToTorConfig(bs[i]) + "\n");
      }
      WrittenAll(bs);
      r := Ok(Unit);
    }

    /** `add_bridge`: rejected when `validate` fails, the file cannot be
        read, or a bridge with the same address and port is listed;
        otherwise appended and saved. */
    method AddBridge(b: Bridge, w: WriteOutcome) returns (r: TorrerResult<Unit>)
      modifies this
      ensures FileStep(r, file) == AddSpec(old(file), b, w)
    {
      var valid := Validate(b);
      if valid.Err? {
        return Err(TorrerError.Bridge("Invalid bridge format: " + valid.error));
      }
      var bridges := ListBridges();
      if bridges.Err? {
        return Err(bridges.error);
      }
      if HasEndpoint(bridges.value, b.address, b.port) {
        return Err(TorrerError.Bridge("Bridge " + b.address + ":" + NatToString(b.port) + " already exists"));
      }
      r := SaveBridges(bridges.value + [b], w);
    }

    /** `remove_bridge`: every bridge at `address:port` is dropped and the
        rest saved; an error when there was none. */
    method RemoveBridge(address: string, port: u16, w: WriteOutcome) returns (r: TorrerResult<Unit>)
      modifies this
      ensures FileStep(r, file) == RemoveSpec(old(file), address, port, w)
    {
      var bridges := ListBridges();
      if bridges.Err? {
        return Err(bridges.error);
      }
      var kept := WithoutEndpoint(bridges.value, address, port);
      if |kept| == |bridges.value| {
        return Err(TorrerError.Bridge("Bridge not found"));
      }
      r := SaveBridges(kept, w);
    }

    /** `get_tor_bridges`: the configuration line of every listed bridge. */
    method GetTorBridges() returns (r: TorrerResult<seq<string>>)
      ensures r == TorBridgesOf(file)
    {
      var bridges := ListBridges();
      if bridges.Err? {
        return Err(bridges.error);
      }
      r := Ok(TorConfigLines(bridges.value));
    }

    /** `apply_to_tor`: with no bridges nothing is written; otherwise the
        list is saved again. */
    method ApplyToTor(w: WriteOutcome) returns (r: TorrerResult<Unit>)
      modifies this
      ensures FileStep(r, file) == ApplySpec(old(file), w)
    {
      var bridges := ListBridges();
      if bridges.Err? {
        return Err(bridges.error);
      }
      if bridges.value == [] {
        return Ok(Unit);
      }
      r := SaveBridges(bridges.value, w);
    }
  }

  // ---------------------------------------------------------------- lemmas

  lemma TorConfigTerminatorFree(b: Bridge)
    requires WellFormed(b)
    ensures TerminatorFree(ToTorConfig(b))
  {
    var ps := NatToString(b.port);
    assert NoWhitespace(ps) by {
      assert forall i :: 0 <= i < |ps| ==> IsDigit(ps[i]);
    }
    NoWhitespaceNoLineBreak(ps);
    NoWhitespaceNoLineBreak(b.address);
    assert '\n' !in Endpoint(b);
    if b.fingerprint.Some? {
      NoWhitespaceNoLineBreak(b.fingerprint.value);
    }
    if b.transport.Some? {
      NoWhitespaceNoLineBreak(b.transport.value);
    }
    assert '\n' !in Fields(b);
    TorConfigIsTrimmed(b);
  }

  /** A well-formed bridge's line lists exactly that bridge in the
      bridge file. */
  lemma BridgeFileLine(b: Bridge)
    requires WellFormed(b)
    ensures ParseBridgeLine(ToTorConfig(b)) == [b]
  {
    TorConfigIsTrimmed(b);
    ParseToTorConfig(b);
    assert ToTorConfig(b)[0] == 'B';
  }

  /** ... and in a Tor configuration file. */
  lemma TorrcLine(b: Bridge)
    requires WellFormed(b)
    ensures ParseTorrcLine(ToTorConfig(b)) == [b]
  {
    TorConfigIsTrimmed(b);
    ParseToTorConfig(b);
    TorConfigKeyword(b);
  }

  lemma ParseBridgeLinesCons(l: string, ls: seq<string>)
    ensures ParseBridgeLines([l] + ls) == ParseBridgeLine(l) + ParseBridgeLines(ls)
  {
    assert ([l] + ls)[1..] == ls;
  }

  lemma ParseTorrcLinesCons(l: string, ls: seq<string>)
    ensures ParseTorrcLines([l] + ls) == ParseTorrcLine(l) + ParseTorrcLines(ls)
  {
    assert ([l] + ls)[1..] == ls;
  }

  /** The bridge file lines of well-formed bridges list those bridges, in
      order. */
  lemma {:induction false} ParseTorConfigLines(bs: seq<Bridge>)
    requires forall i :: 0 <= i < |bs| ==> WellFormed(bs[i])
    ensures ParseBridgeLines(TorConfigLines(bs)) == bs
    decreases |bs|
  {
    if bs != [] {
      ParseTorConfigLines(bs[1..]);
      BridgeFileLine(bs[0]);
      ParseBridgeLinesCons(ToTorConfig(bs[0]), TorConfigLines(bs[1..]));
    }
  }

  /** ... and so do they read as a Tor configuration file. */
  lemma {:induction false} ReadTorConfigLines(bs: seq<Bridge>)
    requires forall i :: 0 <= i < |bs| ==> WellFormed(bs[i])
    ensures ParseTorrcLines(TorConfigLines(bs)) == bs
    decreases |bs|
  {
    if bs != [] {
      var rest := TorConfigLines(bs[1..]);
      assert TorConfigLines(bs) == [ToTorConfig(bs[0])] + rest;
      ReadTorConfigLines(bs[1..]);
      TorrcLine(bs[0]);
      ParseTorrcLinesCons(ToTorConfig(bs[0]), rest);
      assert bs == [bs[0]] + bs[1..];
    }
  }

  /** A `#` comment line whose ends are not whitespace lists no bridge in
      either reading. */
  lemma CommentLine(h: string)
    requires h != [] && h[0] == '#' && !IsWhitespace(h[|h| - 1])
    ensures ParseBridgeLine(h) == []
    ensures ParseTorrcLine(h) == []
  {
    TrimIdentity(h);
    assert Upper(h)[0] == '#';
  }

  lemma HeaderTerminatorFree()
    ensures TerminatorFree(HEADER)
  {
  }

  /** The header line is such a comment. */
  lemma HeaderLine()
    ensures ParseBridgeLine(HEADER) == []
    ensures ParseTorrcLine(HEADER) == []
  {
    CommentLine(HEADER);
  }

  lemma SavedLinesTerminatorFree(header: string, bs: seq<Bridge>)
    requires TerminatorFree(header)
    requires forall i :: 0 <= i < |bs| ==> WellFormed(bs[i])
    ensures forall k :: 0 <= k < |bs| + 1 ==> TerminatorFree(([header] + TorConfigLines(bs))[k])
  {
    var ls := [header] + TorConfigLines(bs);
    forall k | 0 <= k < |bs| + 1 ensures TerminatorFree(ls[k]) {
      if k > 0 {
        assert ls[k] == ToTorConfig(bs[k - 1]);
        TorConfigTerminatorFree(bs[k - 1]);
      }
    }
  }

  lemma SavedLinesWith(header: string, bs: seq<Bridge>)
    requires TerminatorFree(header)
    requires forall i :: 0 <= i < |bs| ==> WellFormed(bs[i])
    ensures Lines(Terminated([header] + TorConfigLines(bs))) == [header] + TorConfigLines(bs)
  {
    SavedLinesTerminatorFree(header, bs);
    LinesOfTerminated([header] + TorConfigLines(bs));
  }

  /** Stated for every header, so that the literal header is substituted
      only once the proof is done. */
  lemma SavedLinesOf(bs: seq<Bridge>)
    requires forall i :: 0 <= i < |bs| ==> WellFormed(bs[i])
    ensures forall h :: TerminatorFree(h) ==> Lines(Terminated([h] + TorConfigLines(bs))) == [h] + TorConfigLines(bs)
  {
    forall h | TerminatorFree(h)
      ensures Lines(Terminated([h] + TorConfigLines(bs))) == [h] + TorConfigLines(bs)
    {
      SavedLinesWith(h, bs);
    }
  }

  /** The saved text's lines are the header and the bridges' lines. */
  lemma SavedLines(bs: seq<Bridge>)
    requires forall i :: 0 <= i < |bs| ==> WellFormed(bs[i])
    ensures Lines(SavedText(bs)) == [HEADER] + TorConfigLines(bs)
  {
    SavedLinesOf(bs);
    HeaderTerminatorFree();
  }

  /** `list_bridges` reads back exactly what `save_bridges` wrote. */
  lemma ParseSavedText(bs: seq<Bridge>)
    requires forall i :: 0 <= i < |bs| ==> WellFormed(bs[i])
    ensures ListBridgesOf(Present(SavedText(bs))) == Ok(bs)
  {
    SavedLines(bs);
    HeaderLines(bs);
  }

  /** Behind the header, both readings list the saved bridges. */
  lemma HeaderLines(bs: seq<Bridge>)
    requires forall i :: 0 <= i < |bs| ==> WellFormed(bs[i])
    ensures ParseBridgeLines([HEADER] + TorConfigLines(bs)) == bs
    ensures ParseTorrcLines([HEADER] + TorConfigLines(bs)) == bs
  {
    var ls := [HEADER] + TorConfigLines(bs);
    assert ls[1..] == TorConfigLines(bs);
    HeaderLine();
    ParseTorConfigLines(bs);
    ReadTorConfigLines(bs);
    assert ParseBridgeLines(ls) == ParseBridgeLine(HEADER) + ParseBridgeLines(ls[1..]);
    assert ParseTorrcLines(ls) == ParseTorrcLine(HEADER) + ParseTorrcLines(ls[1..]);
  }

  /** The saved bridge file, read as a Tor configuration file, yields the
      same bridges: the header is not a `Bridge` line. */
  lemma ReadSavedTextAsTorrc(bs: seq<Bridge>)
    requires forall i :: 0 <= i < |bs| ==> WellFormed(bs[i])
    ensures ReadFromTorConfig(Present(SavedText(bs))) == Ok(bs)
  {
    SavedLines(bs);
    HeaderLines(bs);
  }

  /** Bridge lines are parsed one at a time. */
  lemma {:induction false} ParseBridgeLinesAppend(a: seq<string>, b: seq<string>)
    ensures ParseBridgeLines(a + b) == ParseBridgeLines(a) + ParseBridgeLines(b)
    decreases |a|
  {
    if a != [] {
      assert a + b == [a[0]] + (a[1..] + b);
      assert a == [a[0]] + a[1..];
      ParseBridgeLinesCons(a[0], a[1..] + b);
      ParseBridgeLinesCons(a[0], a[1..]);
      ParseBridgeLinesAppend(a[1..], b);
      AppendAssoc(ParseBridgeLine(a[0]), ParseBridgeLines(a[1..]), ParseBridgeLines(b));
    } else {
      assert a + b == b;
    }
  }

  /** So are the lines of a Tor configuration file. */
  lemma {:induction false} ParseTorrcLinesAppend(a: seq<string>, b: seq<string>)
    ensures ParseTorrcLines(a + b) == ParseTorrcLines(a) + ParseTorrcLines(b)
    decreases |a|
  {
    if a != [] {
      assert a + b == [a[0]] + (a[1..] + b);
      assert a == [a[0]] + a[1..];
      ParseTorrcLinesCons(a[0], a[1..] + b);
      ParseTorrcLinesCons(a[0], a[1..]);
      ParseTorrcLinesAppend(a[1..], b);
      AppendAssoc(ParseTorrcLine(a[0]), ParseTorrcLines(a[1..]), ParseTorrcLines(b));
    } else {
      assert a + b == b;
    }
  }

  /** A bridge written without the `Bridge` keyword (`ADDRESS:PORT ...`)
      parses, and so is listed by the bridge file, but is not a bridge
      line of a Tor configuration file. */
  lemma KeywordlessLine(b: Bridge)
    requires WellFormed(b)
    ensures FromStr(Fields(b)) == Ok(b)
    ensures ParseTorrcLine(Fields(b)) == []
  {
    FieldsTrimmed(b);
    NoKeyword(b);
    FromFieldsOfBridge(b);
  }

  lemma FieldsTrimmed(b: Bridge)
    requires WellFormed(b)
    ensures Trim(Fields(b)) == Fields(b)
  {
    assert Fields(b)[0] == b.address[0];
    FieldsSplit(b);
    TrimIdentity(Fields(b));
  }

  /** The fields start with the address, which has no `:` and no space. */
  lemma NoKeyword(b: Bridge)
    requires WellFormed(b)
    ensures !StartsWith(Upper(Fields(b)), "BRIDGE ")
  {
    var s := Fields(b);
    var n := |b.address|;
    if n < 7 {
      assert s[n] == ':';
      assert Upper(s)[n] == ':';
      assert "BRIDGE "[n] != ':';
    } else {
      assert s[6] == b.address[6];
      assert !IsWhitespace(b.address[6]);
      assert Upper(s)[6] != ' ';
    }
  }

  /** Writing one more line extends the text by that line and `\n`. */
  lemma TerminatedPrefixSnoc(ls: seq<string>, k: nat)
    requires k < |ls|
    ensures Terminated(ls[..k + 1]) == Terminated(ls[..k]) + ls[k] + "\n"
  {
    assert ls[..k + 1] == ls[..k] + [ls[k]];
    TerminatedAppend(ls[..k], [ls[k]]);
    TerminatedCons(ls[k], []);
    AppendAssoc(Terminated(ls[..k]), ls[k], "\n");
  }

  /** The text `save_bridges` has written after the header ... */
  lemma WrittenHeader(bs: seq<Bridge>)
    ensures Terminated(SaveLines(bs)[..1]) == [] + HEADER + "\n"
  {
    TerminatedPrefixSnoc(SaveLines(bs), 0);
  }

  /** ... after the line of bridge `i` ... */
  lemma WrittenBridge(bs: seq<Bridge>, i: nat)
    requires i < |bs|
    ensures Terminated(SaveLines(bs)[..i + 2]) == Terminated(SaveLines(bs)[..i + 1]) + ToTorConfig(bs[i]) + "\n"
  {
    TerminatedPrefixSnoc(SaveLines(bs), i + 1);
  }

  /** ... and after the last line. */
  lemma WrittenAll(bs: seq<Bridge>)
    ensures Terminated(SaveLines(bs)[..|bs| + 1]) == SavedText(bs)
  {
    assert SaveLines(bs)[..|bs| + 1] == SaveLines(bs);
  }

  /** The first `k + 1` lines `save_bridges` writes are those of the first
      `k` bridges. */
  lemma SaveLinesPrefix(bs: seq<Bridge>, k: nat)
    requires k <= |bs|
    ensures SaveLines(bs)[..k + 1] == SaveLines(bs[..k])
  {
    var a := TorConfigLines(bs);
    var c := TorConfigLines(bs[..k]);
    assert a[..k] == c;
  }

  /** What `list_bridges` reads after a save: all the bridges when every
      write succeeded; those written before the failed write otherwise; and
      the untouched file when it could not be created. */
  lemma SaveOutcome(f: TextFile, bs: seq<Bridge>, w: WriteOutcome)
    requires forall i :: 0 <= i < |bs| ==> WellFormed(bs[i])
    ensures SaveSpec(f, bs, w).result.Ok? <==> SaveSucceeds(bs, w)
    ensures SaveSucceeds(bs, w) ==> ListBridgesOf(SaveSpec(f, bs, w).file) == Ok(bs)
    ensures w.CreateFailed? ==> SaveSpec(f, bs, w).file == f
    ensures w.WriteFailed? && w.line == 0 ==> ListBridgesOf(SaveSpec(f, bs, w).file) == Ok([])
    ensures w.WriteFailed? && 0 < w.line <= |bs| ==> ListBridgesOf(SaveSpec(f, bs, w).file) == Ok(bs[..w.line - 1])
  {
    if SaveSucceeds(bs, w) {
      ParseSavedText(bs);
    } else if w.WriteFailed? && 0 < w.line {
      SaveLinesPrefix(bs, w.line - 1);
      ParseSavedText(bs[..w.line - 1]);
    } else if w.WriteFailed? {
      assert SaveLines(bs)[..0] == [];
    }
  }

  /** `add_bridge` succeeds exactly when the bridge validates, the file
      reads, no listed bridge has its address and port, and every write
      succeeds. Then a well-formed bridge is listed last, and unique
      endpoints stay unique. A bridge rejected before writing leaves the
      file as it was. */
  lemma AddOutcome(f: TextFile, b: Bridge, w: WriteOutcome)
    ensures AddSpec(f, b, w).result.Ok? <==>
      Validate(b).Ok? && ListBridgesOf(f).Ok? && !HasEndpoint(ListBridgesOf(f).value, b.address, b.port)
      && SaveSucceeds(ListBridgesOf(f).value + [b], w)
    ensures AddSpec(f, b, w).result.Ok? && WellFormed(b) ==>
      ListBridgesOf(AddSpec(f, b, w).file) == Ok(ListBridgesOf(f).value + [b])
    ensures AddSpec(f, b, w).result.Ok? && WellFormed(b) && UniqueEndpoints(ListBridgesOf(f).value) ==>
      UniqueEndpoints(ListBridgesOf(AddSpec(f, b, w).file).value)
    ensures AddSpec(f, b, w).file != f ==>
      Validate(b).Ok? && ListBridgesOf(f).Ok? && !HasEndpoint(ListBridgesOf(f).value, b.address, b.port) && !w.CreateFailed?
  {
    if Validate(b).Ok? && ListBridgesOf(f).Ok? && !HasEndpoint(ListBridgesOf(f).value, b.address, b.port) && WellFormed(b) {
      var bs := ListBridgesOf(f).value;
      AppendKeepsUnique(bs, b);
      SaveOutcome(f, bs + [b], w);
    }
  }

  /** `remove_bridge` succeeds exactly when the file reads, some listed
      bridge has the address and port, and every write succeeds; the
      listing is then the old one without them, in order. */
  lemma RemoveOutcome(f: TextFile, address: string, port: u16, w: WriteOutcome)
    ensures RemoveSpec(f, address, port, w).result.Ok? <==>
      ListBridgesOf(f).Ok? && HasEndpoint(ListBridgesOf(f).value, address, port)
      && SaveSucceeds(WithoutEndpoint(ListBridgesOf(f).value, address, port), w)
    ensures RemoveSpec(f, address, port, w).result.Ok? ==>
      ListBridgesOf(RemoveSpec(f, address, port, w).file) == Ok(WithoutEndpoint(ListBridgesOf(f).value, address, port))
    ensures RemoveSpec(f, address, port, w).file != f ==>
      ListBridgesOf(f).Ok? && HasEndpoint(ListBridgesOf(f).value, address, port) && !w.CreateFailed?
  {
    if ListBridgesOf(f).Ok? {
      var bs := ListBridgesOf(f).value;
      var kept := WithoutEndpoint(bs, address, port);
      assert forall i :: 0 <= i < |kept| ==> WellFormed(kept[i]) by {
        forall i | 0 <= i < |kept| ensures WellFormed(kept[i]) {
          var j :| 0 <= j < |bs| && bs[j] == kept[i];
        }
      }
      SaveOutcome(f, kept, w);
    }
  }

  /** `get_tor_bridges` fails only on an unreadable file, and each line it
      gives reads back as the listed bridge at that position. */
  lemma TorBridgesOutcome(f: TextFile)
    ensures TorBridgesOf(f).Err? <==> f.Unreadable?
    ensures TorBridgesOf(f).Ok? ==> |TorBridgesOf(f).value| == |ListBridgesOf(f).value|
    ensures TorBridgesOf(f).Ok? ==>
      forall i :: 0 <= i < |TorBridgesOf(f).value| ==> FromStr(TorBridgesOf(f).value[i]) == Ok(ListBridgesOf(f).value[i])
  {
    if f.Present? {
      var bs := ListBridgesOf(f).value;
      forall i | 0 <= i < |bs| ensures FromStr(TorConfigLines(bs)[i]) == Ok(bs[i]) {
        ParseToTorConfig(bs[i]);
      }
    }
  }

  /** `apply_to_tor` succeeds exactly when the file reads and either lists
      nothing or is saved in full; it never changes what is listed. */
  lemma ApplyOutcome(f: TextFile, w: WriteOutcome)
    ensures ApplySpec(f, w).result.Ok? <==>
      ListBridgesOf(f).Ok? && (ListBridgesOf(f).value == [] || SaveSucceeds(ListBridgesOf(f).value, w))
    ensures ApplySpec(f, w).result.Ok? ==> ListBridgesOf(ApplySpec(f, w).file) == ListBridgesOf(f)
  {
    if ListBridgesOf(f).Ok? && ListBridgesOf(f).value != [] {
      SaveOutcome(f, ListBridgesOf(f).value, w);
    }
  }

  /** Saving a listed bridge list with one more bridge appended lists the
      old bridges first, then whatever the new line reads as. */
  lemma SavedTextExtends(bs: seq<Bridge>, b: Bridge)
    requires forall i :: 0 <= i < |bs| ==> WellFormed(bs[i])
    ensures ListBridgesOf(Present(SavedText(bs + [b]))) == Ok(bs + ParseBridgeLines(Lines(ToTorConfig(b) + "\n")))
  {
    var head := [HEADER] + TorConfigLines(bs);
    var last := ToTorConfig(b);
    assert SaveLines(bs + [b]) == head + [last];
    assert Terminated([last]) == last + "\n";
    TerminatedAppend(head, [last]);
    assert Lines(Terminated(head) + (last + "\n")) == head + Lines(last + "\n") by {
      HeaderTerminatorFree();
      SavedLinesTerminatorFree(HEADER, bs);
      LinesAfterTerminated(head, last + "\n");
    }
    ParseBridgeLinesAppend(head, Lines(last + "\n"));
    HeaderLines(bs);
  }

  lemma AppendKeepsUnique(bs: seq<Bridge>, b: Bridge)
    requires !HasEndpoint(bs, b.address, b.port) && WellFormed(b)
    requires forall i :: 0 <= i < |bs| ==> WellFormed(bs[i])
    ensures forall i :: 0 <= i < |bs + [b]| ==> WellFormed((bs + [b])[i])
    ensures UniqueEndpoints(bs) ==> UniqueEndpoints(bs + [b])
  {
  }

  /** `retain` filters each part of a list on its own, so the kept bridges
      keep their order. */
  lemma {:induction false} WithoutEndpointAppend(a: seq<Bridge>, b: seq<Bridge>, address: string, port: nat)
    ensures WithoutEndpoint(a + b, address, port) == WithoutEndpoint(a, address, port) + WithoutEndpoint(b, address, port)
    decreases |a|
  {
    if a == [] {
      assert a + b == b;
    } else {
      assert (a + b)[1..] == a[1..] + b;
      WithoutEndpointAppend(a[1..], b, address, port);
    }
  }
}
