/** The relay queries of src/tor/relay.rs: `get_relay_info` sends
    `GETINFO ns/id/<fingerprint>` and reads a network-status entry (the
    `r`, `a` and `s` lines of section 3.4.1 of the Tor directory protocol,
    version 3) by substring searches; `get_exit_relay` picks a fingerprint
    out of the circuit status. Offsets are counted in characters, which
    agree with Rust's byte offsets on ASCII text. A slice whose bounds are
    out of order or out of range makes Rust panic; the model returns
    `Panicked` there. */
module Relays {
  import opened Wrappers
  import opened Errors
  import opened Text
  import opened TorCommands
  import TorControl

  datatype RelayInfo = RelayInfo(
    fingerprint: string,
    nickname: Option<string>,
    address: Option<string>,
    country: Option<string>,
    isExit: bool,
    isGuard: bool)

  /** A call that returns, or panics. */
  datatype Run<T> = Done(value: T) | Panicked

  /** A result and the client's session after the call. */
  datatype Outcome<T> = Outcome(run: Run<TorrerResult<T>>, session: TorControl.Session)

  const CIRCUIT_STATUS_QUERY := "GETINFO circuit-status\r\n"
  const ESTABLISHED_QUERY := "GETINFO status/circuit-established\r\n"

  /** The characters that end the EXTENDED token. */
  const TOKEN_ENDS: set<char> := {' ', '\n', '\r'}

  function RelayQuery(fingerprint: string): string {
    "GETINFO ns/id/" + fingerprint + "\r\n"
  }

  // --------------------------------------------- the network-status entry

  /** The address: the trimmed text between the first `a ` and the next
      line break, when there is one and the text is not empty. */
  function AddressLine(response: string): Option<string> {
    match Find(response, "a ")
    case None => None
    case Some(j) =>
      assert response[j..][..2] == response[j..j + 2];
      AddressFrom(response[j..])
  }

  /** The address on a line that starts with the `a ` marker. */
  function AddressFrom(line: string): Option<string>
    requires |line| >= 2 && line[..2] == "a "
  {
    match FindAny(line, {'\n'})
    case None => None
    case Some(e) =>
      assert line[0] == 'a' && line[1] == ' ';
      var addr := Trim(line[2..e]);
      if addr != [] then Some(addr) else None
  }

  /** The Exit and Guard flags: whether the text between the first `s `
      and the next line break mentions them; both false with no line
      break. */
  function FlagsLine(response: string): (bool, bool) {
    match Find(response, "s ")
    case None => (false, false)
    case Some(k) =>
      var flags := response[k + 2..];
      match FindAny(flags, {'\n'})
      case None => (false, false)
      case Some(f) => (Contains(flags[..f], "Exit"), Contains(flags[..f], "Guard"))
  }

  /** The text after the first `country=` up to the next space or line
      break, when there is one. */
  function CountryField(response: string): Option<string> {
    match Find(response, "country=")
    case None => None
    case Some(c) =>
      var rest := response[c + 8..];
      match FindAny(rest, {' ', '\n'})
      case None => None
      case Some(d) => Some(rest[..d])
  }

  /** `parse_relay_info`. An `r ` anywhere makes the nickname slice panic;
      otherwise the fields come from the `a`, `s` and `country=` searches,
      the country only when no address was found. */
  function RelayInfoOf(response: string, fingerprint: string): (r: Run<RelayInfo>)
    ensures r.Done? ==> r.value.fingerprint == fingerprint && r.value.nickname.None?
    ensures r.Done? && r.value.address.Some? ==> r.value.country.None?
  {
    if Contains(response, "r ") then Panicked
    else
      var address := AddressLine(response);
      var flags := FlagsLine(response);
      var country := if address.None? then CountryField(response) else None;
      Done(RelayInfo(fingerprint, None, address, country, flags.0, flags.1))
  }

  // ------------------------------------------------ the EXTENDED token

  /** The token after the first space of a line: up to the next space or
      line break, or 40 characters when there is none, which panics when
      fewer remain. Only a 40-byte token is a fingerprint. */
  function ExtendedToken(line: string): Run<Option<string>> {
    match FindAny(line, {' '})
    case None => Done(None)
    case Some(s) =>
      var rest := line[s + 1..];
      var end := match FindAny(rest, TOKEN_ENDS) case Some(e) => e case None => 40;
      if end > |rest| then Panicked
      else
        var token := rest[..end];
        if ByteLen(token) == 40 then Done(Some(token)) else Done(None)
  }

  /** The exit fingerprint candidate of `get_exit_relay`: the EXTENDED
      token after the first `circuit-status=`. */
  function ExitCandidate(response: string): Run<Option<string>> {
    match Find(response, "circuit-status=")
    case None => Done(None)
    case Some(c) =>
      var data := response[c + 15..];
      match Find(data, "EXTENDED")
      case None => Done(None)
      case Some(x) => ExtendedToken(data[x..])
  }

  // ------------------------------------------------- session functions

  function Lift<T>(r: Run<T>): Run<TorrerResult<T>> {
    match r
    case Panicked => Panicked
    case Done(v) => Done(Ok(v))
  }

  /** `get_relay_info` on a session. */
  function SessionRelayInfo(s: TorControl.Session, fingerprint: string): Outcome<RelayInfo> {
    var st := TorControl.SessionSendRaw(s, RelayQuery(fingerprint));
    if st.result.Err? then Outcome(Done(Err(st.result.error)), st.session)
    else Outcome(Lift(RelayInfoOf(st.result.value, fingerprint)), st.session)
  }

  function SomeOf(r: Run<TorrerResult<RelayInfo>>): Run<TorrerResult<Option<RelayInfo>>> {
    match r
    case Panicked => Panicked
    case Done(Err(e)) => Done(Err(e))
    case Done(Ok(v)) => Done(Ok(Some(v)))
  }

  /** `get_exit_relay` on a session. */
  function SessionExitRelay(s: TorControl.Session): Outcome<Option<RelayInfo>> {
    var st := TorControl.SessionSendRaw(s, CIRCUIT_STATUS_QUERY);
    if st.result.Err? then Outcome(Done(Err(st.result.error)), st.session)
    else
      match ExitCandidate(st.result.value)
      case Panicked => Outcome(Panicked, st.session)
      case Done(Some(fp)) =>
        var o := SessionRelayInfo(st.session, fp);
        Outcome(SomeOf(o.run), o.session)
      case Done(None) =>
        var st2 := TorControl.SessionSendRaw(st.session, ESTABLISHED_QUERY);
        if st2.result.Err? then Outcome(Done(Err(st2.result.error)), st2.session)
        else Outcome(Done(Ok(None)), st2.session)
  }

  // ------------------------------------------------------------- methods

  /** `parse_relay_info`: fill the record field by field; it never returns
      an error. */
  method ParseRelayInfo(response: string, fingerprint: string) returns (r: Run<TorrerResult<RelayInfo>>)
    ensures r == Lift(RelayInfoOf(response, fingerprint))
    ensures r.Done? ==> r.value.Ok?
  {
    var relay := RelayInfo(fingerprint, None, None, None, false, false);
    var nicknameStart := Find(response, "r ");
    if nicknameStart.Some? {
      var i := nicknameStart.value;
      var nicknameEnd := Find(response[i..], " ");
      NicknameSliceReversed(response);
      // The nickname slice runs from i + 2 to i + 1.
      assert nicknameEnd == Some(1) && i + 2 > i + nicknameEnd.value;
      return Panicked;
    }
    var address := AddressStep(response);
    if address.Some? {
      relay := relay.(address := address);
    }
    var flags := FlagsStep(response);
    if flags.Some? {
      relay := relay.(isExit := flags.value.0, isGuard := flags.value.1);
    }
    if relay.address.None? {
      var country := CountryStep(response);
      if country.Some? {
        relay := relay.(country := country);
      }
    }
    r := Done(Ok(relay));
  }

  /** The `a` line step of `parse_relay_info`. */
  method AddressStep(response: string) returns (address: Option<string>)
    ensures address == AddressLine(response)
  {
    address := None;
    var addrLine := Find(response, "a ");
    if addrLine.Some? {
      var j := addrLine.value;
      assert response[j..][..2] == response[j..j + 2];
      var addrEnd := FindAny(response[j..], {'\n'});
      if addrEnd.Some? {
        assert response[j + 2..j + addrEnd.value] == response[j..][2..addrEnd.value];
        var addr := Trim(response[j + 2..j + addrEnd.value]);
        if addr != [] {
          address := Some(addr);
        }
      }
    }
  }

  /** The `s` line step: the Exit and Guard flags, when a line break
      follows. */
  method FlagsStep(response: string) returns (flags: Option<(bool, bool)>)
    ensures flags.Some? ==> flags.value == FlagsLine(response)
    ensures flags.None? ==> FlagsLine(response) == (false, false)
  {
    flags := None;
    var sLine := Find(response, "s ");
    if sLine.Some? {
      var rest := response[sLine.value + 2..];
      var flagsEnd := FindAny(rest, {'\n'});
      if flagsEnd.Some? {
        var flagsText := rest[..flagsEnd.value];
        flags := Some((Contains(flagsText, "Exit"), Contains(flagsText, "Guard")));
      }
    }
  }

  /** The `country=` step. */
  method CountryStep(response: string) returns (country: Option<string>)
    ensures country == CountryField(response)
  {
    country := None;
    var countryMatch := Find(response, "country=");
    if countryMatch.Some? {
      var c := countryMatch.value;
      var countryEnd := FindAny(response[c + 8..], {' ', '\n'});
      if countryEnd.Some? {
        assert response[c + 8..c + 8 + countryEnd.value] == response[c + 8..][..countryEnd.value];
        country := Some(response[c + 8..c + 8 + countryEnd.value]);
      }
    }
  }

  /** `get_relay_info`. */
  method GetRelayInfo(client: TorControl.TorClient, fingerprint: string) returns (r: Run<TorrerResult<RelayInfo>>)
    modifies client
    ensures Outcome(r, client.State()) == SessionRelayInfo(old(client.State()), fingerprint)
  {
    var response := client.SendCommand(RelayQuery(fingerprint));
    if response.Err? {
      return Done(Err(response.error));
    }
    r := ParseRelayInfo(response.value, fingerprint);
  }

  /** `get_exit_relay`: look up the EXTENDED token when it is a
      fingerprint; otherwise query the circuit state once more and return
      no relay. */
  method GetExitRelay(client: TorControl.TorClient) returns (r: Run<TorrerResult<Option<RelayInfo>>>)
    modifies client
    ensures Outcome(r, client.State()) == SessionExitRelay(old(client.State()))
  {
    var response := client.SendCommand(CIRCUIT_STATUS_QUERY);
    if response.Err? {
      return Done(Err(response.error));
    }
    var candidate := ExitCandidate(response.value);
    if candidate.Panicked? {
      return Panicked;
    }
    if candidate.value.Some? {
      var info := GetRelayInfo(client, candidate.value.value);
      return SomeOf(info);
    }
    var status := client.SendCommand(ESTABLISHED_QUERY);
    if status.Err? {
      return Done(Err(status.error));
    }
    r := Done(Ok(None));
  }

  // ---------------------------------------------------------------- lemmas

  /** After the first `r ` at i, the first space is at i + 1, so the
      nickname slice `[i + 2..i + 1]` has its start past its end. */
  lemma NicknameSliceReversed(response: string)
    requires Contains(response, "r ")
    ensures var i := Find(response, "r ").value;
      Find(response[i..], " ") == Some(1) && i + 2 > i + 1
  {
    var i := Find(response, "r ").value;
    var line := response[i..];
    assert line[..2] == response[i..i + 2] == "r ";
    assert At(line, " ", 1) by {
      assert line[1..2] == [line[1]];
    }
    assert !At(line, " ", 0) by {
      assert line[0..1] == [line[0]];
    }
    FindIs(line, " ", 1);
  }

  /** The query `get_relay_info` sends is the GETINFO of `ns/id/<fp>`. */
  lemma RelayQueryIsGetinfo(fingerprint: string)
    ensures RelayQuery(fingerprint) == BuildGetinfo("ns/id/" + fingerprint)
  {
    assert "GETINFO " + ("ns/id/" + fingerprint) == "GETINFO ns/id/" + fingerprint;
  }

  /** No first occurrence of a two-character marker starts before `pre`
      ends when `pre` lacks it and the marker's first character is not its
      second. */
  lemma MarkerAfter(pre: string, m: string, rest: string)
    requires |m| == 2 && m[0] != m[1] && !Contains(pre, m)
    ensures Find(pre + m + rest, m) == Some(|pre|)
  {
    var s := pre + m + rest;
    assert s[|pre|..|pre| + 2] == m;
    forall k | 0 <= k < |pre|
      ensures !At(s, m, k)
    {
      if k + 2 <= |pre| {
        assert s[k..k + 2] == pre[k..k + 2];
        if At(s, m, k) {
          ContainsAt(pre, m, k);
        }
      } else {
        assert s[k + 1] == m[0];
      }
    }
    FindIs(s, m, |pre|);
  }

  /** The address is the trimmed text of the `a` line, when it is not
      empty and a line break ends it. */
  lemma AddressFromLine(pre: string, addr: string, post: string)
    requires !Contains(pre, "a ") && '\n' !in addr
    ensures AddressLine(pre + "a " + addr + "\n" + post) == if Trim(addr) != [] then Some(Trim(addr)) else None
  {
    var head := "a " + addr;
    var x := addr + "\n" + post;
    var s := pre + "a " + addr + "\n" + post;
    assert s == pre + "a " + x by {
      AppendAssoc(pre + "a ", addr, "\n");
      AppendAssoc(pre + "a ", addr + "\n", post);
    }
    MarkerAfter(pre, "a ", x);
    assert s[|pre|..] == head + "\n" + post by {
      AppendAssoc(pre, "a ", x);
      assert (pre + ("a " + x))[|pre|..] == "a " + x;
      AppendAssoc("a ", addr, "\n");
      AppendAssoc("a ", addr + "\n", post);
    }
    AddressFromHead(addr, post);
  }

  /** The address on an `a ` line ended by a line break. */
  lemma AddressFromHead(addr: string, post: string)
    requires '\n' !in addr
    ensures var line := "a " + addr + "\n" + post;
      |line| >= 2 && line[..2] == "a "
      && AddressFrom(line) == if Trim(addr) != [] then Some(Trim(addr)) else None
  {
    var head := "a " + addr;
    var line := head + "\n" + post;
    assert line[..2] == "a ";
    assert FindAny(line, {'\n'}) == Some(|head|) by {
      forall k | 0 <= k < |head| ensures head[k] !in {'\n'} {
        if k >= 2 {
          assert head[k] == addr[k - 2];
        }
      }
      FirstEndAfter(head, '\n', post, {'\n'});
    }
    assert line[2..|head|] == addr;
  }

  /** Without a line break after the `a ` marker there is no address. */
  lemma AddressNeedsLineBreak(pre: string, rest: string)
    requires !Contains(pre, "a ") && '\n' !in rest
    ensures AddressLine(pre + "a " + rest) == None
  {
    MarkerAfter(pre, "a ", rest);
    var line := (pre + "a " + rest)[|pre|..];
    assert line == "a " + rest;
    forall k | 0 <= k < |line| ensures line[k] != '\n' {
      if k >= 2 {
        assert line[k] == rest[k - 2];
      }
    }
  }

  /** The flags are read from the `s` line up to its line break. */
  lemma FlagsFromLine(pre: string, flags: string, post: string)
    requires !Contains(pre, "s ") && '\n' !in flags
    ensures FlagsLine(pre + "s " + flags + "\n" + post) == (Contains(flags, "Exit"), Contains(flags, "Guard"))
  {
    var s := pre + "s " + flags + "\n" + post;
    assert s == pre + "s " + (flags + "\n" + post);
    MarkerAfter(pre, "s ", flags + "\n" + post);
    var rest := s[|pre| + 2..];
    assert rest == flags + "\n" + post;
    assert rest[..|flags|] == flags;
    assert FindAny(rest, {'\n'}) == Some(|flags|) by {
      assert rest[|flags|] == '\n';
      forall k | 0 <= k < |flags| ensures rest[k] != '\n' {
        assert rest[k] == flags[k];
      }
    }
  }

  /** Without a line break after the `s ` marker neither flag is set. */
  lemma FlagsNeedLineBreak(pre: string, rest: string)
    requires !Contains(pre, "s ") && '\n' !in rest
    ensures FlagsLine(pre + "s " + rest) == (false, false)
  {
    MarkerAfter(pre, "s ", rest);
    assert (pre + "s " + rest)[|pre| + 2..] == rest;
  }

  /** The first space of a line whose head has none ends the head. */
  lemma FirstSpaceAfter(head: string, rest: string)
    requires ' ' !in head
    ensures FindAny(head + " " + rest, {' '}) == Some(|head|)
    ensures (head + " " + rest)[|head| + 1..] == rest
  {
    var line := head + " " + rest;
    assert line[|head|] == ' ';
    forall k | 0 <= k < |head| ensures line[k] != ' ' {
      assert line[k] == head[k];
    }
  }

  /** The first character of `cs` in a text is its first one after a
      prefix free of them. */
  lemma FirstEndAfter(token: string, end: char, rest: string, cs: set<char>)
    requires end in cs
    requires forall k :: 0 <= k < |token| ==> token[k] !in cs
    ensures FindAny(token + [end] + rest, cs) == Some(|token|)
    ensures (token + [end] + rest)[..|token|] == token
  {
    var s := token + [end] + rest;
    assert s[|token|] == end;
    forall k | 0 <= k < |token| ensures s[k] !in cs {
      assert s[k] == token[k];
    }
  }

  /** The token after the first space, ended by a space or line break, is
      taken when it is 40 bytes long and ignored otherwise. */
  lemma TokenAfterFirstSpace(head: string, token: string, end: char, rest: string)
    requires ' ' !in head && end in TOKEN_ENDS
    requires forall k :: 0 <= k < |token| ==> token[k] !in TOKEN_ENDS
    ensures ExtendedToken(head + " " + token + [end] + rest)
      == if ByteLen(token) == 40 then Done(Some(token)) else Done(None)
  {
    var after := token + [end] + rest;
    assert head + " " + token + [end] + rest == head + " " + after;
    FirstSpaceAfter(head, after);
    FirstEndAfter(token, end, rest, TOKEN_ENDS);
  }

  /** With no space or line break after the token, 40 characters are
      taken, and fewer make the slice panic. */
  lemma UnterminatedToken(head: string, tail: string)
    requires ' ' !in head
    requires forall k :: 0 <= k < |tail| ==> tail[k] !in TOKEN_ENDS
    ensures ExtendedToken(head + " " + tail) ==
      if |tail| < 40 then Panicked
      else if ByteLen(tail[..40]) == 40 then Done(Some(tail[..40]))
      else Done(None)
  {
    FirstSpaceAfter(head, tail);
  }

  /** Without an EXTENDED token the second query is sent and no relay is
      returned: only an I/O or `515` failure of either query is an error. */
  lemma NoCandidateNoRelay(s: TorControl.Session, first: string, second: string)
    requires s.connected && |s.daemon| >= 2
    requires s.daemon[0] == TorControl.Reply(first) && s.daemon[1] == TorControl.Reply(second)
    requires !StartsWith(first, "515") && !StartsWith(second, "515")
    requires ExitCandidate(first) == Done(None)
    ensures SessionExitRelay(s).run == Done(Ok(None))
    ensures SessionExitRelay(s).session.sent == s.sent + [CIRCUIT_STATUS_QUERY, ESTABLISHED_QUERY]
  {
    var st := TorControl.SessionSendRaw(s, CIRCUIT_STATUS_QUERY);
    TorControl.ReplyChecked(s, CIRCUIT_STATUS_QUERY, first);
    assert st.session.daemon == s.daemon[1..];
    TorControl.ReplyChecked(st.session, ESTABLISHED_QUERY, second);
  }

  /** A fingerprint candidate is looked up with `GETINFO ns/id/<fp>`, and
      the relay comes from that reply. */
  lemma CandidateLookedUp(s: TorControl.Session, first: string, second: string, fp: string)
    requires s.connected && |s.daemon| >= 2
    requires s.daemon[0] == TorControl.Reply(first) && s.daemon[1] == TorControl.Reply(second)
    requires !StartsWith(first, "515") && !StartsWith(second, "515")
    requires ExitCandidate(first) == Done(Some(fp))
    ensures SessionExitRelay(s).run == SomeOf(Lift(RelayInfoOf(second, fp)))
    ensures SessionExitRelay(s).session.sent == s.sent + [CIRCUIT_STATUS_QUERY, RelayQuery(fp)]
  {
    var st := TorControl.SessionSendRaw(s, CIRCUIT_STATUS_QUERY);
    TorControl.ReplyChecked(s, CIRCUIT_STATUS_QUERY, first);
    assert st.session.daemon == s.daemon[1..];
    TorControl.ReplyChecked(st.session, RelayQuery(fp), second);
  }
}
