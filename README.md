# Torrer core in Dafny

Torrer routes a Linux machine's traffic through Tor. It starts the Tor
daemon's transparent proxy and sets up iptables, DNS and IPv6 rules. It
talks to the daemon over the Tor control port, and falls back to bridges
when Tor cannot connect. This project models the parts of Torrer that
decide things, and proves what they promise:

- the bridge line format, the bridge list file and the bridge collector's
  testing, caching and prioritisation (`bridges.dfy`, with worked
  `from_str` lines in `bridge_lines.dfy`, `bridge_storage.dfy`,
  `bridge_collection.dfy`);
- the control-port client, its reply parser and command builders, and the
  circuit, relay and exit-country queries built on it (`tor_client.dfy`,
  `tor_protocol.dfy`, `circuit.dfy`, `relay.dfy`, `country.dfy`);
- the engine's start, stop, status and restart, the automatic fallback,
  the health checker, the traffic counters, the rate limiter and the
  metrics store (`engine.dfy`, `fallback.dfy`, `health.dfy`,
  `monitoring.dfy`, `rate_limiter.dfy`, `metrics.dfy`);
- the configuration record, its validator and schema, and the
  configuration manager with backup and rollback (`config.dfy`,
  `config_manager.dfy`);
- the log viewer's line selection, the scheduled-task list and the update
  command's version check (`logs.dfy`, `schedule.dfy`, `update.dfy`);
- the retry loops, version comparison, input validators and duration
  formatting (`retry.dfy`, `version.dfy`, `validation.dfy`, `format.dfy`).

The support modules `wrappers.dfy`, `errors.dfy`, `probes.dfy`,
`text.dfy` and `decimal.dfy` provide the following:

- Option and Result, and the crate's error type;
- the outcome of a network probe;
- the parts of Rust's `str` API the sources use;
- fixed-width integers with `from_str` and decimal rendering.

Code that changes state in place is modelled as Dafny classes with
`modifies` clauses. Each of their methods is proved equal to a
specification function of the old state, and lemmas then state what the
source promises about those functions. The network, the file system,
clocks and external programs are inputs: connect outcomes, scripted
daemon replies, file states, and `now` in seconds or milliseconds.

## Model

| member | source | states |
|---|---|---|
| Errors.Display | src/error/types.rs:4-26 | the text ends with the error's message, after a non-empty prefix naming its kind |
| Bridges.FromStr | src/bridge/types.rs:24-90 | every bridge `from_str` accepts is well formed: a non-empty address without ':' or whitespace, a non-zero port, single-token fingerprint and transport |
| Bridges.FromFields | src/bridge/types.rs:37-89 | the field-level part of `from_str` (IP:PORT split, empty address, u16 port parse, zero port, optional fingerprint and transport) yields only well-formed bridges |
| Bridges.Validate | src/bridge/types.rs:93-113 | `validate` succeeds exactly when the address is non-empty and the port non-zero; a fingerprint of odd length is never an error |
| Bridges.ParsedBridgeValidates | src/bridge/types.rs:24-113 | every bridge produced by `from_str` passes `validate` |
| Bridges.FromStrAlwaysHasFields | src/bridge/types.rs:25-40 | after trimming, the "Expected IP:PORT" error for an empty field list can never be returned |
| Bridges.KeywordLeavesFields | src/bridge/types.rs:30-38 | stripping the `Bridge ` keyword from a trimmed non-empty line leaves at least one field |
| Bridges.TorConfigKeyword | src/bridge/types.rs:116-125 | `to_tor_config` output starts with the keyword `from_str` strips, and what follows it is the fields |
| Bridges.TorConfigIsTrimmed | src/bridge/types.rs:116-125 | the Tor config line of a well-formed bridge has no surrounding whitespace, so `from_str`'s trim keeps it |
| Bridges.ParseToTorConfig | src/bridge/types.rs:24-125 | round trip: `from_str(to_tor_config(b)) == Ok(b)` for every well-formed bridge |
| Bridges.ToTorConfig | src/bridge/types.rs:116-125 | the line starts with the keyword `Bridge `, in any case, so a torrc reader takes it as a bridge line |
| Bridges.FromFieldsOfBridge | src/bridge/types.rs:37-89 | the fields of a well-formed bridge's config line parse back to that bridge |
| Bridges.TransportWithoutFingerprintMisread | src/bridge/types.rs:63-82 | a bridge with a transport but no fingerprint comes back with the transport as its fingerprint |
| Bridges.ParseWriteParse | src/bridge/types.rs:24-125 | parsing is a normal form: writing a parsed bridge and parsing again gives the same result |
| Bridges.NewBridgeRoundTrip | src/bridge/types.rs:14-21 | `Bridge::new` with a proper address and non-zero port survives the config-line round trip |
| Bridges.NewBridge | src/bridge/types.rs:14-21 | the bridge has the given address and port; it is well formed exactly when the address is one token without `:` and the port is non-zero, and it validates exactly when the address is non-empty and the port non-zero |
| Bridges.FromFieldsOutcome | src/bridge/types.rs:37-89 | the field stage case by case: no field, a first field that does not split into two at `:`, an empty address, a port that is no `u16`, port 0, each with its own message; success exactly when none of these holds, with the address, the port, the second field as fingerprint and the third as transport |
| Bridges.FromStrOutcome | src/bridge/types.rs:24-40 | "Empty bridge string" exactly for a text that is all whitespace; any other text goes to the field stage after trimming and dropping the keyword |
| Bridges.KeywordOptional | src/bridge/types.rs:30-35 | `Bridge ` in any casing before a trimmed line that does not itself start with the keyword parses like the line alone |
| Bridges.FromStrOfTrimmed | src/bridge/types.rs:24-37 | a trimmed non-empty text without the keyword goes to the field stage with its whitespace-separated fields |
| BridgeLines.JoinedLine | src/bridge/types.rs:24-37 | fields written one space apart, the first not starting with `B`, reach the field stage exactly as written |
| BridgeLines.FieldsAfterThirdIgnored | src/bridge/types.rs:62-82 | the field stage gives the same result for a list of fields and for its first three |
| BridgeLines.ExtraFieldsIgnored | src/bridge/types.rs:37-82 | a line of more than three fields parses as its first three do |
| BridgeLines.EndpointFields | src/bridge/types.rs:42-60 | for a lone field split at its one colon: empty address, a port that is no `u16` and port 0 are refused with their messages, and anything else is accepted with that address and port |
| BridgeLines.EndpointAccepted | src/bridge/types.rs:48-89 | `ADDRESS:PORT` with a non-empty address and a port from 1 to 65535 is accepted with the address kept exactly as written, IP or not |
| BridgeLines.BadPortRejected | src/bridge/types.rs:55-56 | a port text that does not parse as a `u16` gives "Invalid port number. Must be between 1 and 65535" |
| BridgeLines.ZeroPortRejected | src/bridge/types.rs:58-60 | a port that parses as 0 gives "Port number cannot be 0" |
| BridgeLines.EmptyAddressRejected | src/bridge/types.rs:51-53 | a field starting with its colon gives "Bridge address cannot be empty", whatever the port |
| BridgeLines.WrongColonCount | src/bridge/types.rs:43-46 | a lone field that does not split into exactly two pieces at `:` gives "Invalid bridge format. Expected IP:PORT (e.g., 1.2.3.4:443)" |
| BridgeLines.NoColonRejected | src/bridge/types.rs:43-46 | a lone field without a colon gives the `IP:PORT` format error |
| BridgeLines.ExtraColonRejected | src/bridge/types.rs:43-46 | a lone field with a second colon, as an IPv6 address with a port has, gives the `IP:PORT` format error |
| BridgeLines.FingerprintKept | src/bridge/types.rs:62-75 | the second field becomes the fingerprint whatever its form, not only when it is 40 hexadecimal digits |
| BridgeLines.KeywordDropped | src/bridge/types.rs:30-35 | a line prefixed with the keyword in any casing parses like the line without it |
| BridgeLines.FromStrRejects | tests/unit/bridge_test.rs:28-33 | "", " \t ", "invalid", "1.2.3.4", "::1:443", ":443", "1.2.3.4:0", "1.2.3.4:70000" and "1.2.3.4:abc" are each refused with their own message |
| BridgeLines.FromStrAccepts | tests/unit/bridge_test.rs:7-27 | "192.168.1.1:443" and "999.999.999.999:443" give that address and port 443; "bridge 1.2.3.4:443" parses like "1.2.3.4:443"; "192.168.1.1:443 ABC123DEF456" keeps "ABC123DEF456" as the fingerprint |
| BridgeStorage.ParseBridgeLine | src/bridge/manager.rs:70-77 | a line of the bridge file yields at most one bridge, and only a well-formed one; blank and `#` lines yield none |
| BridgeStorage.ParseBridgeLines | src/bridge/manager.rs:68-78 | the bridges listed never outnumber the lines and are all well formed |
| BridgeStorage.ListBridgesOf | src/bridge/manager.rs:59-81 | `list_bridges` fails exactly when the file exists but cannot be read, and then with "Failed to read bridge config: " followed by the I/O error; a missing file gives an empty list; every listed bridge is well formed |
| BridgeStorage.TorConfigLines | src/bridge/manager.rs:146-149 | one Tor config line per bridge, in order, each `to_tor_config` of its bridge |
| BridgeStorage.ParseTorrcLine | src/bridge/manager.rs:167-174 | a torrc line lists a bridge exactly when its trimmed text starts with `BRIDGE ` in upper case and `from_str` accepts it, and then lists exactly that bridge, which is well formed |
| BridgeStorage.ParseTorrcLines | src/bridge/manager.rs:165-175 | `read_from_tor_config` lists at most one bridge per line, each well formed; which lines count is `ParseTorrcLine`'s rule, applied line by line (`ParseTorrcLinesAppend`) |
| BridgeStorage.ReadFromTorConfig | src/bridge/manager.rs:152-179 | a missing torrc gives no bridges; an unreadable one fails with "Failed to read Tor config file: ..."; otherwise the bridges its lines list, in order |
| BridgeStorage.WithoutEndpoint | src/bridge/manager.rs:88 | `retain` drops exactly the bridges at the given address and port: the result is shorter iff one was there, keeps every other bridge and holds no matching one |
| BridgeStorage.TestBridge | src/bridge/manager.rs:100-124 | `test_bridge` never fails; it answers `true` exactly when the connection was made within the timeout |
| BridgeStorage.BridgeManager.constructor | src/bridge/manager.rs:18-30 | a manager over the bridge file as it is found (missing, unreadable or with its text) |
| BridgeStorage.BridgeManager.ListBridges | src/bridge/manager.rs:59-81 | the result is `ListBridgesOf` of the current file |
| BridgeStorage.BridgeManager.SaveBridges | src/bridge/manager.rs:127-143 | the result and the new file are `SaveSpec`: a failed create leaves the file; otherwise the header and each bridge's line are written in turn, and a failed write leaves the lines before it |
| BridgeStorage.BridgeManager.AddBridge | src/bridge/manager.rs:33-56 | the result and the new file are `AddSpec`: validate, list, reject a listed endpoint, then save the list with the bridge appended |
| BridgeStorage.BridgeManager.RemoveBridge | src/bridge/manager.rs:84-97 | the result and the new file are `RemoveSpec`: list, drop the bridges at the endpoint, fail with "Bridge not found" if none was dropped, else save the rest |
| BridgeStorage.BridgeManager.GetTorBridges | src/bridge/manager.rs:146-149 | the result is `TorBridgesOf` of the current file |
| BridgeStorage.BridgeManager.ApplyToTor | src/bridge/manager.rs:182-200 | the result and the new file are `ApplySpec`: a failed listing is returned, an empty list writes nothing, otherwise the list is saved again |
| BridgeStorage.BridgeFileLine | src/bridge/manager.rs:70-77 | the config line of a well-formed bridge is listed as that bridge |
| BridgeStorage.TorrcLine | src/bridge/manager.rs:167-174 | the config line of a well-formed bridge is read from a torrc as that bridge |
| BridgeStorage.KeywordlessLine | src/bridge/manager.rs:70-77 | a well-formed bridge written without the `Bridge` keyword (`1.2.3.4:443`) parses, so the bridge file lists it, but a torrc does not |
| BridgeStorage.ParseTorrcLinesAppend | src/bridge/manager.rs:165-175 | a torrc is read line by line: the bridges of two texts' lines are those of each, in order |
| BridgeStorage.CommentLine | src/bridge/manager.rs:72 | a `#` line lists no bridge, in the bridge file and in a torrc |
| BridgeStorage.HeaderLine | src/bridge/manager.rs:132 | the header written by `save_bridges` lists no bridge |
| BridgeStorage.SavedLines | src/bridge/manager.rs:127-143 | the saved text splits into the header and the config lines |
| BridgeStorage.ParseSavedText | src/bridge/manager.rs:59-143 | round trip: listing a file written in full by `save_bridges` gives back the well-formed bridges saved |
| BridgeStorage.ReadSavedTextAsTorrc | src/bridge/manager.rs:127-179 | the saved bridge file read as a torrc gives the same bridges |
| BridgeStorage.SaveOutcome | src/bridge/manager.rs:127-143 | `save_bridges` succeeds exactly when every line is written, and the file then lists the saved bridges; a failed create leaves the file; a failed write leaves a file listing the bridges written before it |
| BridgeStorage.AddOutcome | src/bridge/manager.rs:33-56 | `add_bridge` succeeds exactly when the bridge validates, the file reads, its endpoint is not listed and the save writes every line; a well-formed bridge is then listed after the old ones and unique endpoints stay unique; a rejection before the save leaves the file |
| BridgeStorage.RemoveOutcome | src/bridge/manager.rs:84-97 | `remove_bridge` succeeds exactly when the file reads, the endpoint is listed and the save writes every line; the listing is then the old one without that endpoint, in order |
| BridgeStorage.TorBridgesOutcome | src/bridge/manager.rs:146-149 | `get_tor_bridges` fails only on an unreadable file; it gives one line per listed bridge, each parsing back to that bridge |
| BridgeStorage.ApplyOutcome | src/bridge/manager.rs:182-200 | `apply_to_tor` succeeds exactly when the file reads and either lists nothing or is saved in full, and never changes what is listed |
| BridgeStorage.SavedTextExtends | src/bridge/manager.rs:42-52 | appending a bridge and saving lists the old bridges followed by what the new config line parses to |
| BridgeStorage.AppendKeepsUnique | src/bridge/manager.rs:44-51 | appending a bridge whose endpoint is not listed keeps endpoints unique |
| BridgeStorage.WithoutEndpointAppend | src/bridge/manager.rs:88 | `retain` filters each part of a list on its own, so the kept bridges keep their order |
| BridgeCollection.SuccessRate | src/bridge/collector.rs:31-38 | the success rate is 0 before any test and otherwise the percentage of successful tests, always within 0..100 |
| BridgeCollection.RecordSuccess | src/bridge/collector.rs:40-44 | one more test, counted as a success; the failure count stays; last tested and last success become `now` |
| BridgeCollection.RecordFailure | src/bridge/collector.rs:46-49 | one more test, counted as a failure; the success count and last success stay; last tested becomes `now` |
| BridgeCollection.ParseMoatItems | src/bridge/collector.rs:157-170 | only string items that `from_str` accepts become bridges: never more than the items, all well formed |
| BridgeCollection.FetchFromMoatApi | src/bridge/collector.rs:119-173 | fails exactly when the request, status or JSON step fails; a reply without a `bridges` array gives no bridges, otherwise the parsed items |
| BridgeCollection.FetchFromPublicSources | src/bridge/collector.rs:176-187 | the public-source fetch always succeeds with no bridges |
| BridgeCollection.RecencyBonus | src/bridge/collector.rs:290-301 | the recency bonus lies between 0 and 7 days × 5 points |
| BridgeCollection.InsertByScore | src/bridge/collector.rs:306 | inserting into a list sorted by descending score keeps it sorted and is a permutation of the list plus the entry (the insertion step of the stable `sort_by`) |
| BridgeCollection.BridgeCollector.constructor | src/bridge/collector.rs:61-67 | a collector over the given bridge manager with an empty cache and no metadata |
| BridgeCollection.BridgeCollector.CollectBridges | src/bridge/collector.rs:70-116 | never fails; returns the Moat bridges then the public ones, failed sources skipped, keeping the first bridge of each `address:port` |
| BridgeCollection.BridgeCollector.CollectBridgesSafe | src/bridge/collector.rs:190-200 | never fails and returns what `collect_bridges` returns |
| BridgeCollection.BridgeCollector.CacheOne | src/bridge/collector.rs:238-245 | the cache and bridge file become `CacheStep` of the old ones; the bridge is cached exactly when its key was not cached and `add_bridge` succeeds; metadata is untouched |
| BridgeCollection.BridgeCollector.TestAndCacheOne | src/bridge/collector.rs:231-262 | a connected probe offers the bridge to the cache (`CacheStep`), any other outcome leaves cache and file as they were; the bridge is cached exactly when the probe connected, its key was not cached and `add_bridge` succeeds; the probe is recorded in the metadata |
| BridgeCollection.BridgeCollector.TestAndCacheBridges | src/bridge/collector.rs:224-267 | never fails; the cache and bridge file are `ProbeCacheUpTo` over all the bridges; the count returned is the number of newly cached keys; every probe is recorded, in order |
| BridgeCollection.BridgeCollector.CacheBridges | src/bridge/collector.rs:270-282 | never fails; the cache and bridge file are `CacheUpTo` over all the bridges; the metadata is untouched |
| BridgeCollection.BridgeCollector.GetPrioritizedBridges | src/bridge/collector.rs:285-308 | one entry per tested key, each with its score (success rate plus recency bonus), sorted by descending score |
| BridgeCollection.BridgeCollector.GetCached | src/bridge/collector.rs:324-326 | the keys this collector has cached |
| BridgeCollection.DedupByKey | src/bridge/collector.rs:97-106 | the duplicate-removal loop keeps the first bridge of every `address:port`, in order |
| BridgeCollection.RecordProbesStep | src/bridge/collector.rs:230-262 | each probed bridge's outcome is recorded after those of the bridges before it |
| BridgeCollection.KeepFirstUnique | src/bridge/collector.rs:97-106 | the deduplicated list holds only given bridges, no two with the same key, and every key that was given |
| BridgeCollection.KeepFirstDistinct | src/bridge/collector.rs:97-106 | a list with distinct keys is left as it is |
| BridgeCollection.KeepFirstIdempotent | src/bridge/collector.rs:97-106 | removing duplicates twice is removing them once |
| BridgeCollection.InsertScored | src/bridge/collector.rs:285-306 | inserting a scored entry keeps every entry scored from the metadata and the key set grows by that key |
| BridgeCollection.SuccessRaisesRate | src/bridge/collector.rs:31-44 | recording a success never lowers the success rate |
| BridgeCollection.FailureLowersRate | src/bridge/collector.rs:31-49 | recording a failure never raises the success rate |
| BridgeCollection.NinetyPercent | src/bridge/collector.rs:31-38 | nine successes and one failure rate 90% |
| BridgeCollection.RecordFields | src/bridge/collector.rs:40-49 | a success increments the success count and stamps last success and last tested; a failure increments the failure count and stamps only last tested |
| BridgeCollection.ScoreBounds | src/bridge/collector.rs:288-302 | the score is the rate plus 0..35; a success under a day old (or dated in the future) earns the full 35, one 7 or more days old earns nothing |
| BridgeCollection.RecordProbesKeys | src/bridge/collector.rs:230-262 | after testing, metadata exists for every old key and every tested key, and untested keys keep their metadata |
| BridgeCollection.ReachableKeysWitness | src/bridge/collector.rs:235-245 | every key counted as reachable belongs to a probed bridge whose connection succeeded |
| BridgeCollection.CacheStepOutcome | src/bridge/collector.rs:238-245 | a bridge is newly cached exactly when its key was not cached, it validates, the file reads, its endpoint is not listed and the save writes every line; a well-formed one is then listed last; only its key can enter the cache; an already cached key changes nothing; a file changed without caching comes from a failed write |
| BridgeCollection.ProbeCacheGrows | src/bridge/collector.rs:224-267 | probing only adds keys, each that of a bridge whose probe connected, and at most one per bridge |
| BridgeCollection.CacheGrowsWithin | src/bridge/collector.rs:270-282 | caching only adds keys, each that of an offered bridge |
| BridgeCollection.StepExtendsListing | src/bridge/collector.rs:238-245 | offering a well-formed bridge with a save that writes every line only appends to what a readable bridge file lists |
| Circuits.Rows | src/tor/circuit.rs:54-107 | a pass yields at most one circuit per line |
| Circuits.ParseCircuitStatus | src/tor/circuit.rs:32-112 | `parse_circuit_status` never fails; it returns the rows of the first pass over the `circuit-status=` section, or, when that finds none, the rows of the fallback pass |
| Circuits.SectionPass | src/tor/circuit.rs:39-82 | the section loop (open at a `circuit-status=` line, stop at the first other `250` line, keep lines of two or more fields) computes the first-pass rows |
| Circuits.FallbackPass | src/tor/circuit.rs:85-108 | the fallback loop keeps every line mentioning `circuit-status=` or `circuit ` with two or more fields, its id taken after the last `=` |
| Circuits.GetCircuits | src/tor/circuit.rs:9-18 | `get_circuits` sends `GETINFO circuit-status`; a send error is returned as is, otherwise the decoded circuits; the client's session advances by that exchange |
| Circuits.NewCircuit | src/tor/circuit.rs:21-29 | `new_circuit` sends `SIGNAL NEWNYM` and succeeds exactly when the command does, passing its error on |
| Circuits.SkipsToMarker | src/tor/circuit.rs:41-46 | lines before the section marker contribute nothing; decoding resumes inside the section after it |
| Circuits.SectionCloses | src/tor/circuit.rs:49-51 | a `250` line without `circuit-status` inside the section ends the first pass |
| Circuits.SectionBody | src/tor/circuit.rs:54-81 | inside the section, body lines are decoded one by one, in order |
| Circuits.ReplyShape | src/tor/circuit.rs:36-82 | for a reply shaped `… 250+circuit-status= / rows / 250 OK …`, the first pass returns exactly the rows of the body |
| Circuits.RowByPosition | src/tor/circuit.rs:55-79 | a row's fields are taken by position: id, status, third token as purpose, the rest joined by spaces as flags |
| Circuits.PathStoredAsPurpose | src/tor/circuit.rs:60-72 | in a standard `ID BUILT PATH PURPOSE=…` line the path is stored as the purpose and the real purpose among the flags |
| Circuits.ShortLinesSkipped | src/tor/circuit.rs:56-89 | lines with fewer than two fields yield no circuit in either pass |
| Circuits.AfterLastEqualsIs | src/tor/circuit.rs:90-93 | the fallback id is the text after the last `=` of the first field |
| Circuits.CircuitStatusBounded | src/tor/circuit.rs:32-111 | `parse_circuit_status` never yields more circuits than the reply has lines |
| Circuits.FirstPassBounded | src/tor/circuit.rs:41-82 | the first pass yields at most one circuit per line |
| Relays.RelayInfoOf | src/tor/relay.rs:75-133 | a parsed relay keeps the fingerprint asked for and never has a nickname (any `r ` makes the nickname slice panic); a country is read only when no address was found |
| Relays.ParseRelayInfo | src/tor/relay.rs:75-133 | the field-by-field parse (nickname, `a ` line, `s ` line, `country=`) either panics or returns Ok with the relay described by `RelayInfoOf` |
| Relays.AddressStep | src/tor/relay.rs:103-110 | the address is the trimmed text between the first `a ` and the next line break, when that is not empty |
| Relays.FlagsStep | src/tor/relay.rs:113-120 | the Exit and Guard flags come from the text between the first `s ` and the next line break, both false otherwise |
| Relays.CountryStep | src/tor/relay.rs:125-129 | the country is the text after the first `country=` up to the next space or line break |
| Relays.GetRelayInfo | src/tor/relay.rs:21-30 | `get_relay_info` sends `GETINFO ns/id/<fp>`; a send error is returned, otherwise the parsed relay; the client's session advances by that exchange |
| Relays.GetExitRelay | src/tor/relay.rs:33-73 | `get_exit_relay` sends `GETINFO circuit-status`; a 40-byte EXTENDED token is looked up as a relay, otherwise `GETINFO status/circuit-established` is sent and the answer is None |
| Relays.NicknameSliceReversed | src/tor/relay.rs:89-91 | after the first `r ` at i the first space is at i + 1, so the nickname slice runs from i + 2 back to i + 1 and panics |
| Relays.RelayQueryIsGetinfo | src/tor/relay.rs:22 | the relay query is the GETINFO command of `ns/id/<fingerprint>` |
| Relays.AddressFromLine | src/tor/relay.rs:103-110 | a line `a ADDR` ended by a line break gives the trimmed ADDR, or no address when it is blank |
| Relays.AddressNeedsLineBreak | src/tor/relay.rs:104 | an `a ` line with no line break after it gives no address |
| Relays.FlagsFromLine | src/tor/relay.rs:113-120 | a line `s FLAGS` ended by a line break sets Exit and Guard exactly when FLAGS mention them |
| Relays.FlagsNeedLineBreak | src/tor/relay.rs:115 | an `s ` line with no line break after it sets neither flag |
| Relays.TokenAfterFirstSpace | src/tor/relay.rs:47-57 | the EXTENDED token is the text after the first space up to a space or line break, and is a candidate only at 40 bytes |
| Relays.UnterminatedToken | src/tor/relay.rs:49-52 | an unterminated EXTENDED token is cut at 40 characters, which panics when fewer remain |
| Relays.NoCandidateNoRelay | src/tor/relay.rs:33-73 | with no fingerprint candidate, both queries are sent and the answer is Ok(None) |
| Relays.CandidateLookedUp | src/tor/relay.rs:44-57 | a fingerprint candidate is looked up with `GETINFO ns/id/<fp>` and the relay comes from that reply |
| TorControl.SessionConnect | src/tor/client.rs:37-64 | `connect` succeeds exactly when the connection is made, and only then holds a stream; a refused or timed-out connection is a Tor error and changes nothing |
| TorControl.SessionSendRaw | src/tor/client.rs:136-163 | a reply is returned only on a connected client, only when it does not start with `515`, with the command recorded as sent and the reply being the daemon's next answer; a failed write gives "Failed to write command: " and the I/O error, with nothing recorded as sent, and a failed read "Failed to read response: " and the I/O error; the connection and port never change |
| TorControl.SessionAuthenticate | src/tor/client.rs:67-108 | `authenticate` succeeds only on a connected client and never changes the connection or port |
| TorControl.SessionGetStatus | src/tor/client.rs:111-133 | a status is returned only as connected and with circuit info; the connection and port never change |
| TorControl.TorClient.constructor | src/tor/client.rs:21-26 | `TorClient::new`: not connected, port 9051, nothing sent |
| TorControl.TorClient.WithPort | src/tor/client.rs:29-34 | `with_port`: not connected, the given port, nothing sent |
| TorControl.TorClient.Connect | src/tor/client.rs:37-64 | the result and new client state are those of `SessionConnect` |
| TorControl.TorClient.SendRawCommand | src/tor/client.rs:136-163 | the result and new client state are those of `SessionSendRaw` |
| TorControl.TorClient.SendCommand | src/tor/client.rs:166-168 | `send_command` behaves as `send_raw_command` |
| TorControl.TorClient.Authenticate | src/tor/client.rs:67-108 | the result and new client state are those of `SessionAuthenticate` |
| TorControl.TorClient.GetStatus | src/tor/client.rs:111-133 | the result and new client state are those of `SessionGetStatus` |
| TorControl.UnconnectedSendsNothing | src/tor/client.rs:68-139 | without a stream, sending, authenticating and asking the status fail with "Not connected to Tor" and change nothing |
| TorControl.ReplyChecked | src/tor/client.rs:136-163 | a reply starting with `515` becomes "Authentication required", any other reply is returned; the command is recorded and the reply consumed |
| TorControl.CookieAccepted | src/tor/client.rs:75-85 | a cookie reply containing `250` authenticates after sending only `AUTHENTICATE <hex>` |
| TorControl.BareAuthenticationAcceptsAnyReply | src/tor/client.rs:95-107 | bare `AUTHENTICATE` succeeds on any reply not starting with `515`, including a 5xx refusal |
| TorControl.CookieRejectedFallsBack | src/tor/client.rs:80-99 | a cookie reply without `250` falls back to bare authentication on the following exchange |
| TorControl.StatusFromReplies | src/tor/client.rs:117-132 | the status is connected, its circuit flag is whether the first reply contains `status/circuit-established=1`, and its info is the second reply, after the two GETINFO commands |
| TorControl.FailedConnectStaysUnconnected | src/tor/client.rs:50-62 | a failed connection leaves a new client unconnected |
| TorProtocol.ParseStatusCode | src/tor/protocol.rs:29-37 | the status code is read iff the line has a first field that parses as a u16, and is that number; otherwise `InvalidFormat` |
| TorProtocol.ParseResponse | src/tor/protocol.rs:4-26 | `EmptyResponse` exactly for the empty text; a parsed response carries the status code of the first line |
| TorProtocol.LinesEmpty | src/tor/protocol.rs:5-9 | `lines()` yields nothing exactly for the empty text, so only it is an empty response |
| TorProtocol.StatusLineCode | src/tor/protocol.rs:29-37 | a status line `CODE text` gives CODE |
| TorProtocol.MultiLineHeadRejected | src/tor/protocol.rs:29-37 | a multi-line head such as `250+…` or `250-…` is not a status code |
| TorProtocol.MultiLineReplyRejected | src/tor/protocol.rs:4-26 | a multi-line reply (first line `250+…` or `250-…`) is rejected as `InvalidFormat` |
| TorProtocol.ParseOfLines | src/tor/protocol.rs:12-25 | the data is the lines after the first joined with `\n` |
| TorProtocol.ParseReplyWithData | src/tor/protocol.rs:4-26 | round trip: `CODE OK` followed by data lines parses to that code and exactly those lines |
| TorProtocol.ParseStatusOnly | src/tor/protocol.rs:16-20 | a single status line parses with empty data |
| TorCommands.BuildAuthenticate | src/tor/commands.rs:4-9 | `AUTHENTICATE` then CRLF; with a cookie, a space and exactly the cookie in between |
| TorCommands.BuildGetinfo | src/tor/commands.rs:12-14 | `GETINFO `, exactly the key, CRLF |
| TorCommands.BuildSignalNewnym | src/tor/commands.rs:17-19 | `SIGNAL NEWNYM` then CRLF |
| TorCommands.BuildSetconf | src/tor/commands.rs:22-24 | `SETCONF `, the key, `=`, the value, CRLF, each at its place |
| TorCommands.GetinfoInjective | src/tor/commands.rs:12-14 | different keys give different GETINFO commands |
| TorCommands.AuthenticateInjective | src/tor/commands.rs:4-9 | different cookies (or none) give different AUTHENTICATE commands |
| TorCommands.SetconfInjective | src/tor/commands.rs:22-24 | for keys without `=`, the SETCONF command determines key and value |
| Countries.ValidateCountryCode | src/tor/country.rs:16-32 | a code is accepted iff it is 2 bytes long and all ASCII letters; a refusal is a Tor error quoting the code |
| Countries.CheckCodes | src/tor/country.rs:39-45 | the validated list is never longer than the pieces |
| Countries.ValidateCountryCodes | src/tor/country.rs:35-52 | the loop over the comma-separated, trimmed pieces computes the specified result, and a success is a non-empty list of upper-case two-letter codes |
| Countries.SetExitCountry | src/tor/country.rs:55-88 | result and client state are those of setting the exit nodes on the session: invalid input sends nothing, otherwise `SETCONF ExitNodes={…}` is sent and a reply containing `552` or `error` is refused |
| Countries.ClearExitCountry | src/tor/country.rs:91-99 | result and client state are those of sending `SETCONF ExitNodes=` and ignoring the reply |
| Countries.GetExitCountry | src/tor/country.rs:102-129 | the loop over the reply lines gives the result and client state of `SessionExitCountry` |
| Countries.CheckCodesIff | src/tor/country.rs:39-45 | the piece loop succeeds iff every non-empty piece is a valid code |
| Countries.CheckCodesOk | src/tor/country.rs:39-45 | on success the list is the non-empty pieces, upper-cased, in order |
| Countries.CheckCodesErr | src/tor/country.rs:39-45 | on failure the error is that of the first invalid non-empty piece, every earlier piece being empty or valid |
| Countries.CodesForSent | src/tor/country.rs:59-66 | whatever input `set_exit_country` accepts yields a non-empty list of upper-case two-letter codes |
| Countries.SingleCodeUntrimmed | src/tor/country.rs:59-66 | input without a comma is validated as is, untrimmed, and sent upper-cased |
| Countries.PaddedSingleRefused | src/tor/country.rs:59-66 | `" US"` is refused while `"us"` becomes `["US"]` |
| Countries.TrailingCommaSkipped | src/tor/country.rs:36-45 | `"US,"` takes the multi-code path and its empty piece is skipped, giving `["US"]` |
| Countries.LoneCommaRefused | src/tor/country.rs:47-49 | `","` has only empty pieces and is refused with "No valid country codes provided" |
| Countries.ExitNodesBraced | src/tor/country.rs:69-73 | both branches format the codes as `{A,B,…}` |
| Countries.SetExitNodesIsSetconf | src/tor/country.rs:76-94 | the set and clear commands are SETCONF of `ExitNodes` with the braced codes and with nothing |
| Countries.InvalidSendsNothing | src/tor/country.rs:59-66 | invalid input returns the validation error and sends nothing |
| Countries.SetExitCountryReply | src/tor/country.rs:76-87 | after sending the SETCONF, the call succeeds iff the reply contains neither `552` nor `error` |
| Countries.ClearIgnoresReply | src/tor/country.rs:91-99 | clearing succeeds whatever the reply says, unless sending fails |
| Countries.NodesAlwaysEmpty | src/tor/country.rs:108-112 | a line from `lines()` never ends in `\r\n`, so the stripped nodes are always empty |
| Countries.ExitCountryAlwaysNone | src/tor/country.rs:108-128 | the scan over `lines()` answers None for every reply |
| Countries.GetExitCountryNeverSome | src/tor/country.rs:102-129 | `get_exit_country` never reports a country |
| Countries.ExpectedReplyIgnored | src/tor/country.rs:107-116 | the reply format the code documents, `250 ExitNodes={US}`, is read as None |
| Countries.ExitNodesReadBack | src/tor/country.rs:108-124 | with the suffix strip dropped, a `250 ExitNodes={v}` reply reads back v |
| Countries.SetThenGetFixed | src/tor/country.rs:69-124 | with the suffix strip dropped, the exit nodes `set_exit_country` writes read back as the comma-joined codes |
| Fallback.FirstReachable | src/core/fallback.rs:79-101 | the index found is that of the first reachable bridge, every earlier one unreachable; None when none is reachable |
| Fallback.BackoffBounded | src/core/fallback.rs:109-135 | the retry delay starts at 1 s and doubles per retry, staying within 8 s over the four attempts |
| Fallback.CheckTorConnection | src/core/fallback.rs:31-62 | never fails; true exactly when the check finishes within the timeout and connect, authenticate and status succeed with an established circuit |
| Fallback.FallbackManager.constructor | src/core/fallback.rs:21-28 | inactive, no retries, no attempt yet |
| Fallback.FallbackManager.AttemptFallback | src/core/fallback.rs:65-105 | the bridge loop returns the specified outcome (listing error, false for no bridges, true at the first reachable bridge), probes bridges in order up to it, stamps the attempt time and on success activates the fallback with a zero retry count |
| Fallback.FallbackManager.AttemptFallbackWithRetry | src/core/fallback.rs:108-141 | the retry loop's result, final state, sleeps and attempt count are those of the retry specification |
| Fallback.FallbackManager.Reset | src/core/fallback.rs:159-164 | inactive, zero retries, no attempt time |
| Fallback.FallbackManager.TimeSinceLastAttempt | src/core/fallback.rs:149-151 | None before any attempt; otherwise the time elapsed since the last attempt |
| Fallback.ConnectionCheckIsCircuitVerdict | src/core/fallback.rs:34-42 | the connection check succeeds exactly when the health checker's circuit probe does |
| Fallback.SilentDaemonFailsCheck | src/core/fallback.rs:34-42 | a daemon that never answers fails the check |
| Fallback.AttemptOutcomeMeaning | src/core/fallback.rs:65-105 | an attempt succeeds iff the bridge list is read and some listed bridge is reachable; it errs iff the list cannot be read; an empty list gives false without probing |
| Fallback.ProbedInOrder | src/core/fallback.rs:79-101 | the bridges probed are a prefix of the list: up to and including the first reachable one, or all of them, all unreachable, on failure |
| Fallback.AttemptStateEffects | src/core/fallback.rs:67-89 | every attempt stamps its time; success activates the fallback and zeroes the retry count; otherwise both stay |
| Fallback.RetryResult | src/core/fallback.rs:108-141 | the retry loop never errs, and returns true iff one of the remaining attempts succeeds |
| Fallback.RetryAttempts | src/core/fallback.rs:111-118 | at most four attempts; the loop stops at the first success, every earlier attempt having failed |
| Fallback.RetrySleeps | src/core/fallback.rs:120-135 | the sleeps between attempts are 1, 2 and 4 seconds, one fewer than the attempts made |
| Fallback.RetryCount | src/core/fallback.rs:119-136 | success leaves the retry count at 0 and the fallback active; a false attempt sets the count to its number (4 for the last); an error leaves it |
| Fallback.AllUnreachable | src/core/fallback.rs:108-141 | when every attempt finds no reachable bridge: false after four attempts, sleeps of 1, 2 and 4 s, retry count 4, fallback inactive |
| Engine.Setup | src/core/engine.rs:41-51 | the system steps run in the order backup, routing rules, DNS, IPv6, stopping at the first failure; setup succeeds iff all four do |
| Engine.TorrerEngine.constructor | src/core/engine.rs:18-26 | a new engine is stopped, has no client and has made no system call |
| Engine.NewEngine | src/core/engine.rs:18-26 | `TorrerEngine::new` fails exactly when the iptables manager cannot be created, with its error; otherwise a fresh stopped engine |
| Engine.TorrerEngine.Start | src/core/engine.rs:29-64 | result and new state are those of the start specification: refusal while running; connect and authenticate errors change nothing; the system steps are logged as made; success keeps the client and marks running |
| Engine.TorrerEngine.SetupSystem | src/core/engine.rs:41-51 | the four `?` steps return the setup result and log exactly the calls made |
| Engine.TorrerEngine.Stop | src/core/engine.rs:67-130 | result and new state are those of the stop specification: every cleanup step runs, failures are collected into one error, and the engine ends stopped without a client |
| Engine.TorrerEngine.StopWithVerification | src/core/engine.rs:133-144 | behaves as `stop` |
| Engine.TorrerEngine.Status | src/core/engine.rs:147-181 | result and new state are those of the status specification |
| Engine.TorrerEngine.AttemptFallback | src/core/engine.rs:229-249 | one fallback attempt by a new fallback manager; success marks the engine running, false is "Fallback to bridges failed", an error is passed on |
| Engine.TorrerEngine.Restart | src/core/engine.rs:184-226 | result and new state are those of the restart specification: stop, ignoring its errors; start; on failure the fallback, whose error is combined with the start error |
| Engine.ConsistentPreserved | src/core/engine.rs:59-112 | a stopped engine holds no client, initially and after start, stop, status and fallback |
| Engine.RestartConsistent | src/core/engine.rs:184-226 | restart keeps a stopped engine without a client |
| Engine.NewEngineStatus | src/core/engine.rs:148-154 | a new engine reports not running, not connected, no circuit |
| Engine.StartWhileRunning | src/core/engine.rs:30-32 | start on a running engine fails with "Tor routing is already running" and changes nothing |
| Engine.StartSucceeds | src/core/engine.rs:29-64 | start succeeds iff the engine was stopped and connect, authenticate, the four system steps and the status query all succeed, established circuit or not; it then runs with a client after exactly the four setup calls |
| Engine.StartFailureNotRolledBack | src/core/engine.rs:38-54 | a failed start leaves the engine stopped, but the setup calls already made stay made: a prefix of the setup steps, with no cleanup call |
| Engine.SetupStopsAtFailure | src/core/engine.rs:42-45 | a failed backup makes no other call; a failed routing step comes after a backup that is not restored |
| Engine.StopWhenStopped | src/core/engine.rs:68-71 | stop on a stopped engine succeeds and changes nothing |
| Engine.StopCleansUp | src/core/engine.rs:73-130 | stop on a running engine always ends stopped without a client, after removing routing, removing DNS and restoring (twice when the restore fails); it fails iff one of the three failed |
| Engine.StopErrorsListed | src/core/engine.rs:76-108 | the error lists one message per failed step, in order, each naming its step |
| Engine.StatusReports | src/core/engine.rs:147-181 | status never fails, reports running exactly when the engine runs, reports Tor connected or a circuit only with a client, and changes neither running flag nor calls |
| Engine.StatusFromClient | src/core/engine.rs:156-173 | with a client, the Tor flags are those of its status query, or both false when it fails |
| Engine.StartThenStatus | src/core/engine.rs:147-181 | after a successful start, status reports running |
| Engine.RestartOutcome | src/core/engine.rs:184-226 | restart succeeds iff starting from the stopped engine succeeds or the fallback finds a reachable bridge; success through the fallback runs without a client; a failed restart leaves the engine stopped |
| Engine.FallbackOutcome | src/core/engine.rs:229-249 | the engine's fallback succeeds iff the bridge list is read and some listed bridge is reachable, and it never touches calls or client |
| Health.TrueCount | src/core/health.rs:112-120 | the number of true flags never exceeds the number of flags |
| Health.Assess | src/core/health.rs:9-38 | in the reported status a built circuit implies a working control port, which implies a running daemon |
| Health.Score | src/core/health.rs:112-120 | the score is 20 points per passing check |
| Health.CheckTorControl | src/core/health.rs:49-52 | true exactly when the connection to the control port succeeds |
| Health.CheckTorCircuit | src/core/health.rs:54-64 | true exactly when connect, authenticate and the status query all succeed and the status shows an established circuit |
| Health.CheckAll | src/core/health.rs:9-38 | never fails; probes control only when the daemon is up and the circuit only when control is up, and always probes iptables and DNS |
| Health.FieldsCount | src/core/health.rs:112-120 | the count of passing checks is the sum of the five flags taken as 0 or 1 |
| Health.ScoreRange | src/core/health.rs:112-120 | the score is a multiple of 20 between 0 and 100 |
| Health.AllTrueCount | src/core/health.rs:107-120 | every flag holds exactly when the count of true flags equals the number of flags |
| Health.IsHealthy | src/core/health.rs:107-120 | `is_healthy` holds exactly when the score (20 points per passing check) is 100 |
| Health.ControlVerdictIff | src/core/health.rs:49-52 | the control check passes exactly when the connection succeeds |
| Health.CircuitNeedsDaemon | src/core/health.rs:54-64 | with a daemon that answers nothing, the circuit check fails whatever the connection outcome |
| Health.CircuitWithoutCookie | src/core/health.rs:54-64 | after a successful connect and bare authentication the verdict is whether the first status reply reports the circuit as established |
| Health.AllPassingIsHealthy | src/core/health.rs:9-38 | when every probe passes the status is healthy and all five probes run in order |
| Health.DaemonDownSkipsControl | src/core/health.rs:9-38 | with the daemon down only the daemon, iptables and DNS probes run, and the status is not healthy |
| Monitoring.SuccessRate | src/core/monitoring.rs:64-77 | 0 with no attempts; otherwise the rate times the attempts equals 100 times the successes; never negative |
| Monitoring.Monitoring.constructor | src/core/monitoring.rs:16-24 | all counters are 0 and there is no start time |
| Monitoring.Monitoring.Start | src/core/monitoring.rs:27-30 | sets the start time to now and leaves every counter unchanged |
| Monitoring.Monitoring.Stop | src/core/monitoring.rs:33-36 | clears the start time and leaves every counter unchanged |
| Monitoring.Monitoring.Uptime | src/core/monitoring.rs:39-41 | None exactly when not started; otherwise the time since the start, saturating at 0 |
| Monitoring.Monitoring.RecordConnectionAttempt | src/core/monitoring.rs:44-46 | adds one to the attempt counter, modulo 2^32, and changes nothing else |
| Monitoring.Monitoring.RecordSuccessfulConnection | src/core/monitoring.rs:49-51 | adds one to the success counter, modulo 2^32, and changes nothing else |
| Monitoring.Monitoring.RecordBytesSent | src/core/monitoring.rs:54-56 | adds the byte count to the sent counter, modulo 2^64, and changes nothing else |
| Monitoring.Monitoring.RecordBytesReceived | src/core/monitoring.rs:59-61 | adds the byte count to the received counter, modulo 2^64, and changes nothing else |
| Monitoring.Monitoring.GetStats | src/core/monitoring.rs:64-77 | copies the four counters, has an uptime exactly when started, and a success rate of 0 without attempts and 100 times successes over attempts otherwise |
| Monitoring.Monitoring.GetConnectionStatus | src/core/monitoring.rs:79-87 | passes on the status query's error, otherwise copies its three fields; the client's session advances as for one status query |
| Monitoring.SuccessRateBounded | src/core/monitoring.rs:64-77 | while successes do not outnumber attempts the rate lies between 0 and 100 |
| Monitoring.SuccessRateCanExceed100 | src/core/monitoring.rs:44-51 | nothing bounds successes by attempts: one attempt and two successes give a rate of 200 |
| RateLimiting.Recent | src/core/rate_limiter.rs:31 | keeping only the times inside the window never lengthens the list |
| RateLimiting.RateLimiter.constructor | src/core/rate_limiter.rs:14-20 | stores the limit and the window and starts with no keys |
| RateLimiting.RateLimiter.Check | src/core/rate_limiter.rs:23-40 | admits exactly when fewer than the limit of that key's times remain inside the window; that key's list becomes its recent times, plus now when admitted, and no other key changes; no list ever exceeds the limit |
| RateLimiting.RateLimiter.Wait | src/core/rate_limiter.rs:43-47 | returns only at a poll whose check admits, a whole number of 100 ms polls after now, with the key's list as that admitting check leaves it |
| RateLimiting.RateLimiter.Reset | src/core/rate_limiter.rs:50-53 | removes that key and no other |
| RateLimiting.RateLimiter.ResetAll | src/core/rate_limiter.rs:56-59 | empties the map |
| RateLimiting.RecentMembers | src/core/rate_limiter.rs:31 | a time is kept exactly when it was on the list and is younger than the window |
| RateLimiting.RecentAllYoung | src/core/rate_limiter.rs:31 | when every time is inside the window the list is kept whole |
| RateLimiting.RecentTwice | src/core/rate_limiter.rs:28-31 | pruning at an earlier time and then at a later one equals pruning once at the later one |
| RateLimiting.StaleWindowEmpty | src/core/rate_limiter.rs:31 | once a whole window has passed since the newest time, nothing is kept |
| RateLimiting.PollStep | src/core/rate_limiter.rs:43-47 | successive failed polls prune as one prune at the latest time, and a poll a window after the newest time admits |
| RateLimiting.ZeroNeverAdmits | src/core/rate_limiter.rs:34-39 | with a limit of 0 no check admits and none records a time |
| RateLimiting.AfterCheckBounded | src/core/rate_limiter.rs:34-39 | a check keeps a list within the limit, and appends now exactly when it admits |
| RateLimiting.FreshKeyAdmits | src/core/rate_limiter.rs:28-59 | a key with no entry, as after a reset, is admitted exactly when the limit is positive, and then its list is just now |
| RateLimiting.BurstThenRefuse | src/core/rate_limiter.rs:34-39 | after a full burst at one instant, a further check at that instant is refused |
| Metrics.Store.constructor | src/core/metrics.rs:69-76 | no counters, gauges or timings, started now |
| Metrics.Store.Record | src/core/metrics.rs:78-80 | inserts or overwrites that gauge and changes nothing else |
| Metrics.Store.Increment | src/core/metrics.rs:82-84 | a missing counter starts at 0; the counter goes up by one, modulo 2^64, and nothing else changes |
| Metrics.Store.GetAll | src/core/metrics.rs:86-120 | the result is the snapshot of the counters, gauges, timings and uptime in seconds |
| Metrics.Store.Reset | src/core/metrics.rs:122-127 | empties the counters, gauges and timings and restarts the clock |
| Metrics.InsertCounters | src/core/metrics.rs:90-92 | the counter loop adds every counter's name, as a counter value, over what was there, and keeps the other entries |
| Metrics.InsertGauges | src/core/metrics.rs:95-97 | the gauge loop adds every gauge's name, as a gauge value, over what was there, and keeps the other entries |
| Metrics.InsertTimings | src/core/metrics.rs:100-113 | the timing loop adds exactly the names with a non-empty list, with their sample count, and keeps the other entries |
| Metrics.SnapshotLayers | src/core/metrics.rs:86-120 | the snapshot has exactly the uptime key, the counters, the gauges and the non-empty timings, each name taking its value from the last layer that has it: uptime over timings over gauges over counters |
| Metrics.MetricsCollector.constructor | src/core/metrics.rs:12-16 | a fresh empty store started now |
| Metrics.MetricsCollector.Record | src/core/metrics.rs:19-23 | inserts or overwrites that gauge and changes nothing else |
| Metrics.MetricsCollector.Increment | src/core/metrics.rs:26-30 | adds one to that counter, from 0 when missing, and changes nothing else |
| Metrics.MetricsCollector.RecordTiming | src/core/metrics.rs:33-35 | stores the duration in seconds as a gauge, not as a timing |
| Metrics.MetricsCollector.GetMetrics | src/core/metrics.rs:38-44 | the snapshot of the store, whose timings stay empty, so no value is a timing |
| Metrics.MetricsCollector.Reset | src/core/metrics.rs:47-51 | empties the store and restarts its clock |
| Metrics.GaugeHidesCounter | src/core/metrics.rs:90-97 | a gauge overrides a counter of the same name in the snapshot |
| Metrics.UptimeAlwaysPresent | src/core/metrics.rs:115-117 | the snapshot always holds the uptime gauge, overriding any entry of that name |
| Metrics.SnapshotKeys | src/core/metrics.rs:86-120 | without timings the snapshot's names are the counters, the gauges and uptime, and a counter no gauge hides reads back as itself |
| Metrics.IncrementCounts | src/core/metrics.rs:82-84 | below the 64-bit bound an increment raises the counter by exactly one |
| Config.FromSerialized | src/config/types.rs:4-24 | the stored fields are taken as given, and a missing collection flag or interval becomes true or 7 |
| Config.ValidateConfig | src/config/validator.rs:5-41 | passes exactly when all three ports are non-zero and a present country code is two ASCII letters; the first zero port, in the order control, transport, DNS, is the one reported; every failure is a configuration error |
| Config.Violated | src/config/schema.rs:76-95 | collecting the violated checks never yields more messages than there are checks |
| Config.SchemaValidate | src/config/schema.rs:76-102 | passes exactly when no check is violated, and otherwise returns every violation's message |
| Config.ViolatedChecks | src/config/schema.rs:79-95 | the messages are those of the zero ports, in the order control, transport, DNS, then the country code when it is present and not 2 bytes long |
| Config.DefaultIsValid | src/config/types.rs:26-39 | the default configuration (ports 9051, 9040 and 5353, IPv6 off, fallback on, no country, collection on every 7 days) passes validation |
| Config.CountryExamples | src/config/validator.rs:26-38 | with valid ports, "ca" and "CA" pass unchanged, and "INVALID" fails on its length |
| Config.ValidConfigPassesSchema | src/config/schema.rs:76-102 | every configuration that passes validation also passes the schema |
| Config.SchemaWeakerOnCountry | src/config/schema.rs:91-95 | "C1" passes the schema, which checks only the length, yet validation rejects it for the digit |
| Config.SchemaCollectsAll | src/config/schema.rs:77-101 | with every field wrong the schema reports all four violations, in order, not just the first |
| Config.SchemaDefaultsAgree | src/config/schema.rs:31-73 | the schema's defaults are those of the default configuration, and no field is required |
| Config.MissingFieldsDefault | src/config/types.rs:12-24 | input without the two defaulted fields gets bridge collection on, every 7 days |
| ConfigStore.LoadFrom | src/config/manager.rs:32-50 | a missing file gives the default configuration; anything returned passes validation; every failure is a configuration error |
| ConfigStore.LoadOrDefault | src/config/manager.rs:113 | the loaded or default configuration always passes validation |
| ConfigStore.Merge | src/config/manager.rs:125-133 | the ports, IPv6 and fallback come from the import; the country is replaced only when the import has one; the bridge collection settings are kept |
| ConfigStore.WizardCountry | src/config/manager.rs:312-319 | an empty answer clears the country; an answer of two ASCII letters becomes the country, upper-cased; any other answer keeps the current value |
| ConfigStore.ConfigManager.constructor | src/config/manager.rs:17-29 | the manager starts from the given configuration file and backups |
| ConfigStore.ConfigManager.Load | src/config/manager.rs:32-50 | a missing file gives the default configuration, and anything returned passes validation |
| ConfigStore.ConfigManager.Save | src/config/manager.rs:193-207 | succeeds exactly when the configuration passes validation and the write succeeds; then the file holds it; a validation failure returns that error, a failed write "Failed to write config file", and on failure the file is unchanged |
| ConfigStore.ConfigManager.BackupConfig | src/config/manager.rs:155-174 | with no file it returns the configuration path and copies nothing; otherwise it copies the file under the timestamp or fails; the file itself never changes |
| ConfigStore.ConfigManager.RestoreBackup | src/config/manager.rs:177-190 | fails with "Backup file not found" when the source is missing and "Failed to restore backup" when it cannot be copied, leaving the file; on success the file is the backup, or, restoring the configuration path onto itself, the emptied file, which does not decode |
| ConfigStore.ConfigManager.Import | src/config/manager.rs:68-104 | succeeds exactly when the backup, the read, the parse, validation and the save all succeed, and then the file holds the import; any failure leaves the file as it was; an existing file is backed up under `now` whenever the backup succeeds; each failure returns its own error, validation as "Invalid configuration in import file: " and the error's `Display` text |
| ConfigStore.ConfigManager.ImportPartial | src/config/manager.rs:107-152 | succeeds exactly when the backup, the read, the parse, validation of the merge and the save succeed, and then the file holds the merge of the import into the loaded configuration; any failure leaves the file as it was; an existing file is backed up under `now` whenever the backup succeeds; each failure returns its own error, validation as "Invalid merged configuration: " and the error's `Display` text |
| ConfigStore.SaveThenLoad | src/config/manager.rs:32-50 | a configuration that save accepts loads back unchanged |
| ConfigStore.LoadRejectsInvalid | src/config/manager.rs:46-47 | a stored configuration that fails validation loads as that validation error |
| ConfigStore.MergeKeepsCountry | src/config/manager.rs:125-133 | an import without a country keeps the existing country and collection settings and takes the rest from the import |
| ConfigStore.WizardCountryAccepted | src/config/manager.rs:312-319 | from a valid current country the wizard's answer always leaves a valid country or none |
| ConfigStore.WizardCountryExamples | src/config/manager.rs:312-319 | "ca" becomes "CA", and "usa" keeps the current value |
| Logs.Tail | src/cli/commands/logs.rs:23-27 | with 0 < tail < n the last tail lines, otherwise all of them; either way a suffix of the log |
| Logs.FilterLevel | src/cli/commands/logs.rs:30-43 | never more lines than given, and every line kept passes the level test |
| Logs.ViewLogs | src/cli/commands/logs.rs:11-43 | a missing log file gives the notice and success; the only failure is an unreadable file, whose I/O error is returned as it is |
| Logs.LevelMatchesIff | src/cli/commands/logs.rs:31-39 | for an upper-cased level, the three-way test is a case-insensitive substring test |
| Logs.FilterLevelMembers | src/cli/commands/logs.rs:32-40 | a line is kept exactly when it was given and passes the level test |
| Logs.FilterLevelAppend | src/cli/commands/logs.rs:32-40 | the filter works line by line and keeps order: filtering two runs of lines is filtering each and joining the results |
| Logs.FilterLevelAll | src/cli/commands/logs.rs:32-40 | when every line passes the test the filter keeps them all |
| Logs.ShownLines | src/cli/commands/logs.rs:19-43 | with a readable file and a level, the lines shown are exactly the tailed lines that contain the level, ignoring case |
| Schedule.LoadTasks | src/cli/commands/schedule.rs:97-113 | a missing file reads as no tasks, a parsed file as its tasks, and only an unreadable or unparsable file fails, with "Failed to read tasks file: " or "Failed to parse tasks file: " and the error text |
| Schedule.Without | src/cli/commands/schedule.rs:82 | removing by name never lengthens the list |
| Schedule.TaskStore.constructor | src/cli/commands/schedule.rs:97-102 | the store starts from the given tasks file |
| Schedule.TaskStore.AddTask | src/cli/commands/schedule.rs:45-73 | a load failure or an existing name fails and leaves the file unchanged; otherwise the new enabled task is appended at the end and saved, succeeding exactly when the save does and otherwise returning the failed step's error |
| Schedule.TaskStore.RemoveTask | src/cli/commands/schedule.rs:76-94 | a load failure or a name with no task fails without writing; otherwise every task with the name is dropped and the rest saved in order, succeeding exactly when the save does and otherwise returning the failed step's error |
| Schedule.TaskStore.SaveTasks | src/cli/commands/schedule.rs:116-136 | succeeds exactly when creating the directory, serialising and writing all succeed, and then the file holds that list; each failed step gives its own error ("Failed to create tasks directory: ", "Failed to serialize tasks: ", "Failed to write tasks file: " and the error text) and changes nothing |
| Schedule.WithoutMembers | src/cli/commands/schedule.rs:82 | a task is kept exactly when it was listed and has another name |
| Schedule.WithoutShrinks | src/cli/commands/schedule.rs:80-88 | the list keeps its length exactly when no task has the name, and is then unchanged |
| Schedule.WithoutAppend | src/cli/commands/schedule.rs:82 | the removal works task by task and keeps order: removing from two runs is removing from each and joining |
| Schedule.AddKeepsUnique | src/cli/commands/schedule.rs:51-64 | appending a task whose name is new keeps the names unique, and the name is then present |
| Schedule.AddThenRemove | src/cli/commands/schedule.rs:45-94 | removing a task just added under a new name gives back the list as it was |
| Schedule.RemoveKeepsUnique | src/cli/commands/schedule.rs:76-94 | after removal the name is absent and the names stay unique |
| Schedule.WithoutKeepsUnique | src/cli/commands/schedule.rs:82 | a list with unique names keeps them unique under removal |
| Retry.FirstOk | src/utils/retry.rs:68-71 | the call index that first succeeds, every earlier call having failed, or the attempt limit when none succeeds |
| Retry.DelayStep | src/utils/retry.rs:42-45 | each next delay is the current one times the multiplier, capped at the maximum |
| Retry.RetryFixed | src/utils/retry.rs:57-85 | the attempt loop returns the first success or the last error, makes the specified number of calls, and sleeps the fixed delay between calls only |
| Retry.RetryWithBackoff | src/utils/retry.rs:24-54 | the attempt loop returns the first success or the last error, makes the specified number of calls, and its j-th sleep is the j-th backoff delay |
| Retry.FirstOkWins | src/utils/retry.rs:32-34 | when call k is the first success the result is that call's value, after exactly k + 1 calls |
| Retry.AllFail | src/utils/retry.rs:51-53 | when every call fails there are as many calls as attempts, one sleep fewer, and the result is the last error, or "All retry attempts failed" with no attempts |
| Retry.OutcomeOkIff | src/utils/retry.rs:32-53 | the retry succeeds exactly when some call within the attempt limit succeeds |
| Retry.CallsAndSleeps | src/utils/retry.rs:38-41 | at most the attempt limit of calls, and one sleep fewer than calls |
| Retry.DelayBounded | src/utils/retry.rs:42-45 | no delay exceeds the larger of the initial delay and the cap |
| Retry.DefaultDelays | src/utils/retry.rs:12-21 | with the default configuration the delays are 1 s doubled each time, capped at 30 s |
| Retry.DefaultAllFail | src/utils/retry.rs:12-21 | with the default configuration and every call failing, three calls and two sleeps of 1 s and then 2 s |
| Version.ParsedParts | src/utils/version.rs:7-12 | dropping the pieces that do not parse never yields more components than pieces |
| Version.CompareFrom | src/utils/version.rs:20-30 | the loop reports Equal exactly when the sides, padded with zeros, agree at every index it visits |
| Version.Compare | src/utils/version.rs:6-31 | None exactly when either side has no numeric component |
| Version.Padded | src/utils/version.rs:18-22 | the first n components, with missing ones read as 0 |
| Version.CompareFromLess | src/utils/version.rs:20-28 | the loop reports Less exactly when at the first index where the sides differ the left one is smaller |
| Version.AgreePadded | src/utils/version.rs:18-22 | the sides agree below k exactly when their zero-padded forms have equal prefixes of length k |
| Version.CompareIsLexicographic | src/utils/version.rs:18-30 | the comparison is the lexicographic order on the zero-padded component lists |
| Version.CompareFromBound | src/utils/version.rs:18-20 | running the loop past the longer side changes nothing, so the padding length does not matter |
| Version.CompareFromFlip | src/utils/version.rs:20-28 | swapping the sides flips the result |
| Version.CompareFromTransitive | src/utils/version.rs:20-28 | Less followed by Less gives Less |
| Version.ComparePadding | src/utils/version.rs:18-30 | a trailing zero component changes nothing, so "1.0" equals "1.0.0" |
| Version.CompareEqualIff | src/utils/version.rs:6-31 | Equal exactly when both sides have a numeric component and the padded components all agree |
| Version.CompareReflexive | src/utils/version.rs:6-31 | a version with a numeric component equals itself |
| Version.CompareAntisymmetric | src/utils/version.rs:6-31 | Greater one way exactly when Less the other, and Equal both ways or neither |
| Version.CompareTransitive | src/utils/version.rs:6-31 | Less is transitive |
| Version.IsNewerIff | src/utils/version.rs:34-38 | newer exactly when the comparison is Greater, equivalently Less the other way; never both ways, and false when either side has no number |
| Version.IsNewer | src/utils/version.rs:34-38 | a version is newer only when both sides have numeric components and those differ |
| Version.DropsNonNumeric | src/utils/version.rs:7-12 | a piece that does not parse is dropped, as in "1.x.2" read as 1.2 |
| Update.StripTagV | src/cli/commands/update.rs:114-119 | the result is a suffix of the tag that does not start with v, and everything removed was a v |
| Update.StripTagVIdempotent | src/cli/commands/update.rs:118 | removing the leading v characters a second time removes nothing more |
| Update.AtLeastFromIsNotLess | src/cli/commands/update.rs:139-150 | from any index below 3 the loop answers true exactly when the remaining components, read as 0 when missing, do not compare Less |
| Update.CompareVersionsAgreesWithCompare | src/cli/commands/update.rs:126-151 | when both versions have one to three numeric components, `compare_versions` is true exactly when `Version::compare` finds the current version not less than the latest |
| Update.CompareVersions | src/cli/commands/update.rs:126-151 | true exactly when `Version::compare`'s component loop, run over the first three components, does not find the current version less |
| Update.CompareVersionsTotal | src/cli/commands/update.rs:139-150 | for any two versions the answer is true at least one way round |
| Update.CompareVersionsReflexive | src/cli/commands/update.rs:139-150 | every version is at least itself |
| Update.CompareVersionsFirstThree | src/cli/commands/update.rs:139 | versions that agree on their first three components, as "1.2.3.9" and "1.2.3.1" do, compare alike against everything and at least each other both ways |
| Update.SameFirstThree | src/cli/commands/update.rs:139-148 | the loop looks only at the first three components |
| Validation.ValidatePort | src/utils/validation.rs:17-24 | fails exactly when the port is 0, since a u16 is never above 65535, and reports a configuration error |
| Validation.ValidateCountryCode | src/utils/validation.rs:27-41 | passes exactly when the code is two ASCII letters of either case; failures are configuration errors |
| Validation.ValidateBridge | src/utils/validation.rs:44-59 | a bridge that passes contains a colon; every failure is a configuration error |
| Validation.ValidateBridgeOneColon | src/utils/validation.rs:44-59 | with exactly one colon the bridge passes exactly when the address passes the IP check and the port text is a non-zero u16 |
| Validation.ValidateBridgeNoColon | src/utils/validation.rs:45-50 | without a colon the format error is reported |
| Validation.ValidateBridgeTwoColons | src/utils/validation.rs:45-50 | with two colons or more the format error is reported |
| Validation.ValidateBridgeTrailingToken | src/utils/validation.rs:52-55 | a token after the port, such as a fingerprint, makes the port fail to parse |
| Validation.CountryCodesAccepted | src/utils/validation.rs:27-41 | "CA", "US" and "us" pass |
| Validation.CountryCodesRejected | src/utils/validation.rs:27-41 | "INVALID" and "C" fail on length and "C1" on the digit |
| Format.Breakdown | src/utils/format.rs:4-18 | the printed fields are in range (seconds below 60, minutes below 60 when hours are shown, no zero leading field) and recombine as h·3600 + m·60 + s to the whole seconds |
| Format.FormatExamples | src/utils/format.rs:7-18 | 45 s prints as "45s", 125 s as "2m 5s" and 3725 s as "1h 2m 5s" |
| Format.BreakdownUnique | src/utils/format.rs:7-18 | every in-range split of a number of seconds is the one printed for it |
| Format.FormatDurationInjective | src/utils/format.rs:4-18 | distinct numbers of seconds print differently |
| Format.FormatDuration | src/utils/format.rs:4-18 | the text is never empty and always ends with the seconds unit `s` |
| Format.RenderInjective | src/utils/format.rs:8-17 | the three print patterns never collide on in-range fields |
| Format.FieldsOfRender | src/utils/format.rs:8-17 | reading a printed text back field by field gives the printed numbers with their unit letters |

## Left out

- The GUI, CLI dispatch and printing, the iptables, DNS, IPv6, MAC and firewall managers, the daemon, diagnostics, backup, persistence and state modules, events, the scheduler, and the async helpers: these are process plumbing or UI code with no decision logic. The engine sees only their success or failure.
- Network I/O (TCP connects, the Moat HTTP request and its JSON decoding, leak tests) is replaced by given outcomes and replies. A control-port reply is taken to arrive whole in the single 4096-byte read.
- Fallback.FallbackManager.AttemptFallback: the probe is a function of the bridge, so two equal bridges in one list share an outcome, where two real connects could differ.
- Clocks, sleeps and timeouts are replaced by a `now` parameter and by the list of sleeps a method would take. A timeout is one of the connect outcomes.
- TOML and JSON (de)serialisation, hex encoding of the auth cookie and the cookie file read are foreign libraries. A configuration, task or bridge file is a file state whose decoded contents are given.
- `std::net::IpAddr` parsing is the predicate parameter `isIp` of `Validation.ValidateBridge`. The path checks of `validate_file_path` and `validate_dir_path` are not modelled.
- Floating point: `format_bytes`, `format_percentage`, and the average, minimum and maximum of a metrics timing are left out. Gauges and success rates are exact reals.
- `Text.Upper` upper-cases ASCII letters only, where `str::to_uppercase` also maps other scripts. Relay slicing counts characters where Rust counts bytes, and the two agree on ASCII text.
- `BridgeCollector`'s `collect_snowflake`, `collect_and_test`, `collect_and_cache`, and `auto_collect` (an endless loop) are not modelled. They are compositions of the modelled operations with printing and sleeps.
- `ConfigManager::export` and `interactive_config` are not modelled, apart from the wizard's country rule `ConfigStore.WizardCountry`. Both are a load or a series of console prompts around a TOML write.
- `FallbackManager::get_retry_count` and `is_fallback_active` are plain field reads. The `Display` texts of `EngineStatus` and `TorClient`, `CountrySelector::new` (its code field is never read), and the persisted engine state file are not modelled.
- Engine: the failures of `FallbackManager::new` and `BridgeManager::new` (creating the bridge directory) are not modelled, and `restart`'s 2 s pause is not taken. `Engine.NewEngine` models the failure of `IptablesManager::new`.
- `log_view` output in JSON and `--follow` mode are not modelled: the model returns the selected lines.
- Monitoring.Monitoring.RecordConnectionAttempt: the counter wraps modulo 2^32 as in a release build. A debug build panics on overflow instead. The same holds for `RecordSuccessfulConnection` (2^32), `RecordBytesSent` and `RecordBytesReceived` (2^64), and `Metrics.Store.Increment` (2^64).
- Retry.RetryWithBackoff: the `f64` multiplier is a natural number and delays are whole milliseconds, so the rounding of `Duration::from_secs_f64` is not modelled. The call outcomes are given as a sequence at least as long as the attempt limit.
- RateLimiting.RateLimiter.Wait: requires a positive limit, because with a limit of 0 the source polls forever. It also requires that no recorded time lies after `now`, which a monotonic clock guarantees.
- ConfigStore.ConfigManager.Import: a failed write changes nothing in this model. Restoring the backup after a failure therefore leaves the file as it was, and the contract states only that. The read and parse errors drop the import path and the library's error text.
- ConfigStore.ConfigManager.ImportPartial: as for `Import`, a failed write changes nothing, so the restore after a failure leaves the file as it was. The read and parse errors drop the import path and the library's error text.
- BridgeStorage.BridgeManager.SaveBridges: a failed `writeln!` leaves the lines before it whole, and the failed line is taken as not written. A partly written line, as a short write could leave it, is not modelled. The text of an I/O error is an input string.
- BridgeCollection.RecordSuccess: the `u32` success count is an unbounded natural number here, so its wrap-around after 2^32 tests of one bridge (a panic in a debug build) is not modelled.
- BridgeCollection.RecordFailure: the same holds for the `u32` failure count.
- BridgeCollection.SuccessRate: the `u32` sum of the two counts is exact here, and the `f64` division is an exact real division.
- TorControl.SessionConnect: the `ConnectFailed` error reads "Failed to connect to Tor control port. Is Tor running?". The source puts ": " and the text of the I/O error before the final sentence, and the model drops that text.
- Metrics.MetricsCollector.GetMetrics: a timing entry reports only its sample count.
- ConfigStore.LoadFrom: the read and parse errors keep only their fixed text ("Failed to read config file", "Failed to parse config file"); the source appends ": " and the library's error text. The same holds for `ConfigStore.ConfigManager.Save` ("Failed to write config file"), `ConfigStore.ConfigManager.BackupConfig` ("Failed to backup configuration") and `ConfigStore.ConfigManager.RestoreBackup` ("Failed to restore backup", and "Backup file not found" without the backup path the source appends).
- ConfigStore.ConfigManager.Save: the serialisation step ("Failed to serialize config") is taken to succeed.
- Schedule.TaskStore.SaveTasks: a failed write changes nothing, so a file truncated by a write that fails midway is not modelled. Whether the TOML library can encode or decode a bare list of tasks at the document root is not decided here: a failing serialisation is one of the given outcomes, and a tasks file that does not decode is `Unparsable`.

## Findings

| source | as written | input that shows it | evidently intended | confidence | as-written member | corrected member |
|---|---|---|---|---|---|---|
| src/tor/country.rs:108-112 | `get_exit_country` strips the suffix `"\r\n"` from each line that `lines()` yields. A line never ends in `"\r\n"`, so `nodes` is always empty and the function always returns `None`. | the reply `"250 ExitNodes={US}\r\n"` gives `None` | read the nodes after the prefix, so that this reply gives `Some("US")` | not executed | Countries.ExpectedReplyIgnored | Countries.SetThenGetFixed |
