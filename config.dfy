/** The configuration record (src/config/types.rs), its validator
    (src/config/validator.rs) and the descriptive schema with its own,
    weaker, checker (src/config/schema.rs). */
module Config {
  import opened Wrappers
  import opened Errors
  import opened Text
  import opened Decimal

  datatype Configuration = Configuration(
    torControlPort: u16,
    torTransportPort: u16,
    torDnsPort: u16,
    ipv6Enabled: bool,
    autoFallback: bool,
    countryCode: Option<string>,
    autoCollectBridges: bool,
    bridgeCollectionIntervalDays: u32)

  /** `Configuration::default`. */
  const DEFAULT_CONFIGURATION := Configuration(9051, 9040, 5353, false, true, None, true, 7)

  /** The fields as a serialized configuration supplies them: the two with
      a serde default may be missing. */
  datatype SerializedFields = SerializedFields(
    torControlPort: u16,
    torTransportPort: u16,
    torDnsPort: u16,
    ipv6Enabled: bool,
    autoFallback: bool,
    countryCode: Option<string>,
    autoCollectBridges: Option<bool>,
    bridgeCollectionIntervalDays: Option<u32>)

  /** Deserialization with `default_auto_collect_bridges` (true) and
      `default_bridge_collection_interval` (7) filling missing fields. */
  function FromSerialized(f: SerializedFields): (c: Configuration)
    ensures c.autoCollectBridges == (f.autoCollectBridges.None? || f.autoCollectBridges.value)
    ensures c.bridgeCollectionIntervalDays == if f.bridgeCollectionIntervalDays.Some? then f.bridgeCollectionIntervalDays.value else 7
    ensures c.torControlPort == f.torControlPort && c.torTransportPort == f.torTransportPort && c.torDnsPort == f.torDnsPort
    ensures c.ipv6Enabled == f.ipv6Enabled && c.autoFallback == f.autoFallback && c.countryCode == f.countryCode
  {
    Configuration(f.torControlPort, f.torTransportPort, f.torDnsPort, f.ipv6Enabled, f.autoFallback, f.countryCode,
      match f.autoCollectBridges case Some(b) => b case None => true,
      match f.bridgeCollectionIntervalDays case Some(d) => d case None => 7)
  }

  // ----------------------------------------------------------- validator

  const CONTROL_PORT_INVALID := Config("Invalid Tor control port (must be 1-65535)")
  const TRANSPORT_PORT_INVALID := Config("Invalid Tor transport port (must be 1-65535)")
  const DNS_PORT_INVALID := Config("Invalid Tor DNS port (must be 1-65535)")
  const COUNTRY_LENGTH_INVALID := Config("Invalid country code (must be 2 letters, e.g., CA, US)")
  const COUNTRY_LETTERS_INVALID := Config("Country code must contain only letters")

  /** A country code `validate_config` accepts: two bytes, ASCII letters of
      either case. */
  predicate CountryAccepted(code: string) {
    |code| == 2 && AllAsciiAlpha(code)
  }

  /** `validate_config`: the ports in the order control, transport, DNS,
      then a present country code; the first failure is reported. The
      `> 65535` halves of the port guards cannot hold for a `u16`. */
  function ValidateConfig(c: Configuration): (r: TorrerResult<Unit>)
    ensures r.Ok? <==> c.torControlPort != 0 && c.torTransportPort != 0 && c.torDnsPort != 0
                       && (c.countryCode.Some? ==> CountryAccepted(c.countryCode.value))
    ensures c.torControlPort == 0 ==> r == Err(CONTROL_PORT_INVALID)
    ensures c.torControlPort != 0 && c.torTransportPort == 0 ==> r == Err(TRANSPORT_PORT_INVALID)
    ensures c.torControlPort != 0 && c.torTransportPort != 0 && c.torDnsPort == 0 ==> r == Err(DNS_PORT_INVALID)
    ensures r.Err? ==> r.error.Config?
  {
    if c.torControlPort == 0 || c.torControlPort > 65535 then Err(CONTROL_PORT_INVALID)
    else if c.torTransportPort == 0 || c.torTransportPort > 65535 then Err(TRANSPORT_PORT_INVALID)
    else if c.torDnsPort == 0 || c.torDnsPort > 65535 then Err(DNS_PORT_INVALID)
    else match c.countryCode
      case None => Ok(Unit)
      case Some(country) =>
        TwoAsciiLetters(country);
        if ByteLen(country) != 2 then Err(COUNTRY_LENGTH_INVALID)
        else if !AllAsciiAlpha(country) then Err(COUNTRY_LETTERS_INVALID)
        else Ok(Unit)
  }

  // -------------------------------------------------------------- schema

  /** The JSON values the schema uses as defaults. */
  datatype JsonValue = JsonNumber(n: int) | JsonBool(b: bool)

  datatype FieldSchema = FieldSchema(kind: string, required: bool, default: Option<JsonValue>, description: string)

  datatype ConfigurationSchema = ConfigurationSchema(
    torControlPort: FieldSchema,
    torTransportPort: FieldSchema,
    torDnsPort: FieldSchema,
    ipv6Enabled: FieldSchema,
    autoFallback: FieldSchema,
    countryCode: FieldSchema)

  datatype ConfigSchema = ConfigSchema(version: string, schema: ConfigurationSchema)

  /** `ConfigSchema::default`. */
  const DEFAULT_SCHEMA := ConfigSchema("1.0", ConfigurationSchema(
    FieldSchema("integer", false, Some(JsonNumber(9051)), "Tor control port"),
    FieldSchema("integer", false, Some(JsonNumber(9040)), "Tor transport port"),
    FieldSchema("integer", false, Some(JsonNumber(5353)), "Tor DNS port"),
    FieldSchema("boolean", false, Some(JsonBool(false)), "Enable IPv6"),
    FieldSchema("boolean", false, Some(JsonBool(true)), "Enable automatic fallback"),
    FieldSchema("string", false, None, "Exit node country code")))

  const CONTROL_PORT_VIOLATION := "tor_control_port must be 1-65535"
  const TRANSPORT_PORT_VIOLATION := "tor_transport_port must be 1-65535"
  const DNS_PORT_VIOLATION := "tor_dns_port must be 1-65535"
  const COUNTRY_VIOLATION := "country_code must be 2 letters"

  /** What the schema checks, in order: each of the four checks with
      whether it is violated. */
  function SchemaChecks(c: Configuration): seq<(bool, string)> {
    [(c.torControlPort == 0, CONTROL_PORT_VIOLATION),
     (c.torTransportPort == 0, TRANSPORT_PORT_VIOLATION),
     (c.torDnsPort == 0, DNS_PORT_VIOLATION),
     (c.countryCode.Some? && ByteLen(c.countryCode.value) != 2, COUNTRY_VIOLATION)]
  }

  /** The messages of the violated checks, in order. */
  function Violated(checks: seq<(bool, string)>): (r: seq<string>)
    ensures |r| <= |checks|
  {
    if checks == [] then []
    else (if checks[0].0 then [checks[0].1] else []) + Violated(checks[1..])
  }

  /** `ConfigSchema::validate`: every violation is collected, not only the
      first; `Ok` iff there is none. */
  method SchemaValidate(schema: ConfigSchema, c: Configuration) returns (r: Result<Unit, seq<string>>)
    ensures r.Ok? <==> Violated(SchemaChecks(c)) == []
    ensures r.Err? ==> r.error == Violated(SchemaChecks(c))
  {
    var errors: seq<string> := [];
    if c.torControlPort == 0 || c.torControlPort > 65535 {
      errors := errors + [CONTROL_PORT_VIOLATION];
    }
    if c.torTransportPort == 0 || c.torTransportPort > 65535 {
      errors := errors + [TRANSPORT_PORT_VIOLATION];
    }
    if c.torDnsPort == 0 || c.torDnsPort > 65535 {
      errors := errors + [DNS_PORT_VIOLATION];
    }
    if c.countryCode.Some? {
      if ByteLen(c.countryCode.value) != 2 {
        errors := errors + [COUNTRY_VIOLATION];
      }
    }
    ViolatedChecks(c);
    if errors == [] {
      r := Ok(Unit);
    } else {
      r := Err(errors);
    }
  }

  lemma ViolatedChecks(c: Configuration)
    ensures Violated(SchemaChecks(c)) ==
      (if c.torControlPort == 0 then [CONTROL_PORT_VIOLATION] else []) +
      (if c.torTransportPort == 0 then [TRANSPORT_PORT_VIOLATION] else []) +
      (if c.torDnsPort == 0 then [DNS_PORT_VIOLATION] else []) +
      (if c.countryCode.Some? && ByteLen(c.countryCode.value) != 2 then [COUNTRY_VIOLATION] else [])
  {
    var k := SchemaChecks(c);
    var k1, k2, k3 := k[1..], k[2..], k[3..];
    assert k1[1..] == k2 && k2[1..] == k3 && k3[1..] == [];
    assert Violated(k3) == (if k[3].0 then [k[3].1] else []) + Violated([]);
    assert Violated(k2) == (if k[2].0 then [k[2].1] else []) + Violated(k3);
    assert Violated(k1) == (if k[1].0 then [k[1].1] else []) + Violated(k2);
    assert Violated(k) == (if k[0].0 then [k[0].1] else []) + Violated(k1);
  }

  // ---------------------------------------------------------------- lemmas

  /** The default configuration passes `validate_config`. */
  lemma DefaultIsValid()
    ensures ValidateConfig(DEFAULT_CONFIGURATION) == Ok(Unit)
  {
  }

  /** Lower case is accepted and kept as it is; `INVALID` is rejected for
      its length. */
  lemma CountryExamples(c: Configuration)
    requires c.torControlPort != 0 && c.torTransportPort != 0 && c.torDnsPort != 0
    ensures ValidateConfig(c.(countryCode := Some("ca"))) == Ok(Unit)
    ensures ValidateConfig(c.(countryCode := Some("CA"))) == Ok(Unit)
    ensures ValidateConfig(c.(countryCode := Some("INVALID"))) == Err(COUNTRY_LENGTH_INVALID)
  {
    var bad := "INVALID";
    assert ByteLen(bad) >= |bad| == 7;
  }

  /** Every configuration `validate_config` accepts, the schema accepts. */
  lemma ValidConfigPassesSchema(c: Configuration)
    requires ValidateConfig(c).Ok?
    ensures Violated(SchemaChecks(c)) == []
  {
    ViolatedChecks(c);
    if c.countryCode.Some? {
      TwoAsciiLetters(c.countryCode.value);
    }
  }

  /** The schema checks only the length: `C1` passes it, yet
      `validate_config` rejects it. */
  lemma SchemaWeakerOnCountry(c: Configuration)
    requires c.torControlPort != 0 && c.torTransportPort != 0 && c.torDnsPort != 0
    ensures Violated(SchemaChecks(c.(countryCode := Some("C1")))) == []
    ensures ValidateConfig(c.(countryCode := Some("C1"))) == Err(COUNTRY_LETTERS_INVALID)
  {
    var d := c.(countryCode := Some("C1"));
    ViolatedChecks(d);
    var code := "C1";
    assert ByteLen(code) == 2 by {
      assert code[1..][1..] == [];
    }
    assert !IsAsciiAlpha(code[1]);
  }

  /** A configuration with every port 0 and a three-letter country gets all
      four violations, in the order control, transport, DNS, country. */
  lemma SchemaCollectsAll(c: Configuration, code: string)
    requires c.torControlPort == 0 && c.torTransportPort == 0 && c.torDnsPort == 0
    requires ByteLen(code) != 2
    ensures Violated(SchemaChecks(c.(countryCode := Some(code)))) ==
      [CONTROL_PORT_VIOLATION, TRANSPORT_PORT_VIOLATION, DNS_PORT_VIOLATION, COUNTRY_VIOLATION]
  {
    ViolatedChecks(c.(countryCode := Some(code)));
  }

  /** The schema's defaults are those of `Configuration::default`, and no
      field is required. */
  lemma SchemaDefaultsAgree()
    ensures var s := DEFAULT_SCHEMA.schema;
      s.torControlPort.default == Some(JsonNumber(DEFAULT_CONFIGURATION.torControlPort))
      && s.torTransportPort.default == Some(JsonNumber(DEFAULT_CONFIGURATION.torTransportPort))
      && s.torDnsPort.default == Some(JsonNumber(DEFAULT_CONFIGURATION.torDnsPort))
      && s.ipv6Enabled.default == Some(JsonBool(DEFAULT_CONFIGURATION.ipv6Enabled))
      && s.autoFallback.default == Some(JsonBool(DEFAULT_CONFIGURATION.autoFallback))
      && s.countryCode.default.None? && DEFAULT_CONFIGURATION.countryCode.None?
      && !s.torControlPort.required && !s.torTransportPort.required && !s.torDnsPort.required
      && !s.ipv6Enabled.required && !s.autoFallback.required && !s.countryCode.required
  {
  }

  /** Serialized input without the two defaulted fields gets bridge
      collection on, every 7 days. */
  lemma MissingFieldsDefault(f: SerializedFields)
    requires f.autoCollectBridges.None? && f.bridgeCollectionIntervalDays.None?
    ensures FromSerialized(f).autoCollectBridges && FromSerialized(f).bridgeCollectionIntervalDays == 7
  {
  }
}
