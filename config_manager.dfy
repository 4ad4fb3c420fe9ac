/** The configuration manager of src/config/manager.rs over an abstract
    file store. A file is absent, present but unreadable, or present with a
    text whose TOML decoding is given (`None` when it does not parse);
    `save` stores the configuration it writes, so decoding what was saved
    gives it back. Whether a write or a copy succeeds is a parameter, and
    a failed write or copy changes nothing. Backups are kept by their
    timestamp, in seconds, passed in as `now`. */
module ConfigStore {
  import opened Wrappers
  import opened Errors
  import opened Text
  import opened Config

  datatype FileState = Absent | Unreadable | Toml(decoded: Option<Configuration>)

  /** The path `backup_config` returns: the configuration file itself when
      there was nothing to back up, or the timestamped backup. */
  datatype BackupPath = ConfigPath | BackupAt(timestamp: nat)

  const READ_FAILED := Config("Failed to read config file")
  const PARSE_FAILED := Config("Failed to parse config file")
  const WRITE_FAILED := Config("Failed to write config file")
  const BACKUP_FAILED := Config("Failed to backup configuration")
  const BACKUP_MISSING := Config("Backup file not found")
  const RESTORE_FAILED := Config("Failed to restore backup")
  const IMPORT_READ_FAILED := Config("Failed to read import file")
  const IMPORT_PARSE_FAILED := Config("Failed to parse import file")

  /** `load` on the given configuration file. */
  function LoadFrom(file: FileState): (r: TorrerResult<Configuration>)
    ensures r.Ok? ==> ValidateConfig(r.value).Ok?
    ensures file == Absent ==> r == Ok(DEFAULT_CONFIGURATION)
    ensures r.Err? ==> r.error.Config?
  {
    match file
    case Absent => DefaultIsValid(); Ok(DEFAULT_CONFIGURATION)
    case Unreadable => Err(READ_FAILED)
    case Toml(None) => Err(PARSE_FAILED)
    case Toml(Some(c)) =>
      match ValidateConfig(c)
      case Err(e) => Err(e)
      case Ok(_) => Ok(c)
  }

  /** `unwrap_or_default` of `load`. */
  function LoadOrDefault(file: FileState): (c: Configuration)
    ensures ValidateConfig(c).Ok?
  {
    DefaultIsValid();
    match LoadFrom(file)
    case Ok(c) => c
    case Err(_) => DEFAULT_CONFIGURATION
  }

  /** The merge of `import_partial`: ports, IPv6 and fallback from the
      import, the country only when the import has one, and the bridge
      collection settings kept. */
  function Merge(existing: Configuration, imported: Configuration): (m: Configuration)
    ensures m.torControlPort == imported.torControlPort && m.torTransportPort == imported.torTransportPort
    ensures m.torDnsPort == imported.torDnsPort
    ensures m.ipv6Enabled == imported.ipv6Enabled && m.autoFallback == imported.autoFallback
    ensures m.countryCode == if imported.countryCode.Some? then imported.countryCode else existing.countryCode
    ensures m.autoCollectBridges == existing.autoCollectBridges
    ensures m.bridgeCollectionIntervalDays == existing.bridgeCollectionIntervalDays
  {
    var m := existing.(torControlPort := imported.torControlPort,
                       torTransportPort := imported.torTransportPort,
                       torDnsPort := imported.torDnsPort,
                       ipv6Enabled := imported.ipv6Enabled,
                       autoFallback := imported.autoFallback);
    if imported.countryCode.Some? then m.(countryCode := imported.countryCode) else m
  }

  /** The wizard's rule for the country answer (already trimmed): empty
      clears it, exactly two ASCII letters are upper-cased, anything else
      keeps the current value. */
  function WizardCountry(answer: string, current: Option<string>): (r: Option<string>)
    ensures answer == [] ==> r.None?
    ensures answer != [] && r != current ==> r.Some? && r.value == Upper(answer) && CountryAccepted(answer)
    ensures answer != [] && CountryAccepted(answer) ==> r == Some(Upper(answer))
    ensures answer != [] && !CountryAccepted(answer) ==> r == current
  {
    TwoAsciiLetters(answer);
    if answer == [] then None
    else if ByteLen(answer) == 2 && AllAsciiAlpha(answer) then Some(Upper(answer))
    else current
  }

  /** `backup_config` succeeds on the file: there is none, or it is read
      and copied. */
  predicate BacksUp(file: FileState, copyOk: bool) {
    file == Absent || (file != Unreadable && copyOk)
  }

  class ConfigManager {
    /** The configuration file. */
    var file: FileState
    /** The backup files, by timestamp. */
    var backups: map<nat, FileState>

    constructor (file: FileState, backups: map<nat, FileState>)
      ensures this.file == file && this.backups == backups
    {
      this.file := file;
      this.backups := backups;
    }

    /** `load`. */
    function Load(): (r: TorrerResult<Configuration>)
      reads this
      ensures r.Ok? ==> ValidateConfig(r.value).Ok?
      ensures file == Absent ==> r == Ok(DEFAULT_CONFIGURATION)
    {
      LoadFrom(file)
    }

    /** `save`: validate first, so an invalid configuration is never
        written. */
    method Save(config: Configuration, writeOk: bool) returns (r: TorrerResult<Unit>)
      modifies this
      ensures r.Ok? <==> ValidateConfig(config).Ok? && writeOk
      ensures r.Ok? ==> file == Toml(Some(config))
      ensures r.Err? ==> file == old(file)
      ensures ValidateConfig(config).Err? ==> r == Err(ValidateConfig(config).error)
      ensures ValidateConfig(config).Ok? && !writeOk ==> r == Err(WRITE_FAILED)
      ensures backups == old(backups)
    {
      var v := ValidateConfig(config);
      if v.Err? {
        return Err(v.error);
      }
      if !writeOk {
        return Err(WRITE_FAILED);
      }
      file := Toml(Some(config));
      r := Ok(Unit);
    }

    /** `backup_config`: copy the file to a timestamped backup; with no
        file, return the file's own path and copy nothing. */
    method BackupConfig(now: nat, copyOk: bool) returns (r: TorrerResult<BackupPath>)
      modifies this
      ensures file == old(file)
      ensures old(file) == Absent ==> r == Ok(ConfigPath) && backups == old(backups)
      ensures old(file) != Absent && copyOk && old(file) != Unreadable ==>
        r == Ok(BackupAt(now)) && backups == old(backups)[now := old(file)]
      ensures old(file) != Absent && !(copyOk && old(file) != Unreadable) ==>
        r == Err(BACKUP_FAILED) && backups == old(backups)
    {
      if file == Absent {
        return Ok(ConfigPath);
      }
      if !copyOk || file == Unreadable {
        return Err(BACKUP_FAILED);
      }
      backups := backups[now := file];
      r := Ok(BackupAt(now));
    }

    /** `restore_backup`: copy the backup over the file. The path of the
        file itself, returned when there was nothing to back up, makes the
        copy one of the file onto itself, which empties it; the empty text
        does not decode, as the port fields have no default. */
    method RestoreBackup(path: BackupPath, copyOk: bool) returns (r: TorrerResult<Unit>)
      modifies this
      ensures backups == old(backups)
      ensures path.ConfigPath? ==>
        (r.Ok? <==> old(file) != Absent && old(file) != Unreadable && copyOk)
      ensures path.BackupAt? ==>
        (r.Ok? <==> path.timestamp in backups && backups[path.timestamp] != Absent
                    && backups[path.timestamp] != Unreadable && copyOk)
      ensures r.Ok? && path.ConfigPath? ==> file == Toml(None)
      ensures r.Ok? && path.BackupAt? ==> file == backups[path.timestamp]
      ensures r.Err? ==> file == old(file)
      ensures r.Err? ==> r.error == BACKUP_MISSING || r.error == RESTORE_FAILED
    {
      match path
      case ConfigPath =>
        if file == Absent {
          return Err(BACKUP_MISSING);
        }
        if !copyOk || file == Unreadable {
          return Err(RESTORE_FAILED);
        }
        file := Toml(None);
        r := Ok(Unit);
      case BackupAt(t) =>
        if t !in backups || backups[t] == Absent {
          return Err(BACKUP_MISSING);
        }
        if !copyOk || backups[t] == Unreadable {
          return Err(RESTORE_FAILED);
        }
        file := backups[t];
        r := Ok(Unit);
    }

    /** `import`: back up, read, parse, validate and save the import, and
        restore the backup on a parse, validation or save failure. */
    method Import(imported: FileState, now: nat, backupOk: bool, writeOk: bool, restoreOk: bool)
      returns (r: TorrerResult<Unit>)
      modifies this
      ensures r.Ok? <==> BacksUp(old(file), backupOk)
                         && imported.Toml? && imported.decoded.Some?
                         && ValidateConfig(imported.decoded.value).Ok? && writeOk
      ensures r.Ok? ==> file == imported
      ensures r.Err? ==> file == old(file)
      ensures old(file) == Absent ==> backups == old(backups)
      ensures old(file) != Absent && BacksUp(old(file), backupOk) ==> backups == old(backups)[now := old(file)]
      ensures !BacksUp(old(file), backupOk) ==> r == Err(BACKUP_FAILED) && backups == old(backups)
      ensures BacksUp(old(file), backupOk) && !imported.Toml? ==> r == Err(IMPORT_READ_FAILED)
      ensures BacksUp(old(file), backupOk) && imported == Toml(None) ==> r == Err(IMPORT_PARSE_FAILED)
      ensures (BacksUp(old(file), backupOk) && imported.Toml? && imported.decoded.Some?
               && ValidateConfig(imported.decoded.value).Err?) ==>
        r == Err(Config("Invalid configuration in import file: " + Display(ValidateConfig(imported.decoded.value).error)))
      ensures (BacksUp(old(file), backupOk) && imported.Toml? && imported.decoded.Some?
               && ValidateConfig(imported.decoded.value).Ok? && !writeOk) ==> r == Err(WRITE_FAILED)
    {
      ghost var before := file;
      var backup := BackupConfig(now, backupOk);
      if backup.Err? {
        return Err(backup.error);
      }
      assert backup.value.BackupAt? ==> backups[backup.value.timestamp] == before;
      assert backup.value.ConfigPath? ==> before == Absent;
      if !imported.Toml? {
        return Err(IMPORT_READ_FAILED);
      }
      if imported.decoded.None? {
        var _ := RestoreBackup(backup.value, restoreOk);
        return Err(IMPORT_PARSE_FAILED);
      }
      var config := imported.decoded.value;
      var v := ValidateConfig(config);
      if v.Err? {
        var _ := RestoreBackup(backup.value, restoreOk);
        return Err(Config("Invalid configuration in import file: " + Display(v.error)));
      }
      r := Save(config, writeOk);
      if r.Err? {
        var _ := RestoreBackup(backup.value, restoreOk);
      }
    }

    /** `import_partial`: merge the import into the loaded configuration
        (or the default), then validate and save. A parse failure returns
        without restoring; validation and save failures restore. */
    method ImportPartial(imported: FileState, now: nat, backupOk: bool, writeOk: bool, restoreOk: bool)
      returns (r: TorrerResult<Unit>)
      modifies this
      ensures r.Ok? <==> BacksUp(old(file), backupOk)
                         && imported.Toml? && imported.decoded.Some?
                         && ValidateConfig(Merge(LoadOrDefault(old(file)), imported.decoded.value)).Ok? && writeOk
      ensures r.Ok? ==> file == Toml(Some(Merge(LoadOrDefault(old(file)), imported.decoded.value)))
      ensures r.Err? ==> file == old(file)
      ensures old(file) == Absent ==> backups == old(backups)
      ensures old(file) != Absent && BacksUp(old(file), backupOk) ==> backups == old(backups)[now := old(file)]
      ensures !BacksUp(old(file), backupOk) ==> r == Err(BACKUP_FAILED) && backups == old(backups)
      ensures BacksUp(old(file), backupOk) && !imported.Toml? ==> r == Err(IMPORT_READ_FAILED)
      ensures BacksUp(old(file), backupOk) && imported == Toml(None) ==> r == Err(IMPORT_PARSE_FAILED)
      ensures (BacksUp(old(file), backupOk) && imported.Toml? && imported.decoded.Some?
               && ValidateConfig(Merge(LoadOrDefault(old(file)), imported.decoded.value)).Err?) ==>
        r == Err(Config("Invalid merged configuration: "
                        + Display(ValidateConfig(Merge(LoadOrDefault(old(file)), imported.decoded.value)).error)))
      ensures (BacksUp(old(file), backupOk) && imported.Toml? && imported.decoded.Some?
               && ValidateConfig(Merge(LoadOrDefault(old(file)), imported.decoded.value)).Ok? && !writeOk) ==>
        r == Err(WRITE_FAILED)
    {
      ghost var before := file;
      var backup := BackupConfig(now, backupOk);
      if backup.Err? {
        return Err(backup.error);
      }
      assert backup.value.BackupAt? ==> backups[backup.value.timestamp] == before;
      assert backup.value.ConfigPath? ==> before == Absent;
      var existing := LoadOrDefault(file);
      if !imported.Toml? {
        return Err(IMPORT_READ_FAILED);
      }
      if imported.decoded.None? {
        return Err(IMPORT_PARSE_FAILED);
      }
      var merged := Merge(existing, imported.decoded.value);
      var v := ValidateConfig(merged);
      if v.Err? {
        var _ := RestoreBackup(backup.value, restoreOk);
        return Err(Config("Invalid merged configuration: " + Display(v.error)));
      }
      r := Save(merged, writeOk);
      if r.Err? {
        var _ := RestoreBackup(backup.value, restoreOk);
      }
    }
  }

  // ---------------------------------------------------------------- lemmas

  /** What `save` writes, `load` reads back. */
  lemma SaveThenLoad(c: Configuration)
    requires ValidateConfig(c).Ok?
    ensures LoadFrom(Toml(Some(c))) == Ok(c)
  {
  }

  /** A stored configuration that fails validation is never loaded: the
      validation error is returned. */
  lemma LoadRejectsInvalid(c: Configuration)
    requires ValidateConfig(c).Err?
    ensures LoadFrom(Toml(Some(c))) == Err(ValidateConfig(c).error)
  {
  }

  /** Merging keeps a valid existing country when the import has none. */
  lemma MergeKeepsCountry(existing: Configuration, imported: Configuration)
    requires imported.countryCode.None?
    ensures Merge(existing, imported).countryCode == existing.countryCode
    ensures Merge(existing, imported) == imported.(countryCode := existing.countryCode,
      autoCollectBridges := existing.autoCollectBridges,
      bridgeCollectionIntervalDays := existing.bridgeCollectionIntervalDays)
  {
  }

  /** The wizard never introduces a country `validate_config` rejects: its
      answer passes, or the current value is kept. */
  lemma WizardCountryAccepted(answer: string, current: Option<string>)
    requires current.Some? ==> CountryAccepted(current.value)
    ensures var r := WizardCountry(answer, current); r.Some? ==> CountryAccepted(r.value)
  {
    var r := WizardCountry(answer, current);
    if r.Some? && r != current {
      var u := Upper(answer);
      assert forall i :: 0 <= i < 2 ==> IsAsciiAlpha(u[i]) by {
        forall i | 0 <= i < 2 ensures IsAsciiAlpha(u[i]) {
          assert IsAsciiAlpha(answer[i]);
        }
      }
    }
  }

  /** `ca` becomes `CA`; a three-letter answer keeps the current value. */
  lemma WizardCountryExamples(current: Option<string>)
    ensures WizardCountry("ca", current) == Some("CA")
    ensures WizardCountry("usa", current) == current
  {
    var usa := "usa";
    assert ByteLen(usa) >= |usa|;
    var ca := "ca";
    assert ByteLen(ca) == 2 by {
      assert ca[1..][1..] == [];
    }
    assert Upper(ca) == "CA";
  }
}
