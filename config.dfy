/**
 * Start-up configuration: the ini file as read by the ini library, the check
 * that the required keys are set, and the precedence of command-line flags
 * over ini values for the store connection.
 */
module Config {
  import opened Types
  import opened ErrorReport

  /** An ini file: section name (`""` for the default section) to key to value. */
  datatype Ini = Ini(sections: map<string, map<string, string>>)

  /** `Section(section).Key(key).String()`: the value, or `""` when the section or key is missing. */
  function KeyString(ini: Ini, section: string, key: string): string
  {
    if section in ini.sections && key in ini.sections[section] then ini.sections[section][key] else ""
  }

  /** Whether the file holds `key` in `section` at all (empty or not). */
  predicate HasKey(ini: Ini, section: string, key: string)
  {
    section in ini.sections && key in ini.sections[section]
  }

  /** `Section(section).Key(key).MustString(default)`: the value, or `default` when the value is empty. */
  function MustString(ini: Ini, section: string, key: string, default: string): string
  {
    var v := KeyString(ini, section, key);
    if v == "" then default else v
  }

  const PortMissing := "Please specify port to listen in ini file"
  const ApiKeyMissing := "GCM Key is not defined in ini file"
  const HostMissing := "mongo:host is not defined in ini file"
  const UsernameMissing := "mongo:username is not define in ini file"
  const PasswordMissing := "mongo:password is not defined in ini file"

  /** The five settings the daemon cannot start without. */
  predicate RequiredPresent(ini: Ini)
  {
    && KeyString(ini, "", "port") != ""
    && KeyString(ini, "gcm", "apikey") != ""
    && KeyString(ini, "mongo", "host") != ""
    && KeyString(ini, "mongo", "username") != ""
    && KeyString(ini, "mongo", "password") != ""
  }

  /**
   * `validateIni()`: `None` when start-up may go on, otherwise the message of
   * the first failed check, with which the process exits.
   */
  function ValidateIni(ini: Ini): (r: Option<string>)
    ensures r == None <==> RequiredPresent(ini)
    ensures r.Some? ==> r.value in {PortMissing, ApiKeyMissing, HostMissing, UsernameMissing, PasswordMissing}
    ensures r == Some(PortMissing) <==> KeyString(ini, "", "port") == ""
    ensures r == Some(ApiKeyMissing) <==>
      KeyString(ini, "", "port") != "" && KeyString(ini, "gcm", "apikey") == ""
    ensures r == Some(HostMissing) <==>
      && KeyString(ini, "", "port") != "" && KeyString(ini, "gcm", "apikey") != ""
      && KeyString(ini, "mongo", "host") == ""
    ensures r == Some(UsernameMissing) <==>
      && KeyString(ini, "", "port") != "" && KeyString(ini, "gcm", "apikey") != ""
      && KeyString(ini, "mongo", "host") != "" && KeyString(ini, "mongo", "username") == ""
    ensures r == Some(PasswordMissing) <==>
      && KeyString(ini, "", "port") != "" && KeyString(ini, "gcm", "apikey") != ""
      && KeyString(ini, "mongo", "host") != "" && KeyString(ini, "mongo", "username") != ""
      && KeyString(ini, "mongo", "password") == ""
  {
    if KeyString(ini, "", "port") == "" then Some(PortMissing)
    else if KeyString(ini, "gcm", "apikey") == "" then Some(ApiKeyMissing)
    else if KeyString(ini, "mongo", "host") == "" then Some(HostMissing)
    else if KeyString(ini, "mongo", "username") == "" then Some(UsernameMissing)
    else if KeyString(ini, "mongo", "password") == "" then Some(PasswordMissing)
    else None
  }

  /** The command-line flags; each defaults to `""` except `config`. */
  datatype Flags = Flags(
    config: string,
    username: string,
    password: string,
    host: string,
    database: string,
    source: string)

  const DefaultConfigPath := "/etc/omeetings.ini"
  const DefaultInterval := "5s"
  const DefaultTimeout := "10s"

  /** A duration in nanoseconds, as the time library counts it. */
  type Duration = int

  const Second: Duration := 1_000_000_000
  /** The timeout used when the configured one does not parse: ten seconds. */
  const TimeoutFallback: Duration := 10 * Second
  const IntervalUnparsable := "Fail to parse interval value"

  /** The connection settings handed to the store driver, and the two durations. */
  datatype Settings = Settings(
    host: string,
    username: string,
    password: string,
    database: string,
    source: string,
    interval: Duration,
    timeout: Duration)

  /** The precedence rule for one connection setting: a non-empty flag wins over the ini value. */
  function Prefer(flag: string, iniValue: string): string
  {
    if flag != "" then flag else iniValue
  }

  /** The interval text: the default section's `interval`, or "5s" when it is empty. */
  function IntervalText(ini: Ini): string
  {
    MustString(ini, "", "interval", DefaultInterval)
  }

  /** The timeout text: the `mongo` section's `timeout`, or "10s" when it is empty. */
  function TimeoutText(ini: Ini): string
  {
    MustString(ini, "mongo", "timeout", DefaultTimeout)
  }

  /**
   * The five connection settings: each read from the `mongo` section with
   * its flag as the default, then overridden by the flag when the flag is
   * not empty.
   */
  method Connection(ini: Ini, flags: Flags)
    returns (user: string, pass: string, host: string, database: string, source: string)
    ensures user == Prefer(flags.username, KeyString(ini, "mongo", "username"))
    ensures pass == Prefer(flags.password, KeyString(ini, "mongo", "password"))
    ensures host == Prefer(flags.host, KeyString(ini, "mongo", "host"))
    ensures database == Prefer(flags.database, KeyString(ini, "mongo", "database"))
    ensures source == Prefer(flags.source, KeyString(ini, "mongo", "source"))
  {
    user := MustString(ini, "mongo", "username", flags.username);
    pass := MustString(ini, "mongo", "password", flags.password);
    host := MustString(ini, "mongo", "host", flags.host);
    database := MustString(ini, "mongo", "database", flags.database);
    source := MustString(ini, "mongo", "source", flags.source);

    if flags.username != "" {
      user := flags.username;
    }
    if flags.password != "" {
      pass := flags.password;
    }
    if flags.host != "" {
      host := flags.host;
    }
    if flags.database != "" {
      database := flags.database;
    }
    if flags.source != "" {
      source := flags.source;
    }
  }

  /**
   * Start-up from `validateIni()` to the dial settings: validation first, then
   * the interval text, the connection settings, then the parse of the
   * interval, whose parse failure ends the process through `onError`, and the
   * timeout, which falls back to ten seconds when it does not parse.
   * `parseDuration` is the time library's parser (nanoseconds, or `None`).
   */
  method Startup(ini: Ini, flags: Flags, parseDuration: string -> Option<Duration>) returns (r: Result<Settings, string>)
    ensures r.Failure? <==> !RequiredPresent(ini) || parseDuration(IntervalText(ini)).None?
    ensures !RequiredPresent(ini) ==> r.Failure? && Some(r.error) == ValidateIni(ini)
    ensures RequiredPresent(ini) && parseDuration(IntervalText(ini)).None? ==>
      r.Failure? && r.error == ErrorLine([IntervalUnparsable])
    ensures r.Success? ==>
      && r.value.username == Prefer(flags.username, KeyString(ini, "mongo", "username"))
      && r.value.password == Prefer(flags.password, KeyString(ini, "mongo", "password"))
      && r.value.host == Prefer(flags.host, KeyString(ini, "mongo", "host"))
      && r.value.database == Prefer(flags.database, KeyString(ini, "mongo", "database"))
      && r.value.source == Prefer(flags.source, KeyString(ini, "mongo", "source"))
    ensures r.Success? ==>
      && (KeyString(ini, "", "interval") == "" ==> r.value.interval == parseDuration(DefaultInterval).value)
      && (KeyString(ini, "", "interval") != "" ==> r.value.interval == parseDuration(KeyString(ini, "", "interval")).value)
      && (parseDuration(TimeoutText(ini)).None? ==> r.value.timeout == TimeoutFallback)
      && (parseDuration(TimeoutText(ini)).Some? ==> r.value.timeout == parseDuration(TimeoutText(ini)).value)
      && (KeyString(ini, "mongo", "timeout") == "" && parseDuration(DefaultTimeout).Some? ==>
            r.value.timeout == parseDuration(DefaultTimeout).value)
  {
    var invalid := ValidateIni(ini);
    if invalid.Some? {
      return Failure(invalid.value);
    }
    var intervalText := MustString(ini, "", "interval", DefaultInterval);

    var user, pass, host, database, source := Connection(ini, flags);

    var interval := parseDuration(intervalText);
    var exit := OnError(interval.None?, [IntervalUnparsable]);
    if exit.Some? {
      return Failure(exit.value);
    }

    var timeout := parseDuration(MustString(ini, "mongo", "timeout", DefaultTimeout));
    var timeoutValue := if timeout.Some? then timeout.value else TimeoutFallback;
    r := Success(Settings(host, user, pass, database, source, interval.value, timeoutValue));
  }

  /**
   * The merge gives the same value whether the library falls back to the
   * default only for a missing key or also for an empty one: the default is
   * the flag, and it is only kept when the flag is empty.
   */
  lemma MergeIndependentOfDefaultRule(ini: Ini, key: string, flag: string)
    ensures var absentOnly := if HasKey(ini, "mongo", key) then KeyString(ini, "mongo", key) else flag;
            Prefer(flag, absentOnly) == Prefer(flag, MustString(ini, "mongo", key, flag))
    ensures Prefer(flag, MustString(ini, "mongo", key, flag)) == Prefer(flag, KeyString(ini, "mongo", key))
  {
  }

  /**
   * Once validation has passed, the flags given as defaults for the username,
   * password and host are never used as defaults: those keys are set, so a
   * flag can only override them.
   */
  lemma ValidatedCredentialsIgnoreDefault(ini: Ini, default: string)
    requires ValidateIni(ini) == None
    ensures MustString(ini, "mongo", "username", default) == KeyString(ini, "mongo", "username")
    ensures MustString(ini, "mongo", "password", default) == KeyString(ini, "mongo", "password")
    ensures MustString(ini, "mongo", "host", default) == KeyString(ini, "mongo", "host")
  {
  }
}
