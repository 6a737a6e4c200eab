/** The node configuration of app/config/config.go: defaults derived from
    the home directory, overrides read from `config/config.toml`, and the
    checks the node runs before it starts. */
module Config {
  import opened Optional
  import opened Numeric
  import opened Errors
  import Paths

  const DefaultPort: uint16 := 6900
  const DefaultLogLevel: string := "info"

  datatype Config = Config(
    homeDir: string,
    dataPort: uint16,
    logLevel: string,
    moniker: string,
    nodeKeyFile: string,
    stateFile: string)

  /** `NewConfig`: the defaults for a home directory. */
  function NewConfig(homeDir: string): (c: Config)
    ensures c.homeDir == homeDir && c.moniker == ""
    ensures c.dataPort == 6900 && c.logLevel == "info"
    ensures c.stateFile == Paths.Join([homeDir, "dseq.bin"])
    ensures c.nodeKeyFile == Paths.Join([homeDir, "config", "node_key.json"])
  {
    Config(homeDir, DefaultPort, DefaultLogLevel, "",
           Paths.Join([homeDir, "config", "node_key.json"]),
           Paths.Join([homeDir, "dseq.bin"]))
  }

  /** Where Load reads the configuration file from. */
  function ConfigFilePath(c: Config): string {
    Paths.Join([c.homeDir, "config", "config.toml"])
  }

  /** The keys Load reads; a key missing from the file reads as "" or 0. */
  datatype Settings = Settings(moniker: string, logLevel: string, dataPort: uint64)

  /** The outcome of reading the configuration file. */
  datatype ReadOutcome = ReadOk(settings: Settings) | ReadFailed(err: Error)

  /** A configuration after Load, and Load's error. */
  datatype Loaded = Loaded(config: Config, err: Option<Error>)

  /** `Load`: on a read failure nothing changes; otherwise the moniker and
      log level are replaced, and the port is replaced by its low 16 bits
      when the configured port is positive. */
  function Load(c: Config, read: ReadOutcome): (r: Loaded)
    ensures r.err.Some? <==> read.ReadFailed?
    ensures read.ReadFailed? ==>
      r.config == c && r.err == Some(Wrapped("failed to read config file", read.err))
    ensures read.ReadOk? ==>
      && r.config.moniker == read.settings.moniker
      && r.config.logLevel == read.settings.logLevel
      && (read.settings.dataPort == 0 ==> r.config.dataPort == c.dataPort)
      && (read.settings.dataPort > 0 ==> r.config.dataPort == read.settings.dataPort % TWO_16)
      && r.config.homeDir == c.homeDir && r.config.stateFile == c.stateFile
      && r.config.nodeKeyFile == c.nodeKeyFile
  {
    match read
    case ReadFailed(e) => Loaded(c, Some(Wrapped("failed to read config file", e)))
    case ReadOk(s) =>
      var port := if s.dataPort > 0 then ToUint16(s.dataPort) else c.dataPort;
      Loaded(c.(moniker := s.moniker, logLevel := s.logLevel, dataPort := port), None)
  }

  const ErrEmptyHome: Error := Plain("home directory cannot be empty")
  const ErrZeroPort: Error := Plain("data port cannot be 0")
  const ErrEmptyMoniker: Error := Plain("moniker cannot be empty")

  /** `Validate`: the home directory, then the port, then the moniker; the
      first failing check is reported. */
  function Validate(c: Config): (r: Option<Error>)
    ensures r.None? <==> c.homeDir != "" && c.dataPort != 0 && c.moniker != ""
    ensures c.homeDir == "" ==> r == Some(ErrEmptyHome)
    ensures c.homeDir != "" && c.dataPort == 0 ==> r == Some(ErrZeroPort)
    ensures c.homeDir != "" && c.dataPort != 0 && c.moniker == "" ==> r == Some(ErrEmptyMoniker)
  {
    if c.homeDir == "" then Some(ErrEmptyHome)
    else if c.dataPort == 0 then Some(ErrZeroPort)
    else if c.moniker == "" then Some(ErrEmptyMoniker)
    else None
  }

  // ---- properties ----

  /** The defaults never validate: the moniker is empty, and with an empty
      home directory that is reported first. */
  lemma DefaultsNeverValidate(homeDir: string)
    ensures Validate(NewConfig(homeDir)) == Some(if homeDir == "" then ErrEmptyHome else ErrEmptyMoniker)
  {
  }

  /** The default file locations under a non-empty home directory. */
  lemma DefaultPaths(homeDir: string)
    requires homeDir != ""
    ensures NewConfig(homeDir).stateFile == homeDir + "/dseq.bin"
    ensures NewConfig(homeDir).nodeKeyFile == homeDir + "/config/node_key.json"
    ensures ConfigFilePath(NewConfig(homeDir)) == homeDir + "/config/config.toml"
  {
    StateFileUnderHome(homeDir);
    FileUnderConfigDir(homeDir, "node_key.json");
    FileUnderConfigDir(homeDir, "config.toml");
  }

  lemma StateFileUnderHome(homeDir: string)
    requires homeDir != ""
    ensures Paths.Join([homeDir, "dseq.bin"]) == homeDir + "/dseq.bin"
  {
    Paths.JoinTwo(homeDir, "dseq.bin");
  }

  lemma FileUnderConfigDir(homeDir: string, name: string)
    requires homeDir != "" && name != ""
    ensures Paths.Join([homeDir, "config", name]) == homeDir + "/config/" + name
  {
    Paths.JoinThree(homeDir, "config", name);
  }

  /** A configured port of 65536 truncates to 0, which Validate then refuses;
      70000 truncates to 4464; a port of 0 keeps the default. */
  lemma PortTruncation(homeDir: string, moniker: string)
    requires homeDir != "" && moniker != ""
    ensures var c := Load(NewConfig(homeDir), ReadOk(Settings(moniker, "debug", 65536))).config;
      c.dataPort == 0 && Validate(c) == Some(ErrZeroPort)
    ensures Load(NewConfig(homeDir), ReadOk(Settings(moniker, "debug", 70000))).config.dataPort == 4464
    ensures Load(NewConfig(homeDir), ReadOk(Settings(moniker, "debug", 0))).config.dataPort == 6900
  {
  }

  /** Loading the file into the defaults gives a valid configuration exactly
      when the home directory and the configured moniker are non-empty and
      the configured port is absent or does not truncate to 0. */
  lemma LoadedDefaultsValidate(homeDir: string, s: Settings)
    ensures Validate(Load(NewConfig(homeDir), ReadOk(s)).config).None?
        <==> homeDir != "" && s.moniker != "" && (s.dataPort == 0 || s.dataPort % TWO_16 != 0)
  {
  }

  /** A failed read leaves the defaults in place, so validation still fails. */
  lemma FailedLoadKeepsDefaults(homeDir: string, e: Error)
    ensures Load(NewConfig(homeDir), ReadFailed(e)).config == NewConfig(homeDir)
    ensures Validate(Load(NewConfig(homeDir), ReadFailed(e)).config).Some?
  {
  }
}
