/**
 * The agent's settings and the JSON config file that fills in the ones not
 * given as flags (internal/infra/config/agent_flags.go).
 *
 * Which flags were passed on the command line is an input set of flag names;
 * the file's contents, or the step at which reading it failed, are an input too.
 */
module AgentFlags {
  import opened Wrappers

  /** The six settings the config file can supply. */
  datatype Settings = Settings(
    address: string,
    pollInterval: int,
    reportInterval: int,
    key: string,
    rateLimit: int,
    cryptoKey: string)

  /**
   * What reading the config file gave: a failure at one of three steps, the
   * JSON document `null` (which decodes without error into a nil pointer), or
   * its settings.
   */
  datatype ConfigFile = OpenFailed | ReadFailed | UnmarshalFailed | NullDocument | Loaded(settings: Settings)

  /** The error `parseConfig` returns. */
  datatype ConfigError = OpenError | ReadError | UnmarshalError

  /** The flag names, one per setting. */
  const AddressFlag := "a"
  const PollFlag := "p"
  const ReportFlag := "r"
  const KeyFlag := "k"
  const RateFlag := "l"
  const CryptoFlag := "crypto-key"

  /** A text setting takes the file's value iff its flag was not passed and the value is not empty. */
  function PickString(flag: string, passed: set<string>, current: string, fromFile: string): (r: string)
    ensures r == fromFile || r == current
    ensures r != current ==> flag !in passed && fromFile != ""
    ensures flag !in passed && fromFile != "" ==> r == fromFile
  {
    if flag !in passed && fromFile != "" then fromFile else current
  }

  /** A number setting takes the file's value iff its flag was not passed and the value is not zero. */
  function PickInt(flag: string, passed: set<string>, current: int, fromFile: int): (r: int)
    ensures r == fromFile || r == current
    ensures r != current ==> flag !in passed && fromFile != 0
    ensures flag !in passed && fromFile != 0 ==> r == fromFile
  {
    if flag !in passed && fromFile != 0 then fromFile else current
  }

  /** The field-by-field precedence of agent_flags.go:73-90. */
  function Merge(current: Settings, file: Settings, passed: set<string>): Settings
  {
    Settings(
      PickString(AddressFlag, passed, current.address, file.address),
      PickInt(PollFlag, passed, current.pollInterval, file.pollInterval),
      PickInt(ReportFlag, passed, current.reportInterval, file.reportInterval),
      PickString(KeyFlag, passed, current.key, file.key),
      PickInt(RateFlag, passed, current.rateLimit, file.rateLimit),
      PickString(CryptoFlag, passed, current.cryptoKey, file.cryptoKey))
  }

  /** A setting whose flag was passed is never changed by the file. */
  lemma MergeKeepsPassedFlags(current: Settings, file: Settings, passed: set<string>)
    ensures var r := Merge(current, file, passed);
      && (AddressFlag in passed ==> r.address == current.address)
      && (PollFlag in passed ==> r.pollInterval == current.pollInterval)
      && (ReportFlag in passed ==> r.reportInterval == current.reportInterval)
      && (KeyFlag in passed ==> r.key == current.key)
      && (RateFlag in passed ==> r.rateLimit == current.rateLimit)
      && (CryptoFlag in passed ==> r.cryptoKey == current.cryptoKey)
  {
  }

  /** An empty or zero value in the file never overrides a setting. */
  lemma MergeIgnoresEmpty(current: Settings, file: Settings, passed: set<string>)
    ensures var r := Merge(current, file, passed);
      && (file.address == "" ==> r.address == current.address)
      && (file.pollInterval == 0 ==> r.pollInterval == current.pollInterval)
      && (file.reportInterval == 0 ==> r.reportInterval == current.reportInterval)
      && (file.key == "" ==> r.key == current.key)
      && (file.rateLimit == 0 ==> r.rateLimit == current.rateLimit)
      && (file.cryptoKey == "" ==> r.cryptoKey == current.cryptoKey)
  {
  }

  /** Merging the same file twice is merging it once. */
  lemma MergeIdempotent(current: Settings, file: Settings, passed: set<string>)
    ensures Merge(Merge(current, file, passed), file, passed) == Merge(current, file, passed)
  {
  }

  /** With no flags passed, every non-empty value of the file wins. */
  lemma MergeWithoutFlags(current: Settings, file: Settings)
    requires file.address != "" && file.key != "" && file.cryptoKey != ""
    requires file.pollInterval != 0 && file.reportInterval != 0 && file.rateLimit != 0
    ensures Merge(current, file, {}) == file
  {
  }

  class AgentConfig {
    var address: string
    var key: string
    var cryptoKey: string
    /** The path of the config file. */
    var config: string
    var pollInterval: int
    var reportInterval: int
    var rateLimit: int

    /** The six settings the file may change. */
    function Current(): Settings
      reads this
    {
      Settings(address, pollInterval, reportInterval, key, rateLimit, cryptoKey)
    }

    /** The flag defaults of AgentParseFlags when no flag is given. */
    constructor (configPath: string)
      ensures Current() == Settings("localhost:8080", 2, 10, "", 1, "") && config == configPath
    {
      address := "localhost:8080";
      pollInterval := 2;
      reportInterval := 10;
      key := "";
      rateLimit := 1;
      cryptoKey := "";
      config := configPath;
    }

    /**
     * parseConfig: a failure to open, read or decode the file returns before any
     * field changes; otherwise each setting is merged; the path is never changed.
     * A `null` document leaves the decoded pointer nil, and the first field read
     * panics before anything is assigned: `crashed` reports that panic, which
     * nothing recovers.
     */
    method ParseConfig(file: ConfigFile, passed: set<string>) returns (err: Option<ConfigError>, crashed: bool)
      modifies this
      ensures config == old(config)
      ensures crashed <==> file == NullDocument
      ensures file == OpenFailed ==> err == Some(OpenError)
      ensures file == ReadFailed ==> err == Some(ReadError)
      ensures file == UnmarshalFailed ==> err == Some(UnmarshalError)
      ensures !file.Loaded? ==> Current() == old(Current())
      ensures file.Loaded? ==> err == None && Current() == Merge(old(Current()), file.settings, passed)
    {
      match file {
        case OpenFailed => return Some(OpenError), false;
        case ReadFailed => return Some(ReadError), false;
        case UnmarshalFailed => return Some(UnmarshalError), false;
        case NullDocument => return None, true;
        case Loaded(fc) =>
          ghost var target := Merge(Current(), fc, passed);
          if AddressFlag !in passed && fc.address != "" {
            address := fc.address;
          }
          if PollFlag !in passed && fc.pollInterval != 0 {
            pollInterval := fc.pollInterval;
          }
          if ReportFlag !in passed && fc.reportInterval != 0 {
            reportInterval := fc.reportInterval;
          }
          if KeyFlag !in passed && fc.key != "" {
            key := fc.key;
          }
          if RateFlag !in passed && fc.rateLimit != 0 {
            rateLimit := fc.rateLimit;
          }
          if CryptoFlag !in passed && fc.cryptoKey != "" {
            cryptoKey := fc.cryptoKey;
          }
          assert Current() == target;
          return None, false;
      }
    }

    /**
     * The config-file step of AgentParseFlags: runs only when a path is set, and
     * its error is dropped, so a failed read leaves the flag values in force;
     * a `null` document still crashes the agent.
     */
    method LoadConfigFile(file: ConfigFile, passed: set<string>) returns (crashed: bool)
      modifies this
      ensures config == old(config)
      ensures crashed <==> config != "" && file == NullDocument
      ensures Current() == if config != "" && file.Loaded? then Merge(old(Current()), file.settings, passed) else old(Current())
    {
      crashed := false;
      if config != "" {
        var err;
        err, crashed := ParseConfig(file, passed);
      }
    }
  }
}
