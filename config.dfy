/**
 * Server configuration (context_mcp/config.py): the checks a `ProjectConfig`
 * makes when it is built, and how `load_config` reads the environment.
 * The environment is a map; `Path.resolve()` and the filesystem's answer for
 * the resolved root are inputs.
 */
module Config {
  import opened Wrappers
  import opened Text

  // The `logging` level constants.
  const NOTSET: int := 0
  const DEBUG: int := 10
  const INFO: int := 20
  const WARNING: int := 30
  const ERROR: int := 40
  const CRITICAL: int := 50

  /** The five levels a configuration accepts. */
  const ValidLevels: set<int> := {DEBUG, INFO, WARNING, ERROR, CRITICAL}

  /** The upper-case names on the `logging` module whose value is an integer. */
  const LevelByName: map<string, int> := map[
    "CRITICAL" := CRITICAL, "FATAL" := CRITICAL, "ERROR" := ERROR, "WARNING" := WARNING,
    "WARN" := WARNING, "INFO" := INFO, "DEBUG" := DEBUG, "NOTSET" := NOTSET
  ]

  /** What the filesystem says about the root path. */
  datatype PathStatus = Missing | NotADirectory | Directory

  datatype ProjectConfig = ProjectConfig(rootPath: string, searchTimeout: int, logRetentionDays: int, logLevel: int)

  /** Each `ValueError` the configuration can raise. */
  datatype ConfigError =
    | RootDoesNotExist
    | RootNotADirectory
    | TimeoutNotPositive
    | RetentionBelowOne
    | LevelNotStandard
    | RootUnset
    | TimeoutNotInteger
    | LevelNameUnknown

  /** `ProjectConfig(...)` with `__post_init__`: the checks run in this order and the first failing one is raised. */
  function NewProjectConfig(rootPath: string, rootStatus: PathStatus, searchTimeout: int,
                            logRetentionDays: int, logLevel: int): (r: Result<ProjectConfig, ConfigError>)
    ensures r.Success? <==>
      rootStatus == Directory && searchTimeout > 0 && logRetentionDays >= 1 && logLevel in ValidLevels
    ensures r.Success? ==> r.value == ProjectConfig(rootPath, searchTimeout, logRetentionDays, logLevel)
  {
    if rootStatus.Missing? then Failure(RootDoesNotExist)
    else if rootStatus.NotADirectory? then Failure(RootNotADirectory)
    else if searchTimeout <= 0 then Failure(TimeoutNotPositive)
    else if logRetentionDays < 1 then Failure(RetentionBelowOne)
    else if logLevel !in ValidLevels then Failure(LevelNotStandard)
    else Success(ProjectConfig(rootPath, searchTimeout, logRetentionDays, logLevel))
  }

  /** Which error is raised: the root first, then the timeout, the retention and the level. */
  lemma NewProjectConfigErrors(rootPath: string, rootStatus: PathStatus, searchTimeout: int,
                               logRetentionDays: int, logLevel: int)
    ensures rootStatus == Missing ==>
      NewProjectConfig(rootPath, rootStatus, searchTimeout, logRetentionDays, logLevel) == Failure(RootDoesNotExist)
    ensures rootStatus == NotADirectory ==>
      NewProjectConfig(rootPath, rootStatus, searchTimeout, logRetentionDays, logLevel) == Failure(RootNotADirectory)
    ensures rootStatus == Directory && searchTimeout <= 0 ==>
      NewProjectConfig(rootPath, rootStatus, searchTimeout, logRetentionDays, logLevel) == Failure(TimeoutNotPositive)
    ensures rootStatus == Directory && searchTimeout > 0 && logRetentionDays < 1 ==>
      NewProjectConfig(rootPath, rootStatus, searchTimeout, logRetentionDays, logLevel) == Failure(RetentionBelowOne)
    ensures rootStatus == Directory && searchTimeout > 0 && logRetentionDays >= 1 && logLevel !in ValidLevels ==>
      NewProjectConfig(rootPath, rootStatus, searchTimeout, logRetentionDays, logLevel) == Failure(LevelNotStandard)
  {
  }

  /** `os.getenv(name, default)`. */
  function GetEnv(env: map<string, string>, name: string, default: string): string
  {
    if name in env then env[name] else default
  }

  /** `getattr(logging, name)` when it is an integer. */
  function LevelOf(name: string): Option<int>
  {
    if name in LevelByName then Some(LevelByName[name]) else None
  }

  /**
   * `load_config`: PROJECT_ROOT must be set and non-empty; SEARCH_TIMEOUT
   * defaults to "60" and must parse as `int()`; LOG_LEVEL defaults to
   * "WARNING" and is upper-cased; retention is always 7.
   */
  function LoadConfig(env: map<string, string>, resolve: string -> string, status: string -> PathStatus)
    : Result<ProjectConfig, ConfigError>
  {
    var rootStr := GetEnv(env, "PROJECT_ROOT", "");
    if rootStr == "" then Failure(RootUnset)
    else
      var rootPath := resolve(rootStr);
      var timeoutStr := GetEnv(env, "SEARCH_TIMEOUT", "60");
      match ParseInt(timeoutStr)
      case None => Failure(TimeoutNotInteger)
      case Some(searchTimeout) =>
        var logLevelStr := Upper(GetEnv(env, "LOG_LEVEL", "WARNING"));
        match LevelOf(logLevelStr)
        case None => Failure(LevelNameUnknown)
        case Some(logLevel) => NewProjectConfig(rootPath, status(rootPath), searchTimeout, 7, logLevel)
  }

  /** An unset or empty PROJECT_ROOT is refused before anything else is read. */
  lemma LoadConfigNeedsRoot(env: map<string, string>, resolve: string -> string, status: string -> PathStatus)
    requires "PROJECT_ROOT" !in env || env["PROJECT_ROOT"] == ""
    ensures LoadConfig(env, resolve, status) == Failure(RootUnset)
  {
  }

  /**
   * A loaded configuration always has the resolved root, which is a
   * directory, a positive timeout, retention 7 and one of the five levels.
   */
  lemma LoadConfigValid(env: map<string, string>, resolve: string -> string, status: string -> PathStatus)
    requires LoadConfig(env, resolve, status).Success?
    ensures var c := LoadConfig(env, resolve, status).value;
      "PROJECT_ROOT" in env && env["PROJECT_ROOT"] != ""
      && c.rootPath == resolve(env["PROJECT_ROOT"]) && status(c.rootPath) == Directory
      && c.searchTimeout > 0 && c.logRetentionDays == 7 && c.logLevel in ValidLevels
      && ParseInt(GetEnv(env, "SEARCH_TIMEOUT", "60")) == Some(c.searchTimeout)
      && LevelOf(Upper(GetEnv(env, "LOG_LEVEL", "WARNING"))) == Some(c.logLevel)
  {
  }

  /** A SEARCH_TIMEOUT that `int()` rejects is refused, once the root is set. */
  lemma LoadConfigBadTimeout(env: map<string, string>, resolve: string -> string, status: string -> PathStatus)
    requires "PROJECT_ROOT" in env && env["PROJECT_ROOT"] != ""
    requires "SEARCH_TIMEOUT" in env && ParseInt(env["SEARCH_TIMEOUT"]) == None
    ensures LoadConfig(env, resolve, status) == Failure(TimeoutNotInteger)
  {
  }

  /** "60" is read as 60. */
  lemma DefaultTimeoutParses()
    ensures ParseInt("60") == Some(60)
  {
    assert NatToString(6) == "6";
    assert NatToString(60) == NatToString(6) + [DigitChar(0)];
    assert NatToString(60) == "60";
    NatRoundTrip(60);
  }

  /**
   * With only PROJECT_ROOT set, to a directory, the configuration has the
   * defaults: timeout 60, retention 7, level WARNING.
   */
  lemma LoadConfigDefaults(root: string, resolve: string -> string, status: string -> PathStatus)
    requires root != "" && status(resolve(root)) == Directory
    ensures LoadConfig(map["PROJECT_ROOT" := root], resolve, status)
         == Success(ProjectConfig(resolve(root), 60, 7, WARNING))
  {
    var env := map["PROJECT_ROOT" := root];
    assert GetEnv(env, "PROJECT_ROOT", "") == root;
    assert GetEnv(env, "SEARCH_TIMEOUT", "60") == "60";
    assert GetEnv(env, "LOG_LEVEL", "WARNING") == "WARNING";
    DefaultTimeoutParses();
    DefaultLevel();
  }

  /** The default level name is WARNING. */
  lemma DefaultLevel()
    ensures LevelOf(Upper("WARNING")) == Some(WARNING)
  {
    assert Upper("WARNING") == "WARNING";
  }

  /**
   * A level name is accepted iff, upper-cased, it is one of the `logging`
   * names of the five standard levels: NOTSET names a level the
   * configuration then refuses.
   */
  lemma LevelNames(name: string)
    ensures LevelOf(name).Some? && LevelOf(name).value in ValidLevels
        <==> name in {"CRITICAL", "FATAL", "ERROR", "WARNING", "WARN", "INFO", "DEBUG"}
    ensures LevelOf("NOTSET") == Some(NOTSET) && NOTSET !in ValidLevels
  {
  }

  /** Lower-case level names are accepted: "debug" loads as DEBUG. */
  lemma LowerCaseLevel()
    ensures LevelOf(Upper("debug")) == Some(DEBUG)
  {
    assert Upper("debug") == "DEBUG";
  }

  /**
   * `upper()` maps dotless i and long s to ASCII letters: with a dotless i,
   * "info" still loads as INFO, and "notset" with a long s names NOTSET.
   */
  lemma NonAsciiLevel()
    ensures LevelOf(Upper([DotlessI] + "nfo")) == Some(INFO)
    ensures LevelOf(Upper("not" + [LongS] + "et")) == Some(NOTSET)
  {
    assert Upper([DotlessI] + "nfo") == "INFO";
    assert Upper("not" + [LongS] + "et") == "NOTSET";
  }
}
