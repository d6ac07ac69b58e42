// The driver's configuration check and the log level it chooses.

module RunValidation {
  import opened Wrappers
  import opened Text

  // ---------------------------------------------------------------------
  // The configuration file
  // ---------------------------------------------------------------------

  /** A value of the JSON configuration object: a string, or anything else
      (on which `.strip()` raises). */
  datatype Value = Str(s: string) | NonString

  type Config = map<string, Value>

  /** What opening the file and `json.load` gave. */
  datatype Loaded = Parsed(config: Config) | LoadFailed

  /** The file system as `os.path.isdir` and `os.path.isfile` see it. */
  datatype FileSystem = FileSystem(dirs: set<string>, files: set<string>)

  /** `bool(eval(s))` for the multiprocessing setting; `None` when `eval` raises. */
  type Evaluator = string -> Option<bool>

  /** `return config, config_success` with `config` never assigned. */
  datatype Raised = UnboundLocalError

  /** The keys every configuration needs. */
  const RequiredKeys: set<string> := {
    "run_name", "input_data_path", "output_data_path", "answer_db_file", "uid_mapping_file",
    "patid_mapping_file", "multiprocessing", "log_path", "log_level", "report_series"}

  /** The values `log_level` may take. */
  const LogLevels: set<string> := {"debug", "info", "warning", "error", "critical"}

  /** The key is present and holds a string that is not all whitespace. */
  predicate NonBlank(config: Config, key: string) {
    key in config && config[key].Str? && !IsBlank(config[key].s)
  }

  /** The key names an existing path. */
  predicate Exists(config: Config, key: string, existing: set<string>) {
    NonBlank(config, key) && config[key].s in existing
  }

  /** The multiprocessing block passes: a non-blank setting that evaluates,
      and a non-blank CPU count when it evaluates true. */
  predicate MultiprocessingOk(config: Config, truth: Evaluator) {
    && NonBlank(config, "multiprocessing")
    && truth(config["multiprocessing"].s).Some?
    && (truth(config["multiprocessing"].s) == Some(true) ==> NonBlank(config, "multiprocessing_cpus"))
  }

  predicate LevelOk(config: Config) {
    NonBlank(config, "log_level") && config["log_level"].s in LogLevels
  }

  /** The configurations `check_config` accepts: every block passes. */
  predicate Acceptable(config: Config, fs: FileSystem, truth: Evaluator) {
    && NonBlank(config, "run_name")
    && Exists(config, "input_data_path", fs.dirs)
    && NonBlank(config, "output_data_path")
    && Exists(config, "answer_db_file", fs.files)
    && Exists(config, "uid_mapping_file", fs.files)
    && Exists(config, "patid_mapping_file", fs.files)
    && MultiprocessingOk(config, truth)
    && NonBlank(config, "log_path")
    && LevelOk(config)
    && NonBlank(config, "report_series")
  }

  /** Stated as a whole: every required key is present with a non-blank
      string, the input directory and the three input files exist, the
      multiprocessing setting evaluates, a non-blank CPU count is there
      whenever it evaluates true, and the level is one of the five names. */
  lemma AcceptableMeaning(config: Config, fs: FileSystem, truth: Evaluator)
    ensures Acceptable(config, fs, truth) <==>
      && (forall k :: k in RequiredKeys ==> NonBlank(config, k))
      && config["input_data_path"].s in fs.dirs
      && config["answer_db_file"].s in fs.files
      && config["uid_mapping_file"].s in fs.files
      && config["patid_mapping_file"].s in fs.files
      && truth(config["multiprocessing"].s).Some?
      && (truth(config["multiprocessing"].s) == Some(true) ==> NonBlank(config, "multiprocessing_cpus"))
      && config["log_level"].s in LogLevels
  {
    RequiredKeysListed(config);
  }

  /** The ten required keys, one by one. */
  lemma RequiredKeysListed(config: Config)
    ensures (forall k :: k in RequiredKeys ==> NonBlank(config, k)) <==>
      && NonBlank(config, "run_name") && NonBlank(config, "input_data_path")
      && NonBlank(config, "output_data_path") && NonBlank(config, "answer_db_file")
      && NonBlank(config, "uid_mapping_file") && NonBlank(config, "patid_mapping_file")
      && NonBlank(config, "multiprocessing") && NonBlank(config, "log_path")
      && NonBlank(config, "log_level") && NonBlank(config, "report_series")
  {
  }

  // ---------------------------------------------------------------------
  // check_config
  // ---------------------------------------------------------------------

  /** One `if key in config: if config[key].strip() == ''` block; `raised`
      when the value is not a string. */
  method CheckKey(config: Config, key: string) returns (ok: bool, raised: bool)
    ensures raised <==> key in config && config[key].NonString?
    ensures ok <==> NonBlank(config, key)
  {
    ok, raised := true, false;
    if key in config {
      match config[key]
      case Str(s) =>
        if Strip(s) == "" {
          ok := false;
        }
      case NonString =>
        ok, raised := false, true;
    } else {
      ok := false;
    }
  }

  /** A block that also asks `os.path.isdir` or `os.path.isfile`. */
  method CheckPath(config: Config, key: string, existing: set<string>) returns (ok: bool, raised: bool)
    ensures raised <==> key in config && config[key].NonString?
    ensures !raised ==> (ok <==> Exists(config, key, existing))
  {
    ok, raised := CheckKey(config, key);
    if !raised && key in config && config[key].s !in existing {
      ok := false;
    }
  }

  /** The multiprocessing block, with its nested CPU-count block. */
  method CheckMultiprocessing(config: Config, truth: Evaluator) returns (ok: bool, raised: bool)
    ensures raised ==> !MultiprocessingOk(config, truth)
    ensures !raised ==> (ok <==> MultiprocessingOk(config, truth))
  {
    ok, raised := CheckKey(config, "multiprocessing");
    if raised || "multiprocessing" !in config {
      return;
    }
    match truth(config["multiprocessing"].s)
    case None =>
      return false, true;
    case Some(true) =>
      var cpusOk, cpusRaised := CheckKey(config, "multiprocessing_cpus");
      ok, raised := ok && cpusOk, cpusRaised;
    case Some(false) =>
  }

  /** The log_level block. */
  method CheckLevel(config: Config) returns (ok: bool, raised: bool)
    ensures raised <==> "log_level" in config && config["log_level"].NonString?
    ensures !raised ==> (ok <==> LevelOk(config))
  {
    ok, raised := CheckKey(config, "log_level");
    if !raised && "log_level" in config && config["log_level"].s !in LogLevels {
      ok := false;
    }
  }

  /** The checks on a loaded configuration, in file order. Each check that
      fails clears `configSuccess` and the next check still runs; an
      exception ends the checks with `false`. */
  method CheckLoaded(config: Config, fs: FileSystem, truth: Evaluator) returns (configSuccess: bool)
    ensures configSuccess == Acceptable(config, fs, truth)
  {
    configSuccess := true;
    var ok, raised := CheckKey(config, "run_name");
    if raised { return false; }
    if !ok { configSuccess := false; }

    ok, raised := CheckPath(config, "input_data_path", fs.dirs);
    if raised { return false; }
    if !ok { configSuccess := false; }

    ok, raised := CheckKey(config, "output_data_path");
    if raised { return false; }
    if !ok { configSuccess := false; }

    ok, raised := CheckPath(config, "answer_db_file", fs.files);
    if raised { return false; }
    if !ok { configSuccess := false; }

    ok, raised := CheckPath(config, "uid_mapping_file", fs.files);
    if raised { return false; }
    if !ok { configSuccess := false; }

    ok, raised := CheckPath(config, "patid_mapping_file", fs.files);
    if raised { return false; }
    if !ok { configSuccess := false; }

    ok, raised := CheckMultiprocessing(config, truth);
    if raised { return false; }
    if !ok { configSuccess := false; }

    ok, raised := CheckKey(config, "log_path");
    if raised { return false; }
    if !ok { configSuccess := false; }

    ok, raised := CheckLevel(config);
    if raised { return false; }
    if !ok { configSuccess := false; }

    ok, raised := CheckKey(config, "report_series");
    if raised { return false; }
    if !ok { configSuccess := false; }
  }

  /** `check_config` as written: a file that cannot be opened or decoded
      leaves `config` unbound, so the `return` after the handler raises. */
  method CheckConfig(loaded: Loaded, fs: FileSystem, truth: Evaluator) returns (r: Result<(Config, bool), Raised>)
    ensures loaded.LoadFailed? ==> r == Err(UnboundLocalError)
    ensures loaded.Parsed? ==> r == Ok((loaded.config, Acceptable(loaded.config, fs, truth)))
  {
    if loaded.LoadFailed? {
      return Err(UnboundLocalError);
    }
    var config := loaded.config;
    var configSuccess := CheckLoaded(config, fs, truth);
    return Ok((config, configSuccess));
  }

  /** `check_config` as intended: an unreadable file is reported as a failed
      check, with no configuration. */
  method CheckConfigReported(loaded: Loaded, fs: FileSystem, truth: Evaluator) returns (config: Option<Config>, configSuccess: bool)
    ensures configSuccess <==> loaded.Parsed? && Acceptable(loaded.config, fs, truth)
    ensures config == if loaded.Parsed? then Some(loaded.config) else None
  {
    if loaded.LoadFailed? {
      return None, false;
    }
    configSuccess := CheckLoaded(loaded.config, fs, truth);
    config := Some(loaded.config);
  }

  /** The CPU count matters only when multiprocessing evaluates true: with it
      false, removing or changing the entry changes nothing. */
  lemma CpusOnlyWithMultiprocessing(config: Config, fs: FileSystem, truth: Evaluator, v: Value)
    requires "multiprocessing" in config && config["multiprocessing"].Str?
    requires truth(config["multiprocessing"].s) == Some(false)
    ensures Acceptable(config["multiprocessing_cpus" := v], fs, truth) == Acceptable(config, fs, truth)
    ensures Acceptable(config - {"multiprocessing_cpus"}, fs, truth) == Acceptable(config, fs, truth)
  {
    var changed, removed := config["multiprocessing_cpus" := v], config - {"multiprocessing_cpus"};
    assert "multiprocessing_cpus" !in RequiredKeys;
    assert forall k :: k in RequiredKeys ==> (NonBlank(changed, k) <==> NonBlank(config, k));
    assert forall k :: k in RequiredKeys ==> (NonBlank(removed, k) <==> NonBlank(config, k));
  }

  // ---------------------------------------------------------------------
  // initialize_logging: the level mapping
  // ---------------------------------------------------------------------

  /** The `logging` levels. */
  datatype Level = DEBUG | INFO | WARNING | ERROR | CRITICAL

  /** Their numeric values in `logging`. */
  function Severity(l: Level): nat {
    match l
    case DEBUG => 10
    case INFO => 20
    case WARNING => 30
    case ERROR => 40
    case CRITICAL => 50
  }

  /** The five names and the level each names. */
  const LevelNames: map<string, Level> :=
    map["debug" := DEBUG, "info" := INFO, "warning" := WARNING, "error" := ERROR, "critical" := CRITICAL]

  /** The `set_level` chain of `initialize_logging`. */
  method SetLevel(logLevel: string) returns (setLevel: Level)
    ensures logLevel in LevelNames ==> setLevel == LevelNames[logLevel]
    ensures logLevel !in LevelNames ==> setLevel == INFO
  {
    setLevel := INFO;
    if logLevel == "debug" {
      setLevel := DEBUG;
    } else if logLevel == "info" {
      setLevel := INFO;
    } else if logLevel == "warning" {
      setLevel := WARNING;
    } else if logLevel == "error" {
      setLevel := ERROR;
    } else if logLevel == "critical" {
      setLevel := CRITICAL;
    }
  }

  /** The names the check accepts are exactly the names the mapping knows,
      distinct names give distinct levels, so an accepted configuration
      never falls back to the default. */
  lemma LevelsAgree(config: Config, fs: FileSystem, truth: Evaluator)
    ensures LevelNames.Keys == LogLevels
    ensures forall a, b :: a in LevelNames && b in LevelNames && a != b ==> Severity(LevelNames[a]) != Severity(LevelNames[b])
    ensures Acceptable(config, fs, truth) ==> config["log_level"].s in LevelNames
  {
  }
}
