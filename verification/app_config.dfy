/**
 The configuration of the scanner: `load_config` reads a dotenv-style file
 into the process environment and collects ten settings from it, and the
 `Config` class keeps the first loaded configuration as a process-wide
 singleton behind ten read-only properties. The dotenv parser is a
 parameter; it sees the file's text and the process environment, from
 which python-dotenv expands `${VAR}` references.
 */
module AppConfig {
  import opened Py

  /** The process environment. */
  type Env = map<string, string>

  /** `os.getenv(name, default)` */
  function Getenv(env: Env, name: string, default: string): string {
    if name in env then env[name] else default
  }

  /** `os.getenv(name, "False").lower() == "true"`: a flag is on exactly when
      the variable is set to "true" in some mixture of cases. */
  function Flag(env: Env, name: string): (on: bool)
    ensures on <==> name in env && IsTrueSpelling(env[name])
    ensures name !in env ==> !on
  {
    LowerIsTrueIff(Getenv(env, name, "False"));
    Lower(Getenv(env, name, "False")) == "true"
  }

  /** `os.getenv(name)`: `None` for an unset variable. */
  function PathSetting(env: Env, name: string): (r: Option<string>)
    ensures r.Some? <==> name in env
    ensures r.Some? ==> r.value == env[name]
  {
    if name in env then Some(env[name]) else None
  }

  /** The environment after `load_dotenv(stream=...)`: the file's variables
      are added, but a variable already set in the process keeps its
      value. */
  function LoadDotenv(env: Env, fromFile: Env): (r: Env)
    ensures r.Keys == env.Keys + fromFile.Keys
    ensures forall name :: name in env ==> r[name] == env[name]
    ensures forall name :: name in fromFile && name !in env ==> r[name] == fromFile[name]
  {
    fromFile + env
  }

  const DefaultOcrModel := "3"

  /** The dictionary `load_config` returns. */
  datatype ConfigValues = ConfigValues(
    debugMode: bool,
    enablePreprocessing: bool,
    saveProcessedImage: bool,
    enablePriceCount: bool,
    ocrModel: int,
    classifierModelPath: Option<string>,
    labelEncoderPath: Option<string>,
    geminiApiKeyPath: Option<string>,
    openaiApiKeyPath: Option<string>,
    googleCredentialsPath: Option<string>)

  /** The settings read from an environment; only `int()` of `OCR_MODEL`
      can fail. */
  function ReadSettings(env: Env): (r: Result<ConfigValues>)
    ensures r.Err? <==> ParseInt(Getenv(env, "OCR_MODEL", DefaultOcrModel)).Err?
    ensures r.Err? ==> r.error == ValueError
    ensures r.Ok? ==> Ok(r.value.ocrModel) == ParseInt(Getenv(env, "OCR_MODEL", DefaultOcrModel))
  {
    var ocrModel :- ParseInt(Getenv(env, "OCR_MODEL", DefaultOcrModel));
    Ok(Settings(env, ocrModel))
  }

  /** The dictionary literal of `load_config` once `OCR_MODEL` is read. */
  function Settings(env: Env, ocrModel: int): ConfigValues {
    ConfigValues(
      Flag(env, "DEBUG_MODE"),
      Flag(env, "ENABLE_PREPROCESSING"),
      Flag(env, "SAVE_PROCESSED_IMAGE"),
      Flag(env, "ENABLE_PRICE_COUNT"),
      ocrModel,
      PathSetting(env, "CLASSIFIER_MODEL_PATH"),
      PathSetting(env, "LABEL_ENCODER_PATH"),
      PathSetting(env, "GEMINI_API_KEY_PATH"),
      PathSetting(env, "OPENAI_API_KEY_PATH"),
      PathSetting(env, "GOOGLE_CREDENTIALS_PATH"))
  }

  /** `load_config(config_file)`. `parseDotenv` is the dotenv parser. A
      missing file raises `FileNotFoundError`; any other read failure
      propagates as it is, `UnicodeDecodeError` for bytes that do not
      decode included; an `OCR_MODEL` that `int()` refuses raises
      `ValueError`. */
  function LoadConfig(configFile: string, fs: FileSystem, env: Env,
                      parseDotenv: (string, Env) -> Env): (r: Result<ConfigValues>)
    ensures configFile !in fs ==> r == Err(FileNotFoundError)
    ensures configFile in fs && fs[configFile].Unreadable? ==> r == Err(OSError)
    ensures configFile in fs && fs[configFile].Undecodable? ==> r == Err(UnicodeDecodeError)
    ensures configFile in fs && fs[configFile].Readable? ==>
      r == ReadSettings(LoadDotenv(env, parseDotenv(fs[configFile].content, env)))
  {
    if configFile !in fs then Err(FileNotFoundError)
    else
      match fs[configFile]
      case Unreadable => Err(OSError)
      case Undecodable => Err(UnicodeDecodeError)
      case Readable(content) => ReadSettings(LoadDotenv(env, parseDotenv(content, env)))
  }

  /** An unset or non-"true" flag is off; an unset `OCR_MODEL` selects 3;
      an unset path is `None`. */
  lemma {:induction false} DefaultsWhenUnset(env: Env)
    requires "OCR_MODEL" !in env
    ensures ReadSettings(env).Ok? && ReadSettings(env).value.ocrModel == 3
    ensures "DEBUG_MODE" !in env ==> !ReadSettings(env).value.debugMode
    ensures "ENABLE_PREPROCESSING" !in env ==> !ReadSettings(env).value.enablePreprocessing
    ensures "SAVE_PROCESSED_IMAGE" !in env ==> !ReadSettings(env).value.saveProcessedImage
    ensures "ENABLE_PRICE_COUNT" !in env ==> !ReadSettings(env).value.enablePriceCount
    ensures "CLASSIFIER_MODEL_PATH" !in env ==> ReadSettings(env).value.classifierModelPath.None?
    ensures "LABEL_ENCODER_PATH" !in env ==> ReadSettings(env).value.labelEncoderPath.None?
    ensures "GEMINI_API_KEY_PATH" !in env ==> ReadSettings(env).value.geminiApiKeyPath.None?
    ensures "OPENAI_API_KEY_PATH" !in env ==> ReadSettings(env).value.openaiApiKeyPath.None?
    ensures "GOOGLE_CREDENTIALS_PATH" !in env ==> ReadSettings(env).value.googleCredentialsPath.None?
  {
    ParseIntOfString(3);
    assert IntToString(3) == DefaultOcrModel;
  }

  /** Any integer of at most `MaxStrDigits` digits written out in
      `OCR_MODEL` is read back as itself; a longer one makes loading raise
      `ValueError`. */
  lemma {:induction false} OcrModelRoundTrip(env: Env, n: int)
    requires "OCR_MODEL" in env && env["OCR_MODEL"] == IntToString(n)
    ensures |NatToDigits(Abs(n))| <= MaxStrDigits ==> ReadSettings(env).Ok? && ReadSettings(env).value.ocrModel == n
    ensures |NatToDigits(Abs(n))| > MaxStrDigits ==> ReadSettings(env) == Err(ValueError)
  {
    ParseIntOfString(n);
  }

  /** A variable already set in the process beats the same variable in the
      file. */
  lemma {:induction false} ProcessEnvironmentWins(env: Env, fromFile: Env, name: string)
    requires name in env
    ensures Flag(LoadDotenv(env, fromFile), name) == Flag(env, name)
    ensures PathSetting(LoadDotenv(env, fromFile), name) == PathSetting(env, name)
  {
  }

  // ---------------------------------------------------------------------
  // The singleton

  /** The class attributes `_instance` and `_config`. `HalfBuilt` is the
      state a failing first construction leaves: `_instance` is already set
      when `load_config` raises, and `_config` stays `None`. */
  datatype Singleton = NoInstance | HalfBuilt | Built(config: ConfigValues)

  /** What `Config(config_file)` does to the class, and whether it
      raised. */
  datatype Step = Step(state: Singleton, raised: Option<Error>)

  /** `Config.__new__(cls, config_file)` */
  function New(s: Singleton, configFile: string, fs: FileSystem, env: Env,
               parseDotenv: (string, Env) -> Env): (r: Step)
    ensures s != NoInstance ==> r == Step(s, None)
    ensures s == NoInstance ==> r.state != NoInstance
    ensures s == NoInstance ==> (r.raised.None? <==> LoadConfig(configFile, fs, env, parseDotenv).Ok?)
    ensures s == NoInstance && r.raised.None? ==> r.state == Built(LoadConfig(configFile, fs, env, parseDotenv).value)
    ensures s == NoInstance && r.raised.Some? ==>
      r.state == HalfBuilt && r.raised.value == LoadConfig(configFile, fs, env, parseDotenv).error
  {
    if s != NoInstance then Step(s, None)
    else
      match LoadConfig(configFile, fs, env, parseDotenv)
      case Ok(cfg) => Step(Built(cfg), None)
      case Err(e) => Step(HalfBuilt, Some(e))
  }

  /** The class after `Config(f)` for each `f` in turn, ignoring what each
      call raised. */
  function NewAll(s: Singleton, configFiles: seq<string>, fs: FileSystem, env: Env,
                  parseDotenv: (string, Env) -> Env): Singleton
    decreases |configFiles|
  {
    if |configFiles| == 0 then s
    else NewAll(New(s, configFiles[0], fs, env, parseDotenv).state, configFiles[1..], fs, env, parseDotenv)
  }

  /** Once an instance exists, constructing again changes nothing. */
  lemma {:induction false} LaterConstructionsIgnored(s: Singleton, configFiles: seq<string>, fs: FileSystem,
                                                     env: Env, parseDotenv: (string, Env) -> Env)
    requires s != NoInstance
    ensures NewAll(s, configFiles, fs, env, parseDotenv) == s
  {
    if |configFiles| > 0 {
      LaterConstructionsIgnored(s, configFiles[1..], fs, env, parseDotenv);
    }
  }

  /** The first file named wins: every later `Config(...)` keeps the first
      call's outcome, a broken half-built instance included. */
  lemma {:induction false} FirstConstructionWins(configFiles: seq<string>, fs: FileSystem, env: Env,
                                                 parseDotenv: (string, Env) -> Env)
    requires |configFiles| > 0
    ensures NewAll(NoInstance, configFiles, fs, env, parseDotenv)
         == New(NoInstance, configFiles[0], fs, env, parseDotenv).state
  {
    LaterConstructionsIgnored(New(NoInstance, configFiles[0], fs, env, parseDotenv).state,
                              configFiles[1..], fs, env, parseDotenv);
  }

  /** The ten properties of `Config`. */
  datatype Key =
    | DebugMode | EnablePreprocessing | SaveProcessedImage | EnablePriceCount
    | OcrModel
    | ClassifierModelPath | LabelEncoderPath | GeminiApiKeyPath | OpenaiApiKeyPath | GoogleCredentialsPath

  /** The variable (and dictionary key) behind each property. */
  function VariableOf(k: Key): string {
    match k
    case DebugMode => "DEBUG_MODE"
    case EnablePreprocessing => "ENABLE_PREPROCESSING"
    case SaveProcessedImage => "SAVE_PROCESSED_IMAGE"
    case EnablePriceCount => "ENABLE_PRICE_COUNT"
    case OcrModel => "OCR_MODEL"
    case ClassifierModelPath => "CLASSIFIER_MODEL_PATH"
    case LabelEncoderPath => "LABEL_ENCODER_PATH"
    case GeminiApiKeyPath => "GEMINI_API_KEY_PATH"
    case OpenaiApiKeyPath => "OPENAI_API_KEY_PATH"
    case GoogleCredentialsPath => "GOOGLE_CREDENTIALS_PATH"
  }

  predicate IsFlagKey(k: Key) {
    k == DebugMode || k == EnablePreprocessing || k == SaveProcessedImage || k == EnablePriceCount
  }

  /** What a property returns. */
  datatype Setting = FlagValue(on: bool) | ModelValue(n: int) | PathValue(path: Option<string>)

  /** `self._config[...]` for each property; with `_config` still `None`
      the subscript raises `TypeError`. */
  function Accessor(s: Singleton, k: Key): (r: Result<Setting>)
    ensures r.Ok? <==> s.Built?
    ensures r.Err? ==> r.error == TypeError
    ensures r.Ok? && IsFlagKey(k) ==> r.value.FlagValue?
    ensures r.Ok? && k == OcrModel ==> r == Ok(ModelValue(s.config.ocrModel))
    ensures r.Ok? && !IsFlagKey(k) && k != OcrModel ==> r.value.PathValue?
  {
    match s
    case Built(c) =>
      Ok(match k
         case DebugMode => FlagValue(c.debugMode)
         case EnablePreprocessing => FlagValue(c.enablePreprocessing)
         case SaveProcessedImage => FlagValue(c.saveProcessedImage)
         case EnablePriceCount => FlagValue(c.enablePriceCount)
         case OcrModel => ModelValue(c.ocrModel)
         case ClassifierModelPath => PathValue(c.classifierModelPath)
         case LabelEncoderPath => PathValue(c.labelEncoderPath)
         case GeminiApiKeyPath => PathValue(c.geminiApiKeyPath)
         case OpenaiApiKeyPath => PathValue(c.openaiApiKeyPath)
         case GoogleCredentialsPath => PathValue(c.googleCredentialsPath))
    case _ => Err(TypeError)
  }

  /** After a successful first construction every property reports its own
      variable from the loaded environment: a flag is on iff the variable
      spells "true", a path is the variable's value or `None`. */
  lemma {:induction false} AccessorsReportEnvironment(configFile: string, fs: FileSystem, env: Env,
                                                      parseDotenv: (string, Env) -> Env, k: Key)
    requires configFile in fs && fs[configFile].Readable?
    requires LoadConfig(configFile, fs, env, parseDotenv).Ok?
    ensures var loaded := LoadDotenv(env, parseDotenv(fs[configFile].content, env));
      ReportsEnvironment(loaded, Accessor(New(NoInstance, configFile, fs, env, parseDotenv).state, k), k)
  {
    var loaded := LoadDotenv(env, parseDotenv(fs[configFile].content, env));
    assert New(NoInstance, configFile, fs, env, parseDotenv).state == Built(ReadSettings(loaded).value);
    SettingsReportEnvironment(loaded, k);
  }

  /** `r` is what the environment `loaded` says about the property `k`. */
  predicate ReportsEnvironment(loaded: Env, r: Result<Setting>, k: Key) {
    && r.Ok?
    && (IsFlagKey(k) ==> r.value == FlagValue(VariableOf(k) in loaded && IsTrueSpelling(loaded[VariableOf(k)])))
    && (k == OcrModel ==> r.value.ModelValue? && ParseInt(Getenv(loaded, VariableOf(k), DefaultOcrModel)) == Ok(r.value.n))
    && (!IsFlagKey(k) && k != OcrModel ==>
          r.value == PathValue(if VariableOf(k) in loaded then Some(loaded[VariableOf(k)]) else None))
  }

  lemma {:induction false} SettingsReportEnvironment(loaded: Env, k: Key)
    requires ReadSettings(loaded).Ok?
    ensures ReportsEnvironment(loaded, Accessor(Built(ReadSettings(loaded).value), k), k)
  {
    var n := ReadSettings(loaded).value.ocrModel;
    assert ReadSettings(loaded).value == Settings(loaded, n);
    var r := Accessor(Built(Settings(loaded, n)), k);
    if IsFlagKey(k) {
      FlagReportsEnvironment(loaded, n, k);
      assert r.value == FlagValue(Flag(loaded, VariableOf(k)));
    } else if k == OcrModel {
    } else {
      PathReportsEnvironment(loaded, n, k);
    }
  }

  lemma {:induction false} FlagReportsEnvironment(loaded: Env, n: int, k: Key)
    requires IsFlagKey(k)
    ensures Accessor(Built(Settings(loaded, n)), k) == Ok(FlagValue(Flag(loaded, VariableOf(k))))
  {
    match k
    case DebugMode =>
    case EnablePreprocessing =>
    case SaveProcessedImage =>
    case EnablePriceCount =>
  }

  lemma {:induction false} PathReportsEnvironment(loaded: Env, n: int, k: Key)
    requires !IsFlagKey(k) && k != OcrModel
    ensures Accessor(Built(Settings(loaded, n)), k) == Ok(PathValue(PathSetting(loaded, VariableOf(k))))
  {
    match k
    case ClassifierModelPath =>
    case LabelEncoderPath =>
    case GeminiApiKeyPath =>
    case OpenaiApiKeyPath =>
    case GoogleCredentialsPath =>
  }

  /** After a failed first construction every property of every later
      instance raises `TypeError`. */
  lemma {:induction false} BrokenAfterFailedLoad(configFiles: seq<string>, fs: FileSystem, env: Env,
                              parseDotenv: (string, Env) -> Env, k: Key)
    requires |configFiles| > 0
    requires LoadConfig(configFiles[0], fs, env, parseDotenv).Err?
    ensures Accessor(NewAll(NoInstance, configFiles, fs, env, parseDotenv), k) == Err(TypeError)
  {
    FirstConstructionWins(configFiles, fs, env, parseDotenv);
  }

  const DefaultConfigFile := "config.txt"

  /** Importing the module builds the global instance from `config.txt`;
      a load failure makes the import itself raise. */
  function ImportConfig(fs: FileSystem, env: Env, parseDotenv: (string, Env) -> Env): (r: Step)
    ensures r.raised.None? <==> LoadConfig(DefaultConfigFile, fs, env, parseDotenv).Ok?
    ensures DefaultConfigFile !in fs ==> r.raised == Some(FileNotFoundError)
    ensures r.raised.None? ==> r.state.Built?
  {
    New(NoInstance, DefaultConfigFile, fs, env, parseDotenv)
  }
}
