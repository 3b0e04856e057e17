/**
 * Loading the runtime configuration: a YAML document, already parsed,
 * is checked section by section and combined with the defaults.
 */
module Config {
  import opened Wrappers
  import opened Text
  import opened Values
  import Paths

  datatype InputConfig = InputConfig(taskDir: Option<string>, promptFile: Option<string>)
  datatype ModelConfig = ModelConfig(name: string, temperature: Double, apiBase: string, apiKeyEnv: string)
  datatype GraphConfig = GraphConfig(enableDiagram: bool)
  datatype AppConfig = AppConfig(input: InputConfig, model: ModelConfig, graph: GraphConfig)

  const DefaultModelName: string := "anthropic/claude-4.5-sonnet"
  const DefaultApiKeyEnv: string := "OPENAI_API_KEY"
  const FallbackApiBase: string := "https://openrouter.ai/api/v1"
  const BaseUrlVariable: string := "OPENAI_BASE_URL"

  /** The records' own defaults; the record's `api_base` default is empty. */
  const DefaultInput: InputConfig := InputConfig(None, None)
  const DefaultModel: ModelConfig := ModelConfig(DefaultModelName, Finite(0.0), "", DefaultApiKeyEnv)
  const DefaultGraph: GraphConfig := GraphConfig(false)
  const DefaultApp: AppConfig := AppConfig(DefaultInput, DefaultModel, DefaultGraph)

  /** The configuration file as the loader finds it. */
  datatype ConfigSource =
    | Missing
    | Unparsable(reason: string)
    | Parsed(document: Value)

  /** What made a parsed document unacceptable; `what` is the dotted key. */
  datatype Problem =
    | RootNotMapping
    | SectionNotMapping(section: string)
    | NotString(what: string)
    | BlankString(what: string)
    | NotNumeric(what: string)
    | NotBoolean(what: string)

  /** `FloatOverflow` is the `OverflowError` of `float()` on a temperature too large for a double. */
  datatype ConfigError =
    | FileNotFound(path: string)
    | YamlError(reason: string)
    | Invalid(problem: Problem)
    | FloatOverflow

  /** The dotted key a problem is about, when it names one. */
  function Subject(p: Problem): Option<string> {
    match p
    case RootNotMapping => None
    case SectionNotMapping(k) => Some(k)
    case NotString(w) => Some(w)
    case BlankString(w) => Some(w)
    case NotNumeric(w) => Some(w)
    case NotBoolean(w) => Some(w)
  }

  /**
   * The text the loader raises for each error: a rejected document's
   * message begins "Invalid config" and quotes the key at fault, a missing
   * file's names the path, a YAML error is the parser's own text.
   */
  function Message(e: ConfigError): (r: string)
    ensures e.Invalid? ==> "Invalid config" <= r
    ensures e.Invalid? && e.problem.SectionNotMapping? ==>
              "Invalid config format: '" + e.problem.section + "'" <= r
    ensures e.Invalid? && !e.problem.RootNotMapping? && !e.problem.SectionNotMapping? ==>
              "Invalid config value: '" + Subject(e.problem).value + "' must be " <= r
    ensures e.FileNotFound? ==> "Config file not found: " + Paths.Str(Paths.Parse(e.path)) <= r
    ensures e.YamlError? ==> r == e.reason
    ensures e.FloatOverflow? ==> r == "int too large to convert to float"
  {
    match e
    case FloatOverflow => "int too large to convert to float"
    case FileNotFound(path) => "Config file not found: " + Paths.Str(Paths.Parse(path)) + ". Please create config.yaml."
    case YamlError(reason) => reason
    case Invalid(RootNotMapping) => "Invalid config format: root must be a YAML mapping."
    case Invalid(SectionNotMapping(k)) => "Invalid config format: '" + k + "' must be a mapping."
    case Invalid(NotString(w)) => "Invalid config value: '" + w + "' must be string."
    case Invalid(BlankString(w)) => "Invalid config value: '" + w + "' must be non-empty string."
    case Invalid(NotNumeric(w)) => "Invalid config value: '" + w + "' must be numeric."
    case Invalid(NotBoolean(w)) => "Invalid config value: '" + w + "' must be boolean."
  }

  /** `m.get(k, d)`. */
  function Get(m: map<string, Value>, k: string, d: Value): Value {
    if k in m then m[k] else d
  }

  /** `s.strip()` is non-empty: some character is not whitespace (see `NonBlankIffStripped`). */
  predicate NonBlank(s: string) {
    !AllSpace(s)
  }

  lemma {:induction false} NonBlankIffStripped(s: string)
    ensures NonBlank(s) <==> Strip(s) != []
  {
    BlankIffAllSpace(s);
  }

  /** A section of the root: missing or `null` is an empty mapping; anything else must be a mapping. */
  function Section(raw: map<string, Value>, key: string): (r: Result<map<string, Value>, ConfigError>)
    ensures r.Ok? <==> (Get(raw, key, Null).Null? || Get(raw, key, Null).Mapping?)
    ensures r.Err? ==> r.error.Invalid?
  {
    var v := Get(raw, key, Mapping(map[]));
    if v.Null? then Ok(map[])
    else if v.Mapping? then Ok(v.entries)
    else Err(Invalid(SectionNotMapping(key)))
  }

  /** An optional string value: missing or `null` is `None`. */
  function OptionalStr(m: map<string, Value>, key: string, what: string): (r: Result<Option<string>, ConfigError>)
    ensures r.Ok? <==> (Get(m, key, Null).Null? || Get(m, key, Null).Str?)
    ensures r.Ok? && r.value.Some? ==> Get(m, key, Null) == Str(r.value.value)
    ensures r.Err? ==> r.error.Invalid?
  {
    var v := Get(m, key, Null);
    if v.Null? then Ok(None)
    else if v.Str? then Ok(Some(v.s))
    else Err(Invalid(NotString(what)))
  }

  /** A required string with a default: it must contain a non-whitespace character. */
  function RequiredStr(m: map<string, Value>, key: string, default: string, what: string): (r: Result<string, ConfigError>)
    ensures r.Ok? ==> NonBlank(r.value) && Get(m, key, Str(default)) == Str(r.value)
    ensures r.Err? <==> !(Get(m, key, Str(default)).Str? && NonBlank(Get(m, key, Str(default)).s))
    ensures r.Err? ==> r.error.Invalid?
  {
    var v := Get(m, key, Str(default));
    if !v.Str? || !NonBlank(v.s) then Err(Invalid(BlankString(what)))
    else Ok(v.s)
  }

  function LoadInput(raw: map<string, Value>): (r: Result<InputConfig, ConfigError>)
    ensures r.Err? ==> r.error.Invalid?
  {
    match Section(raw, "input")
    case Err(e) => Err(e)
    case Ok(m) =>
      match OptionalStr(m, "task_dir", "input.task_dir")
      case Err(e) => Err(e)
      case Ok(taskDir) =>
        match OptionalStr(m, "prompt_file", "input.prompt_file")
        case Err(e) => Err(e)
        case Ok(promptFile) => Ok(InputConfig(taskDir, promptFile))
  }

  /** The `api_base` used when the document gives none: the environment's, else the fixed one. */
  function DefaultApiBase(env: map<string, string>): string {
    if BaseUrlVariable in env then env[BaseUrlVariable] else FallbackApiBase
  }

  /** A number as `isinstance(v, (int, float))` sees it; Python's `bool` is an `int`. */
  predicate Numeric(v: Value) {
    IsIntInstance(v) || v.Float?
  }

  /** `temperature`: it must be numeric, and is kept as given until the configuration is built. */
  function Temperature(m: map<string, Value>): (r: Result<Value, ConfigError>)
    ensures r.Ok? <==> Numeric(Get(m, "temperature", Float(Finite(0.0))))
    ensures r.Ok? ==> r.value == Get(m, "temperature", Float(Finite(0.0)))
    ensures r.Err? ==> r.error.Invalid?
  {
    var v := Get(m, "temperature", Float(Finite(0.0)));
    if !Numeric(v) then Err(Invalid(NotNumeric("model.temperature")))
    else Ok(v)
  }

  /** The model section once checked: the temperature is not yet converted to a float. */
  datatype CheckedModel = CheckedModel(name: string, temperature: Value, apiBase: string, apiKeyEnv: string)

  function LoadModel(raw: map<string, Value>, env: map<string, string>): (r: Result<CheckedModel, ConfigError>)
    ensures r.Ok? ==> NonBlank(r.value.name) && NonBlank(r.value.apiBase) && NonBlank(r.value.apiKeyEnv)
    ensures r.Ok? ==> Numeric(r.value.temperature)
    ensures r.Err? ==> r.error.Invalid?
  {
    match Section(raw, "model")
    case Err(e) => Err(e)
    case Ok(m) =>
      match RequiredStr(m, "name", DefaultModelName, "model.name")
      case Err(e) => Err(e)
      case Ok(name) =>
        match Temperature(m)
        case Err(e) => Err(e)
        case Ok(t) =>
          match RequiredStr(m, "api_base", DefaultApiBase(env), "model.api_base")
          case Err(e) => Err(e)
          case Ok(apiBase) =>
            match RequiredStr(m, "api_key_env", DefaultApiKeyEnv, "model.api_key_env")
            case Err(e) => Err(e)
            case Ok(keyEnv) => Ok(CheckedModel(name, t, apiBase, keyEnv))
  }

  function LoadGraph(raw: map<string, Value>): (r: Result<GraphConfig, ConfigError>)
    ensures r.Err? ==> r.error.Invalid?
  {
    match Section(raw, "graph")
    case Err(e) => Err(e)
    case Ok(m) =>
      var v := Get(m, "enable_diagram", Bool(false));
      if !v.Bool? then Err(Invalid(NotBoolean("graph.enable_diagram")))
      else Ok(GraphConfig(v.b))
  }

  /** A configuration `load_config` can return: the three model strings are non-blank. */
  predicate ValidConfig(c: AppConfig) {
    NonBlank(c.model.name) && NonBlank(c.model.apiBase) && NonBlank(c.model.apiKeyEnv)
  }

  /** The root mapping: an empty or false document counts as an empty mapping. */
  function Root(doc: Value): Value {
    Or(doc, Mapping(map[]))
  }

  /**
   * `load_config(path)` for a file found as `source`, under the environment
   * `env`. The temperature goes through `float()` last, when the
   * configuration is built, so an overflow is reported only for a document
   * that passed every other check.
   */
  function LoadConfig(configPath: string, source: ConfigSource, env: map<string, string>): (r: Result<AppConfig, ConfigError>)
    ensures r.Ok? ==> ValidConfig(r.value)
    ensures source.Missing? <==> r.Err? && r.error.FileNotFound?
    ensures source.Unparsable? <==> r.Err? && r.error.YamlError?
    ensures r.Err? && r.error.FloatOverflow? ==>
              source.Parsed? && Root(source.document).Mapping? &&
              LoadInput(Root(source.document).entries).Ok? &&
              LoadModel(Root(source.document).entries, env).Ok? &&
              LoadGraph(Root(source.document).entries).Ok?
  {
    match source
    case Missing =>
      Err(FileNotFound(configPath))
    case Unparsable(reason) => Err(YamlError(reason))
    case Parsed(doc) =>
      var raw := Root(doc);
      if !raw.Mapping? then Err(Invalid(RootNotMapping))
      else
        match LoadInput(raw.entries)
        case Err(e) => Err(e)
        case Ok(input) =>
          match LoadModel(raw.entries, env)
          case Err(e) => Err(e)
          case Ok(model) =>
            match LoadGraph(raw.entries)
            case Err(e) => Err(e)
            case Ok(graph) =>
              match ToFloat(model.temperature)
              case None => Err(FloatOverflow)
              case Some(t) => Ok(AppConfig(input, ModelConfig(model.name, t, model.apiBase, model.apiKeyEnv), graph))
  }

  /** A string whose first character is not whitespace is non-blank. */
  lemma {:induction false} NonBlankByFirst(s: string)
    requires |s| > 0 && !IsSpace(s[0])
    ensures NonBlank(s)
  {
  }

  lemma {:induction false} DefaultNameNonBlank()
    ensures NonBlank(DefaultModelName)
  {
    assert DefaultModelName[0] == 'a';
    NonBlankByFirst(DefaultModelName);
  }

  lemma {:induction false} DefaultKeyEnvNonBlank()
    ensures NonBlank(DefaultApiKeyEnv)
  {
    assert DefaultApiKeyEnv[0] == 'O';
    NonBlankByFirst(DefaultApiKeyEnv);
  }

  lemma {:induction false} FallbackBaseNonBlank()
    ensures NonBlank(FallbackApiBase)
  {
    assert FallbackApiBase[0] == 'h';
    NonBlankByFirst(FallbackApiBase);
  }

  /** The root of a non-empty mapping document is that mapping. */
  lemma {:induction false} RootOfMapping(entries: map<string, Value>, key: string)
    requires key in entries
    ensures Root(Mapping(entries)) == Mapping(entries)
  {
    assert Truthy(Mapping(entries)) by { assert entries != map[]; }
  }

  /** The root of a falsy document is the empty mapping. */
  lemma {:induction false} RootOfFalsy(doc: Value)
    requires !Truthy(doc)
    ensures Root(doc) == Mapping(map[])
  {
  }

  /**
   * An empty (or false, zero, `null`) document gives the defaults, with
   * `api_base` from the environment, when that one is usable.
   */
  lemma {:induction false} EmptyDocumentDefaults(configPath: string, doc: Value, env: map<string, string>)
    requires !Truthy(doc)
    requires BaseUrlVariable in env ==> NonBlank(env[BaseUrlVariable])
    ensures LoadConfig(configPath, Parsed(doc), env) ==
            Ok(AppConfig(DefaultInput, DefaultModel.(apiBase := DefaultApiBase(env)), DefaultGraph))
  {
    var e: map<string, Value> := map[];
    RootOfFalsy(doc);
    assert LoadInput(e) == Ok(DefaultInput) by {
      assert Section(e, "input") == Ok(e);
      assert OptionalStr(e, "task_dir", "input.task_dir") == Ok(None);
      assert OptionalStr(e, "prompt_file", "input.prompt_file") == Ok(None);
    }
    assert LoadModel(e, env) == Ok(CheckedModel(DefaultModelName, Float(Finite(0.0)), DefaultApiBase(env), DefaultApiKeyEnv)) by {
      assert Section(e, "model") == Ok(e);
      DefaultNameNonBlank();
      assert RequiredStr(e, "name", DefaultModelName, "model.name") == Ok(DefaultModelName);
      assert Temperature(e) == Ok(Float(Finite(0.0)));
      if BaseUrlVariable !in env { FallbackBaseNonBlank(); }
      assert RequiredStr(e, "api_base", DefaultApiBase(env), "model.api_base") == Ok(DefaultApiBase(env));
      DefaultKeyEnvNonBlank();
      assert RequiredStr(e, "api_key_env", DefaultApiKeyEnv, "model.api_key_env") == Ok(DefaultApiKeyEnv);
    }
    assert LoadGraph(e) == Ok(DefaultGraph) by {
      assert Section(e, "graph") == Ok(e);
    }
  }

  /**
   * A set but blank `OPENAI_BASE_URL` is not a usable default: a document
   * without `model.api_base` is then rejected.
   */
  lemma {:induction false} BlankBaseUrlRejected(configPath: string, doc: Value, env: map<string, string>)
    requires !Truthy(doc)
    requires BaseUrlVariable in env && !NonBlank(env[BaseUrlVariable])
    ensures LoadConfig(configPath, Parsed(doc), env) ==
            Err(Invalid(BlankString("model.api_base")))
  {
    var e: map<string, Value> := map[];
    RootOfFalsy(doc);
    assert LoadInput(e) == Ok(DefaultInput) by {
      assert Section(e, "input") == Ok(e);
      assert OptionalStr(e, "task_dir", "input.task_dir") == Ok(None);
      assert OptionalStr(e, "prompt_file", "input.prompt_file") == Ok(None);
    }
    assert LoadModel(e, env) == Err(Invalid(BlankString("model.api_base"))) by {
      assert Section(e, "model") == Ok(e);
      DefaultNameNonBlank();
      assert RequiredStr(e, "name", DefaultModelName, "model.name") == Ok(DefaultModelName);
      assert Temperature(e) == Ok(Float(Finite(0.0)));
      assert RequiredStr(e, "api_base", DefaultApiBase(env), "model.api_base") == Err(Invalid(BlankString("model.api_base")));
    }
  }

  /** A document that is a list, a string, a number or `true` is rejected. */
  lemma {:induction false} NonMappingRootRejected(configPath: string, doc: Value, env: map<string, string>)
    requires Truthy(doc) && !doc.Mapping?
    ensures LoadConfig(configPath, Parsed(doc), env) ==
            Err(Invalid(RootNotMapping))
  {
    assert Root(doc) == doc;
  }

  /** The three sections that the loader checks. */
  predicate KnownSection(key: string) {
    key == "input" || key == "model" || key == "graph"
  }

  /** Each part of the configuration depends on the root only through its section. */
  lemma {:induction false} SectionsDecide(configPath: string, a: map<string, Value>, b: map<string, Value>, env: map<string, string>)
    requires Section(a, "input") == Section(b, "input")
    requires Section(a, "model") == Section(b, "model")
    requires Section(a, "graph") == Section(b, "graph")
    requires a != map[] && b != map[]
    ensures LoadConfig(configPath, Parsed(Mapping(a)), env) == LoadConfig(configPath, Parsed(Mapping(b)), env)
  {
    assert Root(Mapping(a)) == Mapping(a) && Root(Mapping(b)) == Mapping(b);
    assert LoadInput(a) == LoadInput(b);
    assert LoadModel(a, env) == LoadModel(b, env);
    assert LoadGraph(a) == LoadGraph(b);
  }

  /** A section written as `null` is read as an empty mapping. */
  lemma {:induction false} NullSectionIsEmpty(configPath: string, entries: map<string, Value>, key: string, env: map<string, string>)
    requires KnownSection(key)
    ensures LoadConfig(configPath, Parsed(Mapping(entries[key := Null])), env) ==
            LoadConfig(configPath, Parsed(Mapping(entries[key := Mapping(map[])])), env)
  {
    var a, b := entries[key := Null], entries[key := Mapping(map[])];
    assert key in a && key in b;
    forall k | KnownSection(k) ensures Section(a, k) == Section(b, k) {
      if k == key {
        assert Section(a, k) == Ok(map[]);
        assert Section(b, k) == Ok(map[]);
      } else {
        assert Get(a, k, Mapping(map[])) == Get(b, k, Mapping(map[]));
      }
    }
    SectionsDecide(configPath, a, b, env);
  }

  /** Any section other than a mapping or `null` is rejected, and `input` is checked first. */
  lemma {:induction false} NonMappingSectionRejected(configPath: string, entries: map<string, Value>, env: map<string, string>)
    requires "input" in entries && !entries["input"].Null? && !entries["input"].Mapping?
    ensures LoadConfig(configPath, Parsed(Mapping(entries)), env) ==
            Err(Invalid(SectionNotMapping("input")))
  {
    RootOfMapping(entries, "input");
    assert Section(entries, "input") == Err(Invalid(SectionNotMapping("input")));
    assert LoadInput(entries) == Err(Invalid(SectionNotMapping("input")));
  }

  /** `temperature: true` passes the numeric check, as Python's `bool` is an `int`, and converts to 1.0. */
  lemma {:induction false} BoolTemperatureAccepted(m: map<string, Value>)
    requires "temperature" in m && m["temperature"] == Bool(true)
    ensures Temperature(m) == Ok(Bool(true))
    ensures ToFloat(Temperature(m).value) == Some(Finite(1.0))
  {
  }

  /**
   * An integer temperature too large for a double passes the numeric check
   * and then makes the whole load fail with the overflow.
   */
  lemma {:induction false} HugeTemperatureOverflows(configPath: string, model: map<string, Value>, i: int, env: map<string, string>)
    requires i >= FloatOverflowBound
    requires "temperature" in model && model["temperature"] == Int(i)
    requires BaseUrlVariable in env ==> NonBlank(env[BaseUrlVariable])
    requires forall k | k in model :: k == "temperature"
    ensures LoadConfig(configPath, Parsed(Mapping(map["model" := Mapping(model)])), env) == Err(FloatOverflow)
  {
    var raw: map<string, Value> := map["model" := Mapping(model)];
    RootOfMapping(raw, "model");
    assert LoadInput(raw) == Ok(DefaultInput) by {
      assert Section(raw, "input") == Ok(map[]);
      assert OptionalStr(map[], "task_dir", "input.task_dir") == Ok(None);
      assert OptionalStr(map[], "prompt_file", "input.prompt_file") == Ok(None);
    }
    assert LoadModel(raw, env) == Ok(CheckedModel(DefaultModelName, Int(i), DefaultApiBase(env), DefaultApiKeyEnv)) by {
      assert Section(raw, "model") == Ok(model);
      assert "name" !in model && "api_base" !in model && "api_key_env" !in model;
      DefaultNameNonBlank();
      assert RequiredStr(model, "name", DefaultModelName, "model.name") == Ok(DefaultModelName);
      assert Temperature(model) == Ok(Int(i));
      if BaseUrlVariable !in env { FallbackBaseNonBlank(); }
      assert RequiredStr(model, "api_base", DefaultApiBase(env), "model.api_base") == Ok(DefaultApiBase(env));
      DefaultKeyEnvNonBlank();
      assert RequiredStr(model, "api_key_env", DefaultApiKeyEnv, "model.api_key_env") == Ok(DefaultApiKeyEnv);
    }
    assert LoadGraph(raw) == Ok(DefaultGraph) by {
      assert Section(raw, "graph") == Ok(map[]);
    }
    assert ToFloat(Int(i)) == None;
  }

  /** A string temperature fails the numeric check. */
  lemma {:induction false} StringTemperatureRejected(m: map<string, Value>, t: string)
    requires "temperature" in m && m["temperature"] == Str(t)
    ensures Temperature(m) == Err(Invalid(NotNumeric("model.temperature")))
  {
  }

  /** A loaded configuration holds the document's values, and the defaults where the document has none. */
  lemma {:induction false} LoadedFromDocument(configPath: string, doc: Value, env: map<string, string>)
    requires LoadConfig(configPath, Parsed(doc), env).Ok?
    ensures Root(doc).Mapping?
    ensures Section(Root(doc).entries, "input").Ok? && Section(Root(doc).entries, "model").Ok? &&
            Section(Root(doc).entries, "graph").Ok?
    ensures var c, raw := LoadConfig(configPath, Parsed(doc), env).value, Root(doc).entries;
            var i, m, g := Section(raw, "input").value, Section(raw, "model").value, Section(raw, "graph").value;
            && (c.input.taskDir.Some? <==> Get(i, "task_dir", Null).Str?)
            && (c.input.taskDir.Some? ==> Get(i, "task_dir", Null) == Str(c.input.taskDir.value))
            && (c.input.promptFile.Some? <==> Get(i, "prompt_file", Null).Str?)
            && (c.input.promptFile.Some? ==> Get(i, "prompt_file", Null) == Str(c.input.promptFile.value))
            && Get(m, "name", Str(DefaultModelName)) == Str(c.model.name)
            && Some(c.model.temperature) == ToFloat(Get(m, "temperature", Float(Finite(0.0))))
            && Get(m, "api_base", Str(DefaultApiBase(env))) == Str(c.model.apiBase)
            && Get(m, "api_key_env", Str(DefaultApiKeyEnv)) == Str(c.model.apiKeyEnv)
            && Get(g, "enable_diagram", Bool(false)) == Bool(c.graph.enableDiagram)
  {
  }
}
