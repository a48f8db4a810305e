/** `config/__init__.py`: the configuration is the model-config document,
    overridden key by key by the secrets document, with `${VAR}` strings
    inside each section replaced from the environment, computed once and
    then memoised. YAML documents and the environment are given as values. */
module Config {
  import opened Wrappers
  import opened Strings

  /** A YAML value as `yaml.safe_load` returns it. */
  datatype Value =
    | Null
    | Bool(b: bool)
    | Int(i: int)
    | Str(s: string)
    | List(items: seq<Value>)
    | Dict(entries: map<string, Value>)

  /** Python truthiness: `None`, `False`, `0` and empty strings, lists and
      dicts are falsy. */
  predicate Truthy(v: Value) {
    match v
    case Null => false
    case Bool(b) => b
    case Int(i) => i != 0
    case Str(s) => s != ""
    case List(items) => items != []
    case Dict(entries) => entries != map[]
  }

  const EmptyDict := Dict(map[])

  /** `_load_yaml(path)`: `file` is `None` when the path does not exist and
      otherwise the parsed document; a falsy document becomes `{}`. */
  function LoadYaml(file: Option<Value>): (r: Value)
    ensures Truthy(r) || r == EmptyDict
    ensures file.Some? && Truthy(file.value) ==> r == file.value
    ensures file.None? || !Truthy(file.value) ==> r == EmptyDict
  {
    match file
    case None => EmptyDict
    case Some(doc) => if Truthy(doc) then doc else EmptyDict
  }

  /** `config.update(other)` for two dicts: the keys of `other` win. */
  function Update(config: map<string, Value>, other: map<string, Value>): (r: map<string, Value>)
    ensures r.Keys == config.Keys + other.Keys
    ensures forall k :: k in other ==> r[k] == other[k]
    ensures forall k :: k in config && k !in other ==> r[k] == config[k]
  {
    config + other
  }

  /** `os.getenv(name)`. */
  function GetEnv(env: map<string, string>, name: string): (r: Value)
    ensures r == Null <==> name !in env
  {
    if name in env then Str(env[name]) else Null
  }

  /** A string of the `${VAR}` form. */
  predicate IsPlaceholder(s: string) {
    IsPrefix("${", s) && IsSuffix("}", s)
  }

  lemma PlaceholderLength(s: string)
    requires IsPlaceholder(s)
    ensures |s| >= 3
  {
    assert s[..2] == "${" && s[|s| - 1..] == "}";
    assert s[..2][1] == s[1] == '{';
    assert s[|s| - 1..][0] == s[|s| - 1] == '}';
  }

  /** `v[2:-1]` of a placeholder: the variable name between `${` and `}`. */
  function VarName(s: string): (r: string)
    requires IsPlaceholder(s)
    ensures s == "${" + r + "}"
  {
    PlaceholderLength(s);
    assert s == s[..2] + s[2..|s| - 1] + s[|s| - 1..];
    s[2..|s| - 1]
  }

  /** The substitution applied to one value of a section. */
  function ResolveValue(v: Value, env: map<string, string>): Value {
    if v.Str? && IsPlaceholder(v.s) then GetEnv(env, VarName(v.s)) else v
  }

  /** A dict section has each of its own values resolved; any other section
      is left as it is. */
  function ResolveSection(section: Value, env: map<string, string>): Value {
    match section
    case Dict(entries) => Dict(map k | k in entries :: ResolveValue(entries[k], env))
    case _ => section
  }

  function ResolveAll(config: map<string, Value>, env: map<string, string>): map<string, Value> {
    map key | key in config :: ResolveSection(config[key], env)
  }

  /** What a first `get_config()` computes from the two documents and the
      environment. A top-level document that is truthy but not a mapping
      makes `config.update` raise. */
  function BuildConfig(modelFile: Option<Value>, secretsFile: Option<Value>, env: map<string, string>): Result<map<string, Value>, string> {
    var model := LoadYaml(modelFile);
    var secrets := LoadYaml(secretsFile);
    if !model.Dict? || !secrets.Dict? then Failure("config.update needs a mapping")
    else Success(ResolveAll(Update(model.entries, secrets.entries), env))
  }

  /** The inner loop: every placeholder value of one dict section
      rewritten. */
  method ResolveEntries(section: map<string, Value>, env: map<string, string>) returns (entries: map<string, Value>)
    ensures entries == map k | k in section :: ResolveValue(section[k], env)
  {
    entries := section;
    var todo := section.Keys;
    while todo != {}
      invariant todo <= section.Keys
      invariant entries.Keys == section.Keys
      invariant forall k :: k in section && k !in todo ==> entries[k] == ResolveValue(section[k], env)
      invariant forall k :: k in todo ==> entries[k] == section[k]
      decreases todo
    {
      var k :| k in todo;
      var v := entries[k];
      if v.Str? && IsPrefix("${", v.s) && IsSuffix("}", v.s) {
        entries := entries[k := GetEnv(env, VarName(v.s))];
      }
      assert entries[k] == ResolveValue(section[k], env);
      todo := todo - {k};
    }
  }

  /** The outer loop over the sections: the loops that rewrite `section[k]`
      for every dict section. */
  method ResolveEnv(config: map<string, Value>, env: map<string, string>) returns (resolved: map<string, Value>)
    ensures resolved == ResolveAll(config, env)
  {
    resolved := config;
    var pending := config.Keys;
    while pending != {}
      invariant pending <= config.Keys
      invariant resolved.Keys == config.Keys
      invariant forall key :: key in config && key !in pending ==> resolved[key] == ResolveSection(config[key], env)
      invariant forall key :: key in pending ==> resolved[key] == config[key]
      decreases pending
    {
      var key :| key in pending;
      var section := config[key];
      if section.Dict? {
        var entries := ResolveEntries(section.entries, env);
        resolved := resolved[key := Dict(entries)];
      }
      assert resolved[key] == ResolveSection(config[key], env);
      pending := pending - {key};
    }
  }

  /** The module state: the memo `_config` and what the two files and the
      environment hold at the moment `get_config` runs. */
  class ConfigStore {
    var cache: Option<map<string, Value>>
    var modelFile: Option<Value>
    var secretsFile: Option<Value>
    var env: map<string, string>

    constructor(modelFile: Option<Value>, secretsFile: Option<Value>, env: map<string, string>)
      ensures cache == None
      ensures this.modelFile == modelFile && this.secretsFile == secretsFile && this.env == env
    {
      cache := None;
      this.modelFile := modelFile;
      this.secretsFile := secretsFile;
      this.env := env;
    }

    /** `get_config()`: the memo when there is one; otherwise the config is
      built, memoised and returned. */
    method GetConfig() returns (r: Result<map<string, Value>, string>)
      modifies this
      ensures old(cache).Some? ==> r == Success(old(cache).value) && cache == old(cache)
      ensures old(cache).None? ==> r == BuildConfig(modelFile, secretsFile, env)
      ensures old(cache).None? && r.Success? ==> cache == Some(r.value)
      ensures old(cache).None? && r.Failure? ==> cache == None
      ensures modelFile == old(modelFile) && secretsFile == old(secretsFile) && env == old(env)
    {
      if cache.Some? {
        return Success(cache.value);
      }
      var config: map<string, Value> := map[];
      var model := LoadYaml(modelFile);
      if !model.Dict? {
        return Failure("config.update needs a mapping");
      }
      config := config + model.entries;
      var secrets := LoadYaml(secretsFile);
      if Truthy(secrets) {
        if !secrets.Dict? {
          return Failure("config.update needs a mapping");
        }
        config := config + secrets.entries;
      }
      assert config == Update(model.entries, secrets.entries);
      config := ResolveEnv(config, env);
      cache := Some(config);
      r := Success(config);
    }

    /** A new model file or environment after the first call changes nothing:
      the second call returns the memoised config. */
    method CacheIgnoresLaterChanges(newModel: Option<Value>, newEnv: map<string, string>) returns (first: Result<map<string, Value>, string>, second: Result<map<string, Value>, string>)
      requires cache == None
      modifies this
      ensures first == BuildConfig(old(modelFile), old(secretsFile), old(env))
      ensures first.Success? ==> second == first
    {
      first := GetConfig();
      modelFile := newModel;
      env := newEnv;
      second := GetConfig();
    }
  }

  /** A missing file and an empty document both load as `{}`. */
  lemma MissingOrEmptyYaml()
    ensures LoadYaml(None) == EmptyDict
    ensures LoadYaml(Some(Null)) == EmptyDict
    ensures LoadYaml(Some(EmptyDict)) == EmptyDict
  {
  }

  /** A placeholder becomes the environment's value, or `None` when the
      variable is unset. */
  lemma PlaceholderResolved(name: string, env: map<string, string>)
    ensures ResolveValue(Str("${" + name + "}"), env) == (if name in env then Str(env[name]) else Null)
  {
    var s := "${" + name + "}";
    assert s[..2] == "${" && s[|s| - 1..] == "}";
    assert VarName(s) == name by {
      assert s == "${" + VarName(s) + "}";
      assert VarName(s) == s[2..|s| - 1];
    }
  }

  /** Values that are not placeholder strings are left as they are. */
  lemma OtherValuesKept(v: Value, env: map<string, string>)
    requires !v.Str? || !IsPlaceholder(v.s)
    ensures ResolveValue(v, env) == v
  {
  }

  /** Resolution reaches one level down only: a dict inside a section,
      placeholders and all, is left untouched. */
  lemma NestedDictUntouched(config: map<string, Value>, env: map<string, string>, key: string, k: string)
    requires key in config && config[key].Dict? && k in config[key].entries && config[key].entries[k].Dict?
    ensures ResolveAll(config, env)[key].entries[k] == config[key].entries[k]
  {
  }

  /** Sections that are not dicts are left untouched. */
  lemma NonDictSectionUntouched(config: map<string, Value>, env: map<string, string>, key: string)
    requires key in config && !config[key].Dict?
    ensures ResolveAll(config, env)[key] == config[key]
  {
  }

  /** Resolution keeps every section and every key of every section. */
  lemma ResolutionKeepsKeys(config: map<string, Value>, env: map<string, string>)
    ensures ResolveAll(config, env).Keys == config.Keys
    ensures forall key :: key in config && config[key].Dict? ==>
      ResolveAll(config, env)[key].Dict? && ResolveAll(config, env)[key].entries.Keys == config[key].entries.Keys
  {
  }

  /** A secret key overrides the model-config key of the same name, and
      keys only in the model config survive; an absent or empty secrets
      file leaves the model config as it is. */
  lemma SecretsOverride(model: map<string, Value>, secretsFile: Option<Value>, env: map<string, string>)
    requires secretsFile.Some? ==> !Truthy(secretsFile.value) || secretsFile.value.Dict?
    ensures BuildConfig(Some(Dict(model)), secretsFile, env).Success?
    ensures secretsFile == None ==> BuildConfig(Some(Dict(model)), secretsFile, env) == BuildConfig(Some(Dict(model)), Some(EmptyDict), env)
    ensures secretsFile.Some? && Truthy(secretsFile.value) ==>
      BuildConfig(Some(Dict(model)), secretsFile, env).value == ResolveAll(Update(model, secretsFile.value.entries), env)
  {
  }
}
