/**
 * The configuration manager: the settings dictionary, filled from the defaults and
 * from environment variables when loaded, and merged on update.  Reading and writing
 * the JSON file are parameters: the outcome of the read, and whether a save succeeded.
 */
module Config {
  import opened Text
  import opened Values

  type Settings = map<string, Value>

  function CategoryValue(name: string, jpName: string, emoji: string): Value {
    VObject(map["name" := VStr(name), "jp_name" := VStr(jpName), "emoji" := VStr(emoji)])
  }

  /** `DEFAULT_CONFIG`, in its declaration order. */
  function DefaultEntries(): seq<(string, Value)> {
    [
    ("discord_token", VStr("")),
    ("guild_id", VNull),
    ("admin_ids", VList([])),
    ("category_id", VNull),
    ("feeds", VList([])),
    ("check_interval", VInt(15)),
    ("max_articles", VInt(5)),
    ("ai_provider", VStr("lmstudio")),
    ("fallback_ai_provider", VStr("gemini")),
    ("lmstudio_api_url", VStr("http://localhost:1234/v1")),
    ("gemini_api_key", VStr("")),
    ("gemini_api_keys", VList([])),
    ("ai_model", VStr("lmstudio")),
    ("summarize", VBool(true)),
    ("summary_length", VInt(4000)),
    ("classify", VBool(false)),
    ("categories", VList([
      CategoryValue("technology", "テクノロジー", "🖥️"),
      CategoryValue("business", "ビジネス", "💼"),
      CategoryValue("science", "科学", "🔬"),
      CategoryValue("health", "健康", "🏥"),
      CategoryValue("entertainment", "エンタメ", "🎬"),
      CategoryValue("sports", "スポーツ", "⚽"),
      CategoryValue("politics", "政治", "🏛️"),
      CategoryValue("other", "その他", "📌")])),
    ("embed_color", VInt(3447003)),
    ("use_thumbnails", VBool(true)),
    ("log_level", VStr("INFO")),
    ("log_file", VStr("data/bot.log"))]
  }

  /** The keys checked for a value before the environment is consulted. */
  const RequiredKeys: seq<string> := ["discord_token", "check_interval", "admin_ids"]
  const EnvPrefix := "DISCORD_RSS_"

  /** The default-filling loop: each entry whose key is absent is added, in order. */
  function FillFrom(c: Settings, entries: seq<(string, Value)>): Settings
    decreases |entries|
  {
    if entries == [] then c
    else
      var d := FillFrom(c, entries[..|entries| - 1]);
      var (k, v) := entries[|entries| - 1];
      if k in d then d else d[k := v]
  }

  /** `DEFAULT_CONFIG` as a dictionary. */
  function DefaultConfig(): Settings {
    FillFrom(map[], DefaultEntries())
  }

  /**
   * Filling in the defaults is the defaults overridden by what the configuration
   * already holds: every present key keeps its value, every missing default key gets
   * its default, and no other key appears.
   */
  lemma {:induction false} FillFromIsOverride(c: Settings, entries: seq<(string, Value)>)
    ensures FillFrom(c, entries) == FillFrom(map[], entries) + c
    decreases |entries|
  {
    if entries == [] {
      assert map[] + c == c;
    } else {
      var init := entries[..|entries| - 1];
      FillFromIsOverride(c, init);
      var d := FillFrom(c, init);
      var base := FillFrom(map[], init);
      var (k, v) := entries[|entries| - 1];
      var base' := FillFrom(map[], entries);
      assert base' == if k in base then base else base[k := v];
      if k in d {
        if k !in base {
          assert k in c;
          assert base[k := v] + c == base + c;
        }
      } else {
        assert base[k := v] + c == (base + c)[k := v];
      }
    }
  }

  /** `not config.get(key) and os.environ.get(var)`: a falsy setting takes a non-empty variable. */
  function FromEnv(c: Settings, key: string, envKey: string, env: map<string, string>): (r: Settings)
    ensures TruthyAt(c, key) || envKey !in env || env[envKey] == [] ==> r == c
  {
    if !TruthyAt(c, key) && envKey in env && env[envKey] != [] then c[key := VStr(env[envKey])] else c
  }

  /** The required-key loop: each falsy required key is taken from `DISCORD_RSS_<KEY>`. */
  function RequiredFromEnv(c: Settings, keys: seq<string>, env: map<string, string>): Settings
    decreases |keys|
  {
    if keys == [] then c
    else
      var key := keys[|keys| - 1];
      FromEnv(RequiredFromEnv(c, keys[..|keys| - 1], env), key, EnvPrefix + Upper(key), env)
  }

  /** `GEMINI_API_KEYS` as a list: split on commas, stripped, blanks dropped. */
  function KeyList(s: string): (v: Value)
    ensures v.VList? && forall k :: 0 <= k < |v.items| ==> v.items[k].VStr? && CleanToken(v.items[k].s)
  {
    var keys := SplitCommaList(s);
    VList(seq(|keys|, k requires 0 <= k < |keys| => VStr(keys[k])))
  }

  /** A key is listed exactly when it is the non-blank strip of one comma-separated piece. */
  lemma KeyListMembers(s: string, x: string)
    ensures VStr(x) in KeyList(s).items <==> x != [] && StripOfSome(Split(s, ','), x)
  {
    var keys := SplitCommaList(s);
    var items := KeyList(s).items;
    assert |items| == |keys| && forall k :: 0 <= k < |keys| ==> items[k] == VStr(keys[k]);
    if VStr(x) in items {
      var k :| 0 <= k < |items| && items[k] == VStr(x);
      assert keys[k] == x;
    }
    if x in keys {
      var k :| 0 <= k < |keys| && keys[k] == x;
      assert items[k] == VStr(x);
    }
    SplitCommaListMembers(s, x);
  }

  /** Keys written as a comma list come back as that list of strings, in order. */
  lemma KeyListJoin(ks: seq<string>)
    requires forall k :: 0 <= k < |ks| ==> CleanToken(ks[k])
    ensures |KeyList(Join(ks, ',')).items| == |ks|
    ensures forall k :: 0 <= k < |ks| ==> KeyList(Join(ks, ',')).items[k] == VStr(ks[k])
  {
    SplitCommaListJoin(ks);
  }

  /**
   * With no keys configured, a non-empty `GEMINI_API_KEYS` becomes the key list, one
   * string per listed key in order (that nothing else changes is `FromEnvKeeps`).
   */
  lemma KeysFromEnvSets(c: Settings, env: map<string, string>, ks: seq<string>)
    requires !TruthyAt(c, "gemini_api_keys")
    requires "GEMINI_API_KEYS" in env && env["GEMINI_API_KEYS"] == Join(ks, ',')
    requires |ks| >= 1 && forall k :: 0 <= k < |ks| ==> CleanToken(ks[k])
    ensures "gemini_api_keys" in KeysFromEnv(c, env)
    ensures var v := KeysFromEnv(c, env)["gemini_api_keys"];
      v.VList? && |v.items| == |ks| && forall k :: 0 <= k < |ks| ==> v.items[k] == VStr(ks[k])
  {
    assert ks[0] != [];
    JoinHead(ks, ',');
    assert env["GEMINI_API_KEYS"] != [];
    assert KeysFromEnv(c, env)["gemini_api_keys"] == KeyList(Join(ks, ','));
    KeyListJoin(ks);
  }

  function KeysFromEnv(c: Settings, env: map<string, string>): (r: Settings)
    ensures TruthyAt(c, "gemini_api_keys") || "GEMINI_API_KEYS" !in env || env["GEMINI_API_KEYS"] == [] ==> r == c
  {
    if !TruthyAt(c, "gemini_api_keys") && "GEMINI_API_KEYS" in env && env["GEMINI_API_KEYS"] != [] then
      c["gemini_api_keys" := KeyList(env["GEMINI_API_KEYS"])]
    else c
  }

  /** `_validate_and_update_config`. */
  function Validated(c: Settings, env: map<string, string>): Settings {
    var filled := FillFrom(c, DefaultEntries());
    var required := RequiredFromEnv(filled, RequiredKeys, env);
    var token := FromEnv(required, "discord_token", "DISCORD_TOKEN", env);
    var key := FromEnv(token, "gemini_api_key", "GEMINI_API_KEY", env);
    KeysFromEnv(key, env)
  }

  /** The variable names the required-key loop builds. */
  lemma RequiredEnvNames()
    ensures EnvPrefix + Upper("discord_token") == "DISCORD_RSS_DISCORD_TOKEN"
    ensures EnvPrefix + Upper("check_interval") == "DISCORD_RSS_CHECK_INTERVAL"
    ensures EnvPrefix + Upper("admin_ids") == "DISCORD_RSS_ADMIN_IDS"
  {
    UpperToken();
    UpperInterval();
    UpperAdmins();
  }

  lemma UpperToken()
    ensures EnvPrefix + Upper("discord_token") == "DISCORD_RSS_DISCORD_TOKEN"
  {
    assert Upper("discord_token") == "DISCORD_TOKEN";
  }

  lemma UpperInterval()
    ensures EnvPrefix + Upper("check_interval") == "DISCORD_RSS_CHECK_INTERVAL"
  {
    assert Upper("check_interval") == "CHECK_INTERVAL";
  }

  lemma UpperAdmins()
    ensures EnvPrefix + Upper("admin_ids") == "DISCORD_RSS_ADMIN_IDS"
  {
    assert Upper("admin_ids") == "ADMIN_IDS";
  }

  /**
   * The required-key loop changes only falsy required keys: a truthy setting, and a
   * setting whose key is not in the list, come through as they were; no key is dropped.
   */
  lemma {:induction false} RequiredFromEnvKeeps(c: Settings, keys: seq<string>, env: map<string, string>)
    ensures c.Keys <= RequiredFromEnv(c, keys, env).Keys
    ensures forall k :: k in c && (TruthyAt(c, k) || k !in keys) ==>
      k in RequiredFromEnv(c, keys, env) && RequiredFromEnv(c, keys, env)[k] == c[k]
    decreases |keys|
  {
    if keys != [] {
      var init := keys[..|keys| - 1];
      RequiredFromEnvKeeps(c, init, env);
    }
  }

  /** A key outside the list is neither added nor changed by the required-key loop. */
  lemma {:induction false} RequiredFromEnvOutside(c: Settings, keys: seq<string>, env: map<string, string>, k: string)
    requires k !in keys
    ensures k in RequiredFromEnv(c, keys, env) <==> k in c
    ensures k in c ==> RequiredFromEnv(c, keys, env)[k] == c[k]
    decreases |keys|
  {
    if keys != [] {
      var init := keys[..|keys| - 1];
      assert keys == init + [keys[|keys| - 1]];
      RequiredFromEnvOutside(c, init, env, k);
    }
  }

  /**
   * A falsy required setting whose `DISCORD_RSS_<KEY>` variable is non-empty takes that
   * variable's value, as a string.
   */
  lemma {:induction false} RequiredFromEnvSets(c: Settings, keys: seq<string>, env: map<string, string>, k: string)
    requires k in keys && !TruthyAt(c, k)
    requires EnvPrefix + Upper(k) in env && env[EnvPrefix + Upper(k)] != []
    ensures k in RequiredFromEnv(c, keys, env)
    ensures RequiredFromEnv(c, keys, env)[k] == VStr(env[EnvPrefix + Upper(k)])
    decreases |keys|
  {
    var init := keys[..|keys| - 1];
    var last := keys[|keys| - 1];
    assert keys == init + [last];
    var inner := RequiredFromEnv(c, init, env);
    if k in init {
      RequiredFromEnvSets(c, init, env, k);
      assert TruthyAt(inner, k);
    } else {
      assert last == k;
      RequiredFromEnvOutside(c, init, env, k);
      assert !TruthyAt(inner, k);
    }
  }

  /** A single environment fallback keeps every key and every truthy value. */
  lemma FromEnvKeeps(c: Settings, key: string, envKey: string, env: map<string, string>)
    ensures c.Keys <= FromEnv(c, key, envKey, env).Keys
    ensures forall k :: k in c && (TruthyAt(c, k) || k != key) ==> FromEnv(c, key, envKey, env)[k] == c[k]
    ensures c.Keys <= KeysFromEnv(c, env).Keys
    ensures forall k :: k in c && (TruthyAt(c, k) || k != "gemini_api_keys") ==> KeysFromEnv(c, env)[k] == c[k]
  {
  }

  /** Filling in defaults keeps every present setting and adds every default key. */
  lemma FillKeeps(c: Settings, entries: seq<(string, Value)>)
    ensures forall k :: k in c ==> k in FillFrom(c, entries) && FillFrom(c, entries)[k] == c[k]
    ensures c.Keys + FillFrom(map[], entries).Keys == FillFrom(c, entries).Keys
  {
    FillFromIsOverride(c, entries);
  }

  /**
   * Validation never overwrites a setting that already has a truthy value, never drops
   * a key, and leaves every default key present.
   */
  lemma ValidatedKeeps(c: Settings, env: map<string, string>)
    ensures forall k :: TruthyAt(c, k) ==> k in Validated(c, env) && Validated(c, env)[k] == c[k]
    ensures c.Keys + DefaultConfig().Keys <= Validated(c, env).Keys
  {
    var filled := FillFrom(c, DefaultEntries());
    FillKeeps(c, DefaultEntries());
    var required := RequiredFromEnv(filled, RequiredKeys, env);
    RequiredFromEnvKeeps(filled, RequiredKeys, env);
    var token := FromEnv(required, "discord_token", "DISCORD_TOKEN", env);
    FromEnvKeeps(required, "discord_token", "DISCORD_TOKEN", env);
    var key := FromEnv(token, "gemini_api_key", "GEMINI_API_KEY", env);
    FromEnvKeeps(token, "gemini_api_key", "GEMINI_API_KEY", env);
    FromEnvKeeps(key, "gemini_api_key", "GEMINI_API_KEY", env);
  }

  /** A setting outside the required keys and the three variables' keys comes through as it was. */
  lemma ValidatedOthersUnchanged(c: Settings, env: map<string, string>, k: string)
    requires k in c
    requires k !in RequiredKeys && k != "gemini_api_key" && k != "gemini_api_keys"
    ensures k in Validated(c, env) && Validated(c, env)[k] == c[k]
  {
    var filled := FillFrom(c, DefaultEntries());
    FillKeeps(c, DefaultEntries());
    var required := RequiredFromEnv(filled, RequiredKeys, env);
    RequiredFromEnvKeeps(filled, RequiredKeys, env);
    var token := FromEnv(required, "discord_token", "DISCORD_TOKEN", env);
    FromEnvKeeps(required, "discord_token", "DISCORD_TOKEN", env);
    var key := FromEnv(token, "gemini_api_key", "GEMINI_API_KEY", env);
    FromEnvKeeps(token, "gemini_api_key", "GEMINI_API_KEY", env);
    FromEnvKeeps(key, "gemini_api_key", "GEMINI_API_KEY", env);
  }

  /** The outcome of reading `data/config.json`. */
  datatype FileState =
    | Absent                  // the file does not exist
    | Unreadable              // open or JSON decoding raised
    | Decoded(content: Value) // the JSON value read

  /** `load_config`: the decoded object validated, the defaults validated for a missing file, the bare defaults on error. */
  function Loaded(file: FileState, env: map<string, string>): Settings {
    match file
    case Absent => Validated(DefaultConfig(), env)
    case Unreadable => DefaultConfig()
    case Decoded(v) => if v.VObject? then Validated(v.fields, env) else DefaultConfig()
  }

  /**
   * A file that cannot be read, or holds anything but an object, gives exactly the
   * defaults: the environment is not consulted on that path.
   */
  lemma LoadedFallback(file: FileState, env: map<string, string>, env2: map<string, string>)
    requires file.Unreadable? || (file.Decoded? && !file.content.VObject?)
    ensures Loaded(file, env) == DefaultConfig() == Loaded(file, env2)
  {
  }

  class ConfigManager {
    var config: Settings

    constructor()
      ensures config == map[]
    {
      config := map[];
    }

    /** The default-filling loop, then the environment fallbacks. */
    method ValidateAndUpdateConfig(env: map<string, string>)
      modifies this
      ensures config == Validated(old(config), env)
    {
      FillDefaults();
      FillRequired(env);
      FillFromEnv("discord_token", "DISCORD_TOKEN", env);
      FillFromEnv("gemini_api_key", "GEMINI_API_KEY", env);
      if !TruthyAt(config, "gemini_api_keys") && "GEMINI_API_KEYS" in env && env["GEMINI_API_KEYS"] != [] {
        config := config["gemini_api_keys" := KeyList(env["GEMINI_API_KEYS"])];
      }
    }

    /** The default-filling loop of `_validate_and_update_config`. */
    method FillDefaults()
      modifies this
      ensures config == FillFrom(old(config), DefaultEntries())
    {
      ghost var start := config;
      for i := 0 to |DefaultEntries()|
        invariant config == FillFrom(start, DefaultEntries()[..i])
      {
        assert DefaultEntries()[..i + 1][..i] == DefaultEntries()[..i];
        var (key, value) := DefaultEntries()[i];
        if key !in config {
          config := config[key := value];
        }
      }
      assert DefaultEntries()[..|DefaultEntries()|] == DefaultEntries();
    }

    /** One direct environment fallback: an unset or falsy `field` takes a non-empty `name`. */
    method FillFromEnv(field: string, name: string, env: map<string, string>)
      modifies this
      ensures config == FromEnv(old(config), field, name, env)
    {
      if !TruthyAt(config, field) && name in env && env[name] != [] {
        config := config[field := VStr(env[name])];
      }
    }

    /** The required-key loop of `_validate_and_update_config`. */
    method FillRequired(env: map<string, string>)
      modifies this
      ensures config == RequiredFromEnv(old(config), RequiredKeys, env)
    {
      ghost var start := config;
      for i := 0 to |RequiredKeys|
        invariant config == RequiredFromEnv(start, RequiredKeys[..i], env)
      {
        assert RequiredKeys[..i + 1][..i] == RequiredKeys[..i];
        var key := RequiredKeys[i];
        if !TruthyAt(config, key) {
          var envKey := EnvPrefix + Upper(key);
          if envKey in env && env[envKey] != [] {
            config := config[key := VStr(env[envKey])];
          }
        }
      }
      assert RequiredKeys[..|RequiredKeys|] == RequiredKeys;
    }

    /** `load_config`; writing the defaults back for a missing file catches its own errors, so it changes nothing here. */
    method LoadConfig(file: FileState, env: map<string, string>) returns (loaded: Settings)
      modifies this
      ensures config == Loaded(file, env) && loaded == config
    {
      match file {
        case Absent =>
          config := DefaultConfig();
          ValidateAndUpdateConfig(env);
        case Unreadable =>
          config := DefaultConfig();
        case Decoded(v) =>
          if v.VObject? {
            config := v.fields;
            ValidateAndUpdateConfig(env);
          } else {
            config := DefaultConfig();
          }
      }
      loaded := config;
    }

    /** `update_config`: the new keys are written over the configuration, then it is saved. */
    method UpdateConfig(newConfig: Settings, saveOk: bool) returns (ok: bool)
      modifies this
      ensures config == old(config) + newConfig
      ensures ok == saveOk
    {
      config := config + newConfig;
      ok := saveOk;
    }

    method GetConfig() returns (c: Settings)
      ensures c == config
    {
      c := config;
    }
  }

  /** An update writes the new keys and keeps every other key. */
  lemma UpdateKeepsOthers(c: Settings, newConfig: Settings)
    ensures forall k :: k in newConfig ==> (c + newConfig)[k] == newConfig[k]
    ensures forall k :: k in c && k !in newConfig ==> (c + newConfig)[k] == c[k]
    ensures (c + newConfig).Keys == c.Keys + newConfig.Keys
  {
  }
}
