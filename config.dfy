// The configuration manager: a process-wide singleton holding the
// settings loaded from `.clinerules.config.json`, getters that fall back
// to the built-in defaults, and a recursive update of nested settings.
// The file is a parameter (its parsed content, or its absence); writing it
// back is not modelled.
module Config {
  import opened Outcomes
  import PathUtils

  /** A JSON value as json.load returns it. */
  datatype Value =
    | Str(s: string)
    | Num(r: real)
    | Flag(b: bool)
    | Null
    | Arr(items: seq<Value>)
    | Obj(entries: map<string, Value>)

  /** A settings dictionary: the top level of the configuration, or a nested section. */
  type Settings = map<string, Value>

  function StrList(ss: seq<string>): (v: Value)
    ensures v.Arr? && |v.items| == |ss|
    ensures forall i | 0 <= i < |ss| :: v.items[i] == Str(ss[i])
  {
    Arr(seq(|ss|, i requires 0 <= i < |ss| => Str(ss[i])))
  }

  const DefaultExcludedDirs: seq<string> :=
    ["__pycache__", "embeddings", ".git", ".idea", "__MACOSX", "node_modules", "venv", "env", ".venv", "dist", "build"]
  const DefaultExcludedExtensions: seq<string> :=
    [".embedding", ".pyc", ".pyo", ".pyd", ".DS_Store", ".o", ".so", ".dll", ".exe"]
  const DefaultModelName := "all-MiniLM-L6-v2"
  /** The threshold returned for a threshold type the settings do not list. */
  const FallbackThreshold: real := 0.7

  /** DEFAULT_CONFIG as the module defines it. */
  function DefaultConfig(): (c: Settings)
    ensures c.Keys == {"excluded_dirs", "excluded_extensions", "thresholds", "models", "paths"}
  {
    map[
      "excluded_dirs" := StrList(DefaultExcludedDirs),
      "excluded_extensions" := StrList(DefaultExcludedExtensions),
      "thresholds" := Obj(map["doc_similarity" := Num(0.7), "code_similarity" := Num(0.8)]),
      "models" := Obj(map["doc_model_name" := Str("all-MiniLM-L6-v2"), "code_model_name" := Str("all-mpnet-base-v2")]),
      "paths" := Obj(map["doc_dir" := Str("docs"), "memory_dir" := Str("clinedocs"),
                         "embeddings_dir" := Str("embeddings"), "backups_dir" := Str("backups")])
    ]
  }

  // ---------------------------------------------------------------------
  // _deep_update

  /** Both sides hold a dictionary under `k`, so the update recurses there. */
  predicate Recurses(d: Settings, u: Settings, k: string) {
    k in u && u[k].Obj? && k in d && d[k].Obj?
  }

  /** The settings `d` after the recursive update with `u`. */
  function Merged(d: Settings, u: Settings): (r: Settings)
    decreases Obj(u)
  {
    map k | k in d.Keys + u.Keys ::
      if Recurses(d, u, k) then Obj(Merged(d[k].entries, u[k].entries))
      else if k in u then u[k]
      else d[k]
  }

  /** Every leaf of `u` is in `r`: values equal, or both dictionaries with `r`'s covering `u`'s. */
  predicate Covers(r: Settings, u: Settings)
    decreases Obj(u)
  {
    forall k | k in u ::
      k in r && (if u[k].Obj? && r[k].Obj? then Covers(r[k].entries, u[k].entries) else r[k] == u[k])
  }

  /**
   * What the update keeps: the keys are those of both sides; a key only in
   * `d` keeps its value; a key of `u` that does not recurse takes `u`'s
   * value; a recursing key stays a dictionary.
   */
  lemma {:induction false} MergedEntries(d: Settings, u: Settings)
    ensures Merged(d, u).Keys == d.Keys + u.Keys
    ensures forall k | k in d && k !in u :: Merged(d, u)[k] == d[k]
    ensures forall k | k in u && !Recurses(d, u, k) :: Merged(d, u)[k] == u[k]
    ensures forall k | Recurses(d, u, k) :: Merged(d, u)[k] == Obj(Merged(d[k].entries, u[k].entries))
  {
  }

  /** After the update every leaf of `u` is present. */
  lemma {:induction false} MergedCovers(d: Settings, u: Settings)
    ensures Covers(Merged(d, u), u)
    decreases Obj(u)
  {
    var r := Merged(d, u);
    MergedEntries(d, u);
    forall k | k in u
      ensures k in r && (if u[k].Obj? && r[k].Obj? then Covers(r[k].entries, u[k].entries) else r[k] == u[k])
    {
      if Recurses(d, u, k) {
        MergedCovers(d[k].entries, u[k].entries);
      } else if u[k].Obj? {
        CoversSelf(u[k].entries);
      }
    }
  }

  lemma {:induction false} CoversSelf(u: Settings)
    ensures Covers(u, u)
    decreases Obj(u)
  {
    forall k | k in u
      ensures if u[k].Obj? then Covers(u[k].entries, u[k].entries) else true
    {
      if u[k].Obj? {
        CoversSelf(u[k].entries);
      }
    }
  }

  /** Updating with settings already covered changes nothing. */
  lemma {:induction false} CoveredUnchanged(d: Settings, u: Settings)
    requires Covers(d, u)
    ensures Merged(d, u) == d
    decreases Obj(u)
  {
    var r := Merged(d, u);
    forall k | k in r ensures r[k] == d[k] {
      if Recurses(d, u, k) {
        CoveredUnchanged(d[k].entries, u[k].entries);
      }
    }
  }

  /** Repeating an update changes nothing more. */
  lemma {:induction false} MergedIdempotent(d: Settings, u: Settings)
    ensures Merged(Merged(d, u), u) == Merged(d, u)
  {
    MergedCovers(d, u);
    CoveredUnchanged(Merged(d, u), u);
  }

  /**
   * _deep_update as the loop over `u`'s items, recursing where both sides
   * hold a dictionary and assigning otherwise; the dictionary is updated in
   * place, and `r` is what it holds afterwards.
   */
  method DeepUpdate(d: Settings, u: Settings) returns (r: Settings)
    ensures r == Merged(d, u)
    decreases Obj(u)
  {
    r := d;
    var todo := u.Keys;
    while todo != {}
      invariant todo <= u.Keys
      invariant r.Keys == d.Keys + (u.Keys - todo)
      invariant forall k | k in r :: r[k] == if k in u && k !in todo then Merged(d, u)[k] else d[k]
      decreases todo
    {
      var k :| k in todo;
      var v := u[k];
      ghost var before := r;
      if v.Obj? && k in r && r[k].Obj? {
        var nested := DeepUpdate(r[k].entries, v.entries);
        r := r[k := Obj(nested)];
      } else {
        r := r[k := v];
      }
      UpdateStepKeys(d, u, before, todo, k, r);
      UpdateStep(d, u, before, todo, k, r);
      todo := todo - {k};
    }
    MergedEntries(d, u);
  }

  /** One item of the loop above: key k takes its merged value and leaves `todo`. */
  lemma UpdateStep(d: Settings, u: Settings, r: Settings, todo: set<string>, k: string, r': Settings)
    requires todo <= u.Keys && k in todo
    requires r.Keys == d.Keys + (u.Keys - todo)
    requires forall j | j in r :: r[j] == if j in u && j !in todo then Merged(d, u)[j] else d[j]
    requires r' == r[k := if u[k].Obj? && k in r && r[k].Obj? then Obj(Merged(r[k].entries, u[k].entries)) else u[k]]
    ensures forall j | j in r' :: r'[j] == if j in u && j !in todo - {k} then Merged(d, u)[j] else d[j]
  {
    forall j | j in r' ensures r'[j] == if j in u && j !in todo - {k} then Merged(d, u)[j] else d[j] {
      if j == k {
        MergedAt(d, u, k, if k in r then Some(r[k]) else None);
      }
    }
  }

  /** The keys after one item of the loop: those of `d` and every item done. */
  lemma UpdateStepKeys(d: Settings, u: Settings, r: Settings, todo: set<string>, k: string, r': Settings)
    requires todo <= u.Keys && k in todo
    requires r.Keys == d.Keys + (u.Keys - todo)
    requires k in r' && r'.Keys == r.Keys + {k}
    ensures r'.Keys == d.Keys + (u.Keys - (todo - {k}))
  {
  }

  /** The merged value of a key of `u`, given what `d` holds under it. */
  lemma MergedAt(d: Settings, u: Settings, k: string, old_: Option<Value>)
    requires k in u && old_ == (if k in d then Some(d[k]) else None)
    ensures Merged(d, u)[k]
            == if u[k].Obj? && old_.Some? && old_.value.Obj? then Obj(Merged(old_.value.entries, u[k].entries)) else u[k]
  {
  }

  // ---------------------------------------------------------------------
  // Getters, on the loaded settings and the current defaults

  /** `dict.get(key, default)` on the top level, with the default taken from `defaults`. */
  function Section(c: Settings, defaults: Settings, key: string): Option<Value> {
    if key in c then Some(c[key]) else if key in defaults then Some(defaults[key]) else None
  }

  /** get_excluded_dirs (None where DEFAULT_CONFIG has lost the key, a KeyError). */
  function ExcludedDirs(c: Settings, defaults: Settings): (r: Option<Value>)
    ensures "excluded_dirs" in c ==> r == Some(c["excluded_dirs"])
    ensures "excluded_dirs" !in c && defaults == DefaultConfig() ==> r == Some(StrList(DefaultExcludedDirs))
  {
    Section(c, defaults, "excluded_dirs")
  }

  /** get_excluded_extensions. */
  function ExcludedExtensions(c: Settings, defaults: Settings): (r: Option<Value>)
    ensures "excluded_extensions" in c ==> r == Some(c["excluded_extensions"])
    ensures "excluded_extensions" !in c && defaults == DefaultConfig() ==> r == Some(StrList(DefaultExcludedExtensions))
  {
    Section(c, defaults, "excluded_extensions")
  }

  /** `section.get(key, fallback)`; `.get` on anything but a dictionary raises AttributeError. */
  function Lookup(section: Option<Value>, name: string, key: string, fallback: Value): Result<Value> {
    match section
    case None => Err(KeyError(name))
    case Some(v) =>
      if !v.Obj? then Err(AttributeError)
      else if key in v.entries then Ok(v.entries[key])
      else Ok(fallback)
  }

  /** get_threshold: the configured value, 0.7 when the type is not listed. */
  function Threshold(c: Settings, defaults: Settings, kind: string): (r: Result<Value>)
    ensures "thresholds" in c && c["thresholds"].Obj? ==>
      r == Ok(if kind in c["thresholds"].entries then c["thresholds"].entries[kind] else Num(FallbackThreshold))
    ensures "thresholds" in c && !c["thresholds"].Obj? ==> r == Err(AttributeError)
  {
    Lookup(Section(c, defaults, "thresholds"), "thresholds", kind, Num(FallbackThreshold))
  }

  /** get_model_name: the configured name, all-MiniLM-L6-v2 when the type is not listed. */
  function ModelName(c: Settings, defaults: Settings, kind: string): (r: Result<Value>)
    ensures "models" in c && c["models"].Obj? ==>
      r == Ok(if kind in c["models"].entries then c["models"].entries[kind] else Str(DefaultModelName))
    ensures "models" in c && !c["models"].Obj? ==> r == Err(AttributeError)
  {
    Lookup(Section(c, defaults, "models"), "models", kind, Str(DefaultModelName))
  }

  /** Python truthiness of a JSON value. */
  predicate Truthy(v: Value) {
    match v
    case Str(s) => s != []
    case Num(r) => r != 0.0
    case Flag(b) => b
    case Null => false
    case Arr(items) => items != []
    case Obj(entries) => entries != map[]
  }

  /** normalize_path on a JSON value: a falsy value gives "", a non-string raises TypeError. */
  function NormalizeValue(v: Value, cwd: string): (r: Result<string>)
    ensures v.Str? ==> r == Ok(PathUtils.NormalizePath(v.s, cwd))
    ensures !Truthy(v) ==> r == Ok("")
  {
    if !Truthy(v) then Ok("")
    else if v.Str? then Ok(PathUtils.NormalizePath(v.s, cwd))
    else Err(TypeError)
  }

  /**
   * get_path: the configured path, else `defaultPath` when it is a non-empty
   * string, else DEFAULT_CONFIG's entry, else "", normalised.
   */
  function GetPath(c: Settings, defaults: Settings, kind: string, defaultPath: Option<string>, cwd: string)
    : (r: Result<string>)
  {
    var fallback :=
      if defaultPath.Some? && defaultPath.value != [] then Ok(Str(defaultPath.value))
      else Lookup(Section(defaults, defaults, "paths"), "paths", kind, Str(""));
    match fallback
    case Err(e) => Err(e)
    case Ok(f) =>
      match Lookup(Section(c, defaults, "paths"), "paths", kind, f)
      case Err(e) => Err(e)
      case Ok(p) => NormalizeValue(p, cwd)
  }

  /** The order get_path tries: configured value, then the argument, then the default, then "". */
  lemma {:induction false} GetPathOrder(c: Settings, kind: string, defaultPath: Option<string>, cwd: string)
    requires "paths" in c && c["paths"].Obj?
    ensures var configured := c["paths"].entries;
      GetPath(c, DefaultConfig(), kind, defaultPath, cwd)
      == if kind in configured then NormalizeValue(configured[kind], cwd)
         else if defaultPath.Some? && defaultPath.value != [] then Ok(PathUtils.NormalizePath(defaultPath.value, cwd))
         else if kind in DefaultConfig()["paths"].entries then Ok(PathUtils.NormalizePath(DefaultConfig()["paths"].entries[kind].s, cwd))
         else Ok("")
  {
  }

  /** The default thresholds: doc 0.7, code 0.8, anything else 0.7. */
  lemma DefaultThresholds(kind: string)
    ensures Threshold(DefaultConfig(), DefaultConfig(), "doc_similarity") == Ok(Num(0.7))
    ensures Threshold(DefaultConfig(), DefaultConfig(), "code_similarity") == Ok(Num(0.8))
    ensures kind != "doc_similarity" && kind != "code_similarity" ==>
      Threshold(DefaultConfig(), DefaultConfig(), kind) == Ok(Num(0.7))
  {
  }

  // ---------------------------------------------------------------------
  // The singleton

  /** What the configuration file holds: nothing, something json.load rejects, or a parsed object. */
  datatype ConfigFile = Missing | Unreadable | Parsed(settings: Settings)

  /** The keys of `c` holding a dictionary: those a shallow copy shares with `c`. */
  function DictKeys(c: Settings): set<string> {
    set k | k in c && c[k].Obj?
  }

  /** Both hold the same dictionary under `k`. */
  predicate SameDict(c: Settings, defaults: Settings, k: string) {
    k in c && k in defaults && c[k] == defaults[k] && c[k].Obj?
  }

  /** The settings the `config` property yields, from `_config`, the file and DEFAULT_CONFIG. */
  function Loaded(config: Option<Settings>, file: ConfigFile, defaults: Settings): Settings {
    if config.Some? then config.value else if file.Parsed? then file.settings else defaults
  }

  /** The top-level keys shared with DEFAULT_CONFIG once the settings are loaded. */
  function SharedLoaded(config: Option<Settings>, shared: set<string>, file: ConfigFile, defaults: Settings): set<string> {
    if config.Some? then shared else if file.Parsed? then {} else DictKeys(defaults)
  }

  /** DEFAULT_CONFIG after updating settings `c` that share the keys `shared` with it. */
  function DefaultsAfter(defaults: Settings, shared: set<string>, c: Settings, updates: Settings): Settings {
    map k | k in defaults :: if k in shared && Recurses(c, updates, k) then Merged(c, updates)[k] else defaults[k]
  }

  /** The keys still shared afterwards: those the update recursed into or left alone. */
  function SharedAfter(shared: set<string>, c: Settings, updates: Settings): set<string> {
    set k | k in shared && (k !in updates || Recurses(c, updates, k))
  }

  /** The update keeps every shared dictionary equal in both places, and DEFAULT_CONFIG's keys unchanged. */
  lemma {:induction false} SharingKept(c: Settings, defaults: Settings, shared: set<string>, updates: Settings)
    requires forall k | k in shared :: SameDict(c, defaults, k)
    ensures DefaultsAfter(defaults, shared, c, updates).Keys == defaults.Keys
    ensures forall k | k in SharedAfter(shared, c, updates) ::
      SameDict(Merged(c, updates), DefaultsAfter(defaults, shared, c, updates), k)
  {
    MergedEntries(c, updates);
  }

  /**
   * After reset_to_defaults, an update that reaches into a section
   * changes DEFAULT_CONFIG as well: setting doc_similarity to 0.5 makes
   * 0.5 the default threshold any later settings without "thresholds"
   * fall back to.
   */
  lemma ResetSharesDefaults()
    ensures var u := map["thresholds" := Obj(map["doc_similarity" := Num(0.5)])];
      var after := DefaultsAfter(DefaultConfig(), DictKeys(DefaultConfig()), DefaultConfig(), u);
      after["thresholds"] == Obj(map["doc_similarity" := Num(0.5), "code_similarity" := Num(0.8)])
      && Threshold(map[], after, "doc_similarity") == Ok(Num(0.5))
  {
    var u := map["thresholds" := Obj(map["doc_similarity" := Num(0.5)])];
    var d := DefaultConfig();
    var after := DefaultsAfter(d, DictKeys(d), d, u);
    assert after["thresholds"] == Merged(d, u)["thresholds"] by {
      assert "thresholds" in DictKeys(d);
      assert Recurses(d, u, "thresholds");
    }
    assert Merged(d, u)["thresholds"] == Obj(Merged(d["thresholds"].entries, u["thresholds"].entries)) by {
      MergedAt(d, u, "thresholds", Some(d["thresholds"]));
    }
    ThresholdsMerged();
    ThresholdFromDefaults(after);
  }

  /** With no dictionary shared, an update leaves DEFAULT_CONFIG as it was. */
  lemma UnsharedKeepsDefaults(defaults: Settings, c: Settings, updates: Settings)
    ensures DefaultsAfter(defaults, {}, c, updates) == defaults
  {
  }

  /**
   * The reset evidently intended, a deep copy of DEFAULT_CONFIG: the same
   * update of doc_similarity to 0.5 leaves the default threshold at 0.7.
   */
  lemma CopiedResetKeepsDefaults()
    ensures var u := map["thresholds" := Obj(map["doc_similarity" := Num(0.5)])];
      var after := DefaultsAfter(DefaultConfig(), {}, DefaultConfig(), u);
      after == DefaultConfig() && Threshold(map[], after, "doc_similarity") == Ok(Num(0.7))
  {
    var u := map["thresholds" := Obj(map["doc_similarity" := Num(0.5)])];
    UnsharedKeepsDefaults(DefaultConfig(), DefaultConfig(), u);
    DefaultThresholds("doc_similarity");
  }

  /** Settings without "thresholds" read the threshold from the defaults' section. */
  lemma ThresholdFromDefaults(defaults: Settings)
    requires "thresholds" in defaults
    requires defaults["thresholds"] == Obj(map["doc_similarity" := Num(0.5), "code_similarity" := Num(0.8)])
    ensures Threshold(map[], defaults, "doc_similarity") == Ok(Num(0.5))
  {
  }

  lemma ThresholdsMerged()
    ensures Merged(map["doc_similarity" := Num(0.7), "code_similarity" := Num(0.8)], map["doc_similarity" := Num(0.5)])
      == map["doc_similarity" := Num(0.5), "code_similarity" := Num(0.8)]
  {
    var d := map["doc_similarity" := Num(0.7), "code_similarity" := Num(0.8)];
    var u := map["doc_similarity" := Num(0.5)];
    MergedEntries(d, u);
    assert !Recurses(d, u, "doc_similarity");
  }

  /** DEFAULT_CONFIG and the class attribute `_instance`: state shared by the whole process. */
  class Globals {
    var defaults: Settings
    var instance: ConfigManager?

    constructor()
      ensures defaults == DefaultConfig() && instance == null
    {
      defaults := DefaultConfig();
      instance := null;
    }
  }

  class ConfigManager {
    /** `_config`: None until the first access loads it. */
    var config: Option<Settings>
    var initialized: bool
    /**
     * The top-level keys whose dictionary is the very object DEFAULT_CONFIG
     * holds under that key, because `config` came from a shallow copy.
     */
    var shared: set<string>

    /** The shared dictionaries hold the same value in both places. */
    predicate SharesWith(g: Globals)
      reads this, g
    {
      config.Some? ==> forall k | k in shared :: SameDict(config.value, g.defaults, k)
    }

    constructor()
      ensures config.None? && !initialized && shared == {}
    {
      config := None;
      initialized := false;
      shared := {};
    }

    /**
     * `ConfigManager()`: `__new__` hands out the one instance, creating it
     * the first time; `__init__` then resets `_initialized` before testing
     * it, so every call drops the loaded settings.
     */
    static method Instance(g: Globals) returns (m: ConfigManager)
      modifies g, g.instance
      ensures old(g.instance) != null ==> m == old(g.instance)
      ensures old(g.instance) == null ==> fresh(m)
      ensures g.instance == m && g.defaults == old(g.defaults)
      ensures m.config.None? && !m.initialized
    {
      if g.instance == null {
        m := new ConfigManager();
        g.instance := m;
      } else {
        m := g.instance;
      }
      m.initialized := false;
      m.config := None;
    }

    /** The `config` property: loads the file the first time; a missing or unreadable file gives a copy of DEFAULT_CONFIG. */
    method Settings(g: Globals, file: ConfigFile) returns (c: Settings)
      requires SharesWith(g)
      modifies this
      ensures c == Loaded(old(config), file, g.defaults) && config == Some(c)
      ensures shared == SharedLoaded(old(config), old(shared), file, g.defaults) && SharesWith(g)
      ensures initialized == old(initialized)
    {
      if config.None? {
        match file
        case Parsed(s) =>
          config := Some(s);
          shared := {};
        case _ =>
          config := Some(g.defaults);
          shared := DictKeys(g.defaults);
      }
      c := config.value;
    }

    /**
     * update_config: the recursive update of the loaded settings.  Where it
     * recurses into a dictionary shared with DEFAULT_CONFIG, the default
     * changes with it; where it replaces a shared dictionary, the sharing
     * ends.  The result is what saving the file reports, `saved`.
     */
    method UpdateConfig(g: Globals, file: ConfigFile, updates: Settings, saved: bool) returns (ok: bool)
      requires SharesWith(g)
      modifies this, g
      ensures ok == saved && SharesWith(g)
      ensures var c := Loaded(old(config), file, old(g.defaults));
        var s := SharedLoaded(old(config), old(shared), file, old(g.defaults));
        config == Some(Merged(c, updates))
        && g.defaults == DefaultsAfter(old(g.defaults), s, c, updates)
        && shared == SharedAfter(s, c, updates)
      ensures g.instance == old(g.instance)
    {
      var c := Settings(g, file);
      var merged := DeepUpdate(c, updates);
      SharingKept(c, g.defaults, shared, updates);
      g.defaults := DefaultsAfter(g.defaults, shared, c, updates);
      shared := SharedAfter(shared, c, updates);
      config := Some(merged);
      ok := saved;
    }

    /** reset_to_defaults: a shallow copy of DEFAULT_CONFIG, sharing its nested dictionaries. */
    method ResetToDefaults(g: Globals, saved: bool) returns (ok: bool)
      modifies this
      ensures config == Some(g.defaults) && shared == DictKeys(g.defaults) && SharesWith(g)
      ensures ok == saved
    {
      config := Some(g.defaults);
      shared := DictKeys(g.defaults);
      ok := saved;
    }

    /** reset_to_defaults with a deep copy of DEFAULT_CONFIG: nothing is shared with it afterwards. */
    method ResetToDefaultsCopy(g: Globals, saved: bool) returns (ok: bool)
      modifies this
      ensures config == Some(g.defaults) && shared == {} && SharesWith(g)
      ensures ok == saved
    {
      config := Some(g.defaults);
      shared := {};
      ok := saved;
    }
  }
}
