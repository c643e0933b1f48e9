/**
 * riley-core's configuration helpers (`config.rs`): values that may name an environment
 * variable, the search for the configuration file, and the serde defaults.
 *
 * The process environment is a map, the filesystem's `exists` is the predicate `present`, the
 * working directory and the user configuration directory are given as their path components.
 */
module Config {
  import opened Wrappers
  import opened Text

  // ---------------------------------------------------------------- values

  /** `ConfigValue::Literal`: a literal, or `env:NAME` naming an environment variable. */
  datatype ConfigValue = Literal(text: string)

  const EnvPrefix := "env:"

  /** `ConfigValue::resolve`; the error is the text of the `Error::Config` it returns. */
  function Resolve(v: ConfigValue, env: map<string, string>): (r: Result<string, string>)
    ensures !StartsWith(v.text, EnvPrefix) ==> r == Ok(v.text)
    ensures StartsWith(v.text, EnvPrefix) ==>
      var name := v.text[|EnvPrefix|..];
      r == if name in env then Ok(env[name]) else Err("Environment variable " + name + " not set")
  {
    match StripPrefix(v.text, EnvPrefix)
    case Some(name) => if name in env then Ok(env[name]) else Err("Environment variable " + name + " not set")
    case None => Ok(v.text)
  }

  /** `env:NAME` resolves exactly when NAME is set, to its value, even an empty one. */
  lemma ResolveEnvReference(name: string, env: map<string, string>)
    ensures Resolve(Literal(EnvPrefix + name), env).Ok? <==> name in env
    ensures name in env ==> Resolve(Literal(EnvPrefix + name), env) == Ok(env[name])
  {
    assert (EnvPrefix + name)[|EnvPrefix|..] == name;
  }

  /** A resolved value that is not itself a reference resolves to itself: resolving is idempotent. */
  lemma ResolveSettles(v: ConfigValue, env: map<string, string>)
    requires Resolve(v, env).Ok? && !StartsWith(Resolve(v, env).value, EnvPrefix)
    ensures Resolve(Literal(Resolve(v, env).value), env) == Resolve(v, env)
  {
  }

  // ---------------------------------------------------------------- defaults

  const DefaultContentDir := "content"
  const DefaultBackend := "s3"
  const DefaultRegion := "auto"
  const DefaultHost := "0.0.0.0"
  const DefaultPort: nat := 8080
  const DefaultCacheMaxAge: nat := 60
  const DefaultCacheStaleWhileRevalidate: nat := 300

  datatype ServerConfig = ServerConfig(host: string, port: nat, corsOrigins: seq<string>,
                                       cacheMaxAge: nat, cacheStaleWhileRevalidate: nat)

  /** `ServerConfig::default`: every field takes its serde default. */
  function DefaultServerConfig(): (c: ServerConfig)
    ensures c.host == DefaultHost && c.port == DefaultPort && c.corsOrigins == []
    ensures c.cacheMaxAge == DefaultCacheMaxAge && c.cacheStaleWhileRevalidate == DefaultCacheStaleWhileRevalidate
  {
    ServerConfig(DefaultHost, DefaultPort, [], DefaultCacheMaxAge, DefaultCacheStaleWhileRevalidate)
  }

  datatype AuthConfig = AuthConfig(gitToken: Option<ConfigValue>, apiToken: Option<ConfigValue>)

  // ---------------------------------------------------------------- locating the file

  const ConfigFileName := "riley_cms.toml"
  const ConfigEnvVar := "RILEY_CMS_CONFIG"
  const SystemConfig := "/etc/riley_cms/config.toml"

  /** The absolute path of a directory given by its components. */
  function PathOf(dir: seq<string>): string { "/" + Join(dir, '/') }

  /** `Path::parent`: the root has none. */
  function Parent(dir: seq<string>): Option<seq<string>> {
    if dir == [] then None else Some(dir[..|dir| - 1])
  }

  /** `riley_cms.toml` in `dir` and then in each ancestor up to the root, nearest first. */
  function AncestorCandidates(dir: seq<string>): (r: seq<string>)
    ensures |r| == |dir| + 1 && r[0] == PathOf(dir + [ConfigFileName])
    decreases |dir|
  {
    [PathOf(dir + [ConfigFileName])] + (if dir == [] then [] else AncestorCandidates(dir[..|dir| - 1]))
  }

  /** The k-th ancestor candidate is `riley_cms.toml` in the directory k levels up. */
  lemma {:induction false} AncestorCandidateAt(dir: seq<string>, k: nat)
    requires k <= |dir|
    ensures AncestorCandidates(dir)[k] == PathOf(dir[..|dir| - k] + [ConfigFileName])
    decreases |dir|
  {
    if k > 0 {
      assert AncestorCandidates(dir) == [PathOf(dir + [ConfigFileName])] + AncestorCandidates(dir[..|dir| - 1]);
      AncestorCandidateAt(dir[..|dir| - 1], k - 1);
      assert dir[..|dir| - 1][..|dir| - 1 - (k - 1)] == dir[..|dir| - k];
    } else {
      assert dir[..|dir|] == dir;
    }
  }

  /** The user default and the system default, when the user configuration directory is known. */
  function DefaultCandidates(configDir: Option<seq<string>>): seq<string> {
    (if configDir.Some? then [PathOf(configDir.value + ["riley_cms", "config.toml"])] else []) + [SystemConfig]
  }

  /** Every location `resolve_config` tries, in the order it tries them. */
  function Candidates(explicit: Option<string>, env: map<string, string>, cwd: Option<seq<string>>,
                      configDir: Option<seq<string>>): seq<string> {
    (if explicit.Some? then [explicit.value] else []) + LaterCandidates(env, cwd, configDir)
  }

  /** The locations tried after the explicit path. */
  function LaterCandidates(env: map<string, string>, cwd: Option<seq<string>>, configDir: Option<seq<string>>): seq<string> {
    (if ConfigEnvVar in env then [env[ConfigEnvVar]] else [])
    + AncestorsThenDefaults(cwd, configDir)
  }

  /** The working directory and its ancestors, then the user default and `/etc`. */
  function AncestorsThenDefaults(cwd: Option<seq<string>>, configDir: Option<seq<string>>): seq<string> {
    (if cwd.Some? then AncestorCandidates(cwd.value) else []) + DefaultCandidates(configDir)
  }

  /** The file `resolve_config` loads, or the `searched` list of `ConfigNotFound`. */
  datatype Located = Found(path: string) | NotFound(searched: seq<string>)

  /** The first present candidate, or all of them when none is present. */
  function Locate(cs: seq<string>, present: string -> bool): Located {
    if cs == [] then NotFound([])
    else if present(cs[0]) then Found(cs[0])
    else match Locate(cs[1..], present)
      case Found(p) => Found(p)
      case NotFound(s) => NotFound([cs[0]] + s)
  }

  /** `Locate` finds the first present candidate, and reports every candidate when there is none. */
  lemma {:induction false} LocateFindsFirst(cs: seq<string>, present: string -> bool)
    ensures var r := Locate(cs, present);
      (r.NotFound? <==> forall i :: 0 <= i < |cs| ==> !present(cs[i]))
      && (r.NotFound? ==> r.searched == cs)
      && (r.Found? ==> exists i :: (0 <= i < |cs| && cs[i] == r.path && present(cs[i])
                                    && forall j :: 0 <= j < i ==> !present(cs[j])))
  {
    if cs != [] && !present(cs[0]) {
      LocateFindsFirst(cs[1..], present);
      assert forall i :: 1 <= i < |cs| ==> cs[i] == cs[1..][i - 1];
      match Locate(cs[1..], present)
      case Found(p) =>
        var i :| 0 <= i < |cs[1..]| && cs[1..][i] == p && present(cs[1..][i])
          && forall j :: 0 <= j < i ==> !present(cs[1..][j]);
        assert cs[i + 1] == p;
      case NotFound(s) =>
        assert [cs[0]] + cs[1..] == cs;
    }
  }

  lemma {:induction false} LocateAfterAbsent(a: seq<string>, b: seq<string>, present: string -> bool)
    requires forall i :: 0 <= i < |a| ==> !present(a[i])
    ensures Locate(a + b, present) == match Locate(b, present) case Found(p) => Found(p) case NotFound(s) => NotFound(a + s)
  {
    if a != [] {
      assert (a + b)[0] == a[0] && (a + b)[1..] == a[1..] + b;
      LocateAfterAbsent(a[1..], b, present);
      assert Locate(a + b, present) == match Locate(a[1..] + b, present)
        case Found(p) => Found(p) case NotFound(s) => NotFound([a[0]] + s);
      match Locate(b, present)
      case Found(p) =>
      case NotFound(s) =>
        assert [a[0]] + (a[1..] + s) == a + s;
    } else {
      assert a + b == b;
      match Locate(b, present)
      case Found(p) =>
      case NotFound(s) => assert a + s == s;
    }
  }

  lemma {:induction false} LocateFoundPrefix(a: seq<string>, b: seq<string>, present: string -> bool)
    requires Locate(a, present).Found?
    ensures Locate(a + b, present) == Locate(a, present)
  {
    if !present(a[0]) {
      assert (a + b)[0] == a[0] && (a + b)[1..] == a[1..] + b;
      LocateFoundPrefix(a[1..], b, present);
    }
  }

  /** The walk from `dir` up to the root, trying `riley_cms.toml` in each directory. */
  method SearchAncestors(dir0: seq<string>, present: string -> bool) returns (found: Option<string>, searched: seq<string>)
    ensures found.Some? ==> Locate(AncestorCandidates(dir0), present) == Found(found.value)
    ensures found.None? ==> searched == AncestorCandidates(dir0) && forall i :: 0 <= i < |searched| ==> !present(searched[i])
  {
    searched := [];
    var dir := Some(dir0);
    while dir.Some?
      invariant forall i :: 0 <= i < |searched| ==> !present(searched[i])
      invariant AncestorCandidates(dir0) == searched + (if dir.Some? then AncestorCandidates(dir.value) else [])
      decreases if dir.Some? then |dir.value| + 1 else 0
    {
      var configPath := PathOf(dir.value + [ConfigFileName]);
      if present(configPath) {
        LocateAfterAbsent(searched, AncestorCandidates(dir.value), present);
        return Some(configPath), searched;
      }
      ghost var rest := if Parent(dir.value).Some? then AncestorCandidates(Parent(dir.value).value) else [];
      assert AncestorCandidates(dir.value) == [configPath] + rest;
      assert searched + ([configPath] + rest) == (searched + [configPath]) + rest;
      searched := searched + [configPath];
      dir := Parent(dir.value);
    }
    assert searched + [] == searched;
    return None, searched;
  }

  /**
   * `resolve_config`: the explicit path, `$RILEY_CMS_CONFIG`, `riley_cms.toml` in the working
   * directory and each ancestor, the user default, then `/etc`; the first that exists wins.
   */
  method ResolveConfig(explicit: Option<string>, env: map<string, string>, cwd: Option<seq<string>>,
                       configDir: Option<seq<string>>, present: string -> bool) returns (r: Located)
    ensures r == Locate(Candidates(explicit, env, cwd, configDir), present)
  {
    var searched: seq<string> := [];
    if explicit.Some? {
      if present(explicit.value) {
        return Found(explicit.value);
      }
      searched := [explicit.value];
    } else {
      assert searched + LaterCandidates(env, cwd, configDir) == LaterCandidates(env, cwd, configDir);
    }
    r := TryEnvAndAncestors(searched, env, cwd, configDir, present);
  }

  /** The candidates after the explicit path, after every earlier one was found absent. */
  method TryEnvAndAncestors(searched: seq<string>, env: map<string, string>, cwd: Option<seq<string>>,
                            configDir: Option<seq<string>>, present: string -> bool) returns (r: Located)
    requires forall i :: 0 <= i < |searched| ==> !present(searched[i])
    ensures r == Locate(searched + LaterCandidates(env, cwd, configDir), present)
  {
    if ConfigEnvVar in env {
      var path := env[ConfigEnvVar];
      if present(path) {
        EnvCandidateFound(searched, env, cwd, configDir, present);
        return Found(path);
      }
      var tried := searched + [path];
      EnvCandidateAbsent(searched, env, cwd, configDir, present);
      r := TryAncestors(tried, cwd, configDir, present);
    } else {
      assert searched + LaterCandidates(env, cwd, configDir) == searched + AncestorsThenDefaults(cwd, configDir);
      r := TryAncestors(searched, cwd, configDir, present);
    }
  }

  lemma EnvCandidateFound(searched: seq<string>, env: map<string, string>, cwd: Option<seq<string>>,
                          configDir: Option<seq<string>>, present: string -> bool)
    requires forall i :: 0 <= i < |searched| ==> !present(searched[i])
    requires ConfigEnvVar in env && present(env[ConfigEnvVar])
    ensures Locate(searched + LaterCandidates(env, cwd, configDir), present) == Found(env[ConfigEnvVar])
  {
    var tail := AncestorsThenDefaults(cwd, configDir);
    assert LaterCandidates(env, cwd, configDir) == [env[ConfigEnvVar]] + tail;
    LocateAfterAbsent(searched, [env[ConfigEnvVar]] + tail, present);
  }

  lemma EnvCandidateAbsent(searched: seq<string>, env: map<string, string>, cwd: Option<seq<string>>,
                           configDir: Option<seq<string>>, present: string -> bool)
    requires forall i :: 0 <= i < |searched| ==> !present(searched[i])
    requires ConfigEnvVar in env && !present(env[ConfigEnvVar])
    ensures var tried := searched + [env[ConfigEnvVar]];
      (forall i :: 0 <= i < |tried| ==> !present(tried[i]))
      && searched + LaterCandidates(env, cwd, configDir) == tried + AncestorsThenDefaults(cwd, configDir)
  {
    var path := env[ConfigEnvVar];
    var tail := AncestorsThenDefaults(cwd, configDir);
    assert LaterCandidates(env, cwd, configDir) == [path] + tail;
    assert searched + ([path] + tail) == (searched + [path]) + tail;
  }

  /** The working directory and its ancestors, then the defaults. */
  method TryAncestors(searched: seq<string>, cwd: Option<seq<string>>, configDir: Option<seq<string>>,
                      present: string -> bool) returns (r: Located)
    requires forall i :: 0 <= i < |searched| ==> !present(searched[i])
    ensures r == Locate(searched + AncestorsThenDefaults(cwd, configDir), present)
  {
    if cwd.None? {
      assert [] + DefaultCandidates(configDir) == DefaultCandidates(configDir);
      r := TryDefaults(searched, configDir, present);
      return;
    }
    var ancestors := AncestorCandidates(cwd.value);
    var defaults := DefaultCandidates(configDir);
    var found, inAncestors := SearchAncestors(cwd.value, present);
    if found.Some? {
      LocateFoundPrefix(ancestors, defaults, present);
      LocateAfterAbsent(searched, ancestors + defaults, present);
      return Found(found.value);
    }
    assert searched + (ancestors + defaults) == (searched + inAncestors) + defaults;
    r := TryDefaults(searched + inAncestors, configDir, present);
  }

  /** The last two candidates, after every earlier one was found absent. */
  method TryDefaults(searched: seq<string>, configDir: Option<seq<string>>, present: string -> bool) returns (r: Located)
    requires forall i :: 0 <= i < |searched| ==> !present(searched[i])
    ensures r == Locate(searched + DefaultCandidates(configDir), present)
  {
    var tried := searched;
    if configDir.Some? {
      var userConfig := PathOf(configDir.value + ["riley_cms", "config.toml"]);
      if present(userConfig) {
        LocateAfterAbsent(searched, DefaultCandidates(configDir), present);
        return Found(userConfig);
      }
      tried := tried + [userConfig];
    }
    assert searched + DefaultCandidates(configDir) == tried + [SystemConfig];
    if present(SystemConfig) {
      LocateAfterAbsent(tried, [SystemConfig], present);
      return Found(SystemConfig);
    }
    tried := tried + [SystemConfig];
    LocateAfterAbsent(tried, [], present);
    assert tried + [] == tried;
    return NotFound(tried);
  }

  /** The search always ends at `/etc`, so `searched` is never empty and ends with the system default. */
  lemma SearchEndsAtSystemDefault(explicit: Option<string>, env: map<string, string>, cwd: Option<seq<string>>,
                                  configDir: Option<seq<string>>, present: string -> bool)
    requires Locate(Candidates(explicit, env, cwd, configDir), present).NotFound?
    ensures var s := Locate(Candidates(explicit, env, cwd, configDir), present).searched;
      |s| >= 1 && s[|s| - 1] == SystemConfig
  {
    LocateFindsFirst(Candidates(explicit, env, cwd, configDir), present);
  }
}
