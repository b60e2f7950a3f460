/**
 * `framework.db`: how a `Database` chooses its engine URL (an explicit URL,
 * or one assembled from five PostgreSQL environment variables), the state
 * its constructor leaves behind, and the dynamic loading of model modules
 * from a list of directories.
 *
 * The environment is a map from the variables that are set to their values;
 * a directory listing is given as a map from each existing directory to the
 * file names `os.listdir` returns for it, and which module imports raise is
 * given as a map from the file's path to the error's text.
 */
module Db {
  import opened Values

  datatype Result<T> = Success(value: T) | Failure(error: string)

  type Env = map<string, string>

  /** The variables `_set_engine` checks, in the order it checks them. */
  const RequiredKeys: seq<string> := ["POSTGRES_USER", "POSTGRES_PASSWORD", "POSTGRES_HOST", "POSTGRES_PORT", "POSTGRES_DB"]

  /** `os.getenv(key)`. */
  function GetEnv(env: Env, key: string): (r: Option<string>)
    ensures r.Some? <==> key in env
    ensures r.Some? ==> r.value == env[key]
  {
    if key in env then Some(env[key]) else None
  }

  /** `not os.getenv(key)`: an unset variable and an empty one are both missing. */
  predicate Missing(env: Env, key: string) {
    key !in env || env[key] == ""
  }

  /** The missing keys among `keys`, in the order of `keys`. */
  function MissingKeys(env: Env, keys: seq<string>): (r: seq<string>)
    ensures forall k :: k in r <==> k in keys && Missing(env, k)
    ensures |r| <= |keys|
  {
    if keys == [] then []
    else
      var init := MissingKeys(env, keys[..|keys| - 1]);
      assert keys == keys[..|keys| - 1] + [keys[|keys| - 1]];
      if Missing(env, keys[|keys| - 1]) then init + [keys[|keys| - 1]] else init
  }

  /**
   * The loop of `_set_engine`: every key is read into `values` (which starts
   * with every key mapped to `None`), and the missing ones are appended to
   * `missing` in turn.
   */
  method CollectMissing(env: Env, keys: seq<string>) returns (missing: seq<string>, values: map<string, Option<string>>)
    ensures missing == MissingKeys(env, keys)
    ensures values.Keys == set k | k in keys
    ensures forall i :: 0 <= i < |keys| ==> values[keys[i]] == GetEnv(env, keys[i])
  {
    missing := [];
    values := map k | k in keys :: None;
    for i := 0 to |keys|
      invariant missing == MissingKeys(env, keys[..i])
      invariant values.Keys == set k | k in keys
      invariant forall j :: 0 <= j < i ==> values[keys[j]] == GetEnv(env, keys[j])
    {
      var value := GetEnv(env, keys[i]);
      if value.None? || value.value == "" {
        missing := missing + [keys[i]];
      }
      values := values[keys[i] := value];
      assert keys[..i + 1][..i] == keys[..i];
    }
    assert keys[..|keys|] == keys;
  }

  /** The text of the `EnvironmentError` raised when variables are missing. */
  function MissingMessage(missing: seq<string>): (m: string)
    ensures |m| >= 40 && m[..40] == "Missing required environment variables: "
  {
    "Missing required environment variables: " + Join(missing, ", ")
  }

  /** The URL assembled from the five variables. No part has a default. */
  function PostgresUrl(user: string, password: string, host: string, port: string, name: string): (url: string)
    ensures |url| >= 22 && url[..22] == "postgresql+psycopg2://"
  {
    "postgresql+psycopg2://" + user + ":" + password + "@" + host + ":" + port + "/" + name
  }

  /** Python's truthiness of the `database_url` argument. */
  predicate GivenUrl(databaseUrl: Option<string>) {
    databaseUrl.Some? && databaseUrl.value != ""
  }

  /** The five variable names are the five entries of `RequiredKeys`. */
  lemma KeysListed()
    ensures RequiredKeys[0] == "POSTGRES_USER" && RequiredKeys[1] == "POSTGRES_PASSWORD"
    ensures RequiredKeys[2] == "POSTGRES_HOST" && RequiredKeys[3] == "POSTGRES_PORT" && RequiredKeys[4] == "POSTGRES_DB"
  {
  }

  /** The URL `_set_engine` hands to `create_engine`, or the `EnvironmentError` it raises. */
  function ResolveUrl(databaseUrl: Option<string>, env: Env): (r: Result<string>)
    ensures GivenUrl(databaseUrl) ==> r == Success(databaseUrl.value)
    ensures !GivenUrl(databaseUrl) ==> (r.Failure? <==> exists k :: k in RequiredKeys && Missing(env, k))
    ensures !GivenUrl(databaseUrl) && r.Success? ==> forall k :: k in RequiredKeys ==> k in env && env[k] != ""
  {
    if GivenUrl(databaseUrl) then Success(databaseUrl.value)
    else
      var missing := MissingKeys(env, RequiredKeys);
      if missing != [] then
        assert missing[0] in missing;
        Failure(MissingMessage(missing))
      else
        assert forall i :: 0 <= i < |RequiredKeys| ==> RequiredKeys[i] in RequiredKeys;
        Success(PostgresUrl(env[RequiredKeys[0]], env[RequiredKeys[1]], env[RequiredKeys[2]],
                            env[RequiredKeys[3]], env[RequiredKeys[4]]))
  }

  /** `_set_engine`, up to the engine it creates: its URL, or the `EnvironmentError`. */
  method SetEngine(databaseUrl: Option<string>, env: Env) returns (r: Result<string>)
    ensures r == ResolveUrl(databaseUrl, env)
  {
    if GivenUrl(databaseUrl) {
      return Success(databaseUrl.value);
    }
    var missing, values := CollectMissing(env, RequiredKeys);
    if missing != [] {
      return Failure(MissingMessage(missing));
    }
    assert values["POSTGRES_USER"] == GetEnv(env, RequiredKeys[0]);
    assert values["POSTGRES_PASSWORD"] == GetEnv(env, RequiredKeys[1]);
    assert values["POSTGRES_HOST"] == GetEnv(env, RequiredKeys[2]);
    assert values["POSTGRES_PORT"] == GetEnv(env, RequiredKeys[3]);
    assert values["POSTGRES_DB"] == GetEnv(env, RequiredKeys[4]);
    r := Success(PostgresUrl(values["POSTGRES_USER"].value, values["POSTGRES_PASSWORD"].value, values["POSTGRES_HOST"].value,
                             values["POSTGRES_PORT"].value, values["POSTGRES_DB"].value));
  }

  /** An explicit, non-empty URL is used as it is, whatever the environment holds. */
  lemma GivenUrlIgnoresEnv(url: string, env1: Env, env2: Env)
    requires url != ""
    ensures ResolveUrl(Some(url), env1) == ResolveUrl(Some(url), env2) == Success(url)
  {
  }

  /** With every variable set and non-empty, the URL carries each of them in its place. */
  lemma EnvUrl(env: Env)
    requires forall k :: k in RequiredKeys ==> k in env && env[k] != ""
    ensures ResolveUrl(None, env) == ResolveUrl(Some(""), env)
    ensures ResolveUrl(None, env) ==
      Success("postgresql+psycopg2://" + env[RequiredKeys[0]] + ":" + env[RequiredKeys[1]] + "@" +
              env[RequiredKeys[2]] + ":" + env[RequiredKeys[3]] + "/" + env[RequiredKeys[4]])
  {
    KeysListed();
    NoneMissing(env, RequiredKeys);
  }

  /** The port has no default: without `POSTGRES_PORT` the environment route fails, naming only that variable. */
  lemma PortHasNoDefault(env: Env)
    requires forall k :: k in RequiredKeys && k != "POSTGRES_PORT" ==> k in env && env[k] != ""
    requires "POSTGRES_PORT" !in env
    ensures ResolveUrl(None, env) == Failure(MissingMessage(["POSTGRES_PORT"]))
  {
    var keys := RequiredKeys;
    KeysListed();
    assert keys[..4] == keys[..3] + [keys[3]];
    assert keys == keys[..4] + [keys[4]];
    NoneMissing(env, keys[..3]);
    assert MissingKeys(env, keys[..4]) == [keys[3]];
  }

  /** In an empty environment all five are reported, in the order they are checked. */
  lemma NothingSet()
    ensures ResolveUrl(None, map[]) == Failure(MissingMessage(RequiredKeys))
  {
    AllMissing(map[], RequiredKeys);
  }

  /**
   * The testing route the module docstring documents does not exist: with
   * only `DATABASE_URL` set, the environment route fails naming all five.
   */
  lemma DatabaseUrlIgnored(url: string)
    ensures ResolveUrl(None, map["DATABASE_URL" := url]) == Failure(MissingMessage(RequiredKeys))
  {
    AllMissing(map["DATABASE_URL" := url], RequiredKeys);
  }

  /**
   * `_set_engine` reads no variable but the five `POSTGRES_*` ones: two
   * environments that agree on those resolve alike, whatever they hold for
   * `DATABASE_URL` or the documented pool settings.
   */
  lemma ReadsOnlyRequiredKeys(databaseUrl: Option<string>, env1: Env, env2: Env)
    requires forall k :: k in RequiredKeys ==> (k in env1 <==> k in env2) && (k in env1 ==> env1[k] == env2[k])
    ensures ResolveUrl(databaseUrl, env1) == ResolveUrl(databaseUrl, env2)
  {
    MissingKeysAgree(env1, env2, RequiredKeys);
    assert forall i :: 0 <= i < |RequiredKeys| ==> RequiredKeys[i] in RequiredKeys;
  }

  /** Missing keys depend only on the variables checked. */
  lemma {:induction false} MissingKeysAgree(env1: Env, env2: Env, keys: seq<string>)
    requires forall k :: k in keys ==> (k in env1 <==> k in env2) && (k in env1 ==> env1[k] == env2[k])
    ensures MissingKeys(env1, keys) == MissingKeys(env2, keys)
  {
    if keys != [] {
      var last := keys[|keys| - 1];
      assert keys == keys[..|keys| - 1] + [last];
      assert Missing(env1, last) == Missing(env2, last);
      MissingKeysAgree(env1, env2, keys[..|keys| - 1]);
    }
  }

  /** When no key is missing, none is collected. */
  lemma NoneMissing(env: Env, keys: seq<string>)
    requires forall k :: k in keys ==> !Missing(env, k)
    ensures MissingKeys(env, keys) == []
  {
  }

  /** When every key is missing, all of them are collected, in order. */
  lemma {:induction false} AllMissing(env: Env, keys: seq<string>)
    requires forall k :: k in keys ==> Missing(env, k)
    ensures MissingKeys(env, keys) == keys
  {
    if keys != [] {
      AllMissing(env, keys[..|keys| - 1]);
      assert keys == keys[..|keys| - 1] + [keys[|keys| - 1]];
    }
  }

  /** A connection engine, known by its URL. */
  datatype Engine = Engine(url: string)

  /** A `sessionmaker`, known by what it is bound to. */
  datatype SessionFactory = SessionFactory(bind: Option<Engine>)

  /** What `_import_models` does with one file or one directory. */
  datatype ImportEvent =
    | Loaded(moduleName: string, path: string)
    | ImportFailed(filename: string, dir: string, error: string)
    | SkippedPath(dir: string)

  /** The file names `_import_models` loads: Python sources other than the package marker. */
  predicate IsModelFile(name: string) {
    EndsWith(name, ".py") && name != "__init__.py"
  }

  /** The module name a model file is loaded under: the file name without `.py`, prefixed. */
  function ModuleName(name: string): (m: string)
    requires IsModelFile(name)
    ensures |m| == |name| + 11
  {
    "dynamic_model_" + name[..|name| - 3]
  }

  /** Distinct file names are loaded under distinct module names. */
  lemma ModuleNameInjective(a: string, b: string)
    requires IsModelFile(a) && IsModelFile(b) && ModuleName(a) == ModuleName(b)
    ensures a == b
  {
    var sa, sb := a[..|a| - 3], b[..|b| - 3];
    assert ModuleName(a)[14..] == sa && ModuleName(b)[14..] == sb;
    assert a == sa + ".py" && b == sb + ".py";
  }

  /** `os.path.join(dir, name)`. */
  function PathJoin(dir: string, name: string): string {
    if dir == "" || dir[|dir| - 1] == '/' then dir + name else dir + "/" + name
  }

  /** What loading the files `names` of directory `dir` does, in listing order. */
  function DirEvents(dir: string, names: seq<string>, failures: map<string, string>): (r: seq<ImportEvent>)
    ensures forall e :: e in r ==> (e.Loaded? || e.ImportFailed?)
    ensures forall e :: e in r && e.ImportFailed? ==> e.dir == dir
    ensures |r| <= |names|
  {
    if names == [] then []
    else
      var name := names[|names| - 1];
      var path := PathJoin(dir, name);
      DirEvents(dir, names[..|names| - 1], failures) +
        if !IsModelFile(name) then []
        else if path in failures then [ImportFailed(name, dir, failures[path])]
        else [Loaded(ModuleName(name), path)]
  }

  /** What `_import_models` does over the directories `paths`, in order. */
  function ImportEvents(paths: seq<string>, listing: map<string, seq<string>>, failures: map<string, string>)
    : (r: seq<ImportEvent>)
  {
    if paths == [] then []
    else
      var dir := paths[|paths| - 1];
      ImportEvents(paths[..|paths| - 1], listing, failures) +
        if dir !in listing then [SkippedPath(dir)] else DirEvents(dir, listing[dir], failures)
  }

  /**
   * A directory is reported as skipped exactly when it is absent from the
   * listing, and every import failure belongs to a listed directory.
   */
  lemma {:induction false} ImportEventsDirs(paths: seq<string>, listing: map<string, seq<string>>,
                                            failures: map<string, string>)
    ensures forall e :: e in ImportEvents(paths, listing, failures) && e.SkippedPath? ==> e.dir in paths && e.dir !in listing
    ensures forall e :: e in ImportEvents(paths, listing, failures) && e.ImportFailed? ==> e.dir in paths && e.dir in listing
  {
    if paths != [] {
      var init := paths[..|paths| - 1];
      ImportEventsDirs(init, listing, failures);
      assert forall d :: d in init ==> d in paths;
    }
  }

  /** One more directory adds its own events after those of the earlier ones. */
  lemma ImportEventsStep(paths: seq<string>, i: int, listing: map<string, seq<string>>, failures: map<string, string>)
    requires 0 <= i < |paths|
    ensures ImportEvents(paths[..i + 1], listing, failures) ==
      ImportEvents(paths[..i], listing, failures) +
        if paths[i] !in listing then [SkippedPath(paths[i])] else DirEvents(paths[i], listing[paths[i]], failures)
  {
    assert paths[..i + 1][..i] == paths[..i];
  }

  /** Only model files of listed directories are loaded, each under its own module name, from its own path. */
  lemma {:induction false} LoadedAreModelFiles(paths: seq<string>, listing: map<string, seq<string>>,
                                               failures: map<string, string>, e: ImportEvent)
    requires e in ImportEvents(paths, listing, failures) && e.Loaded?
    ensures exists dir, name ::
              && dir in paths && dir in listing && name in listing[dir] && IsModelFile(name)
              && e.path == PathJoin(dir, name) && e.path !in failures && e.moduleName == ModuleName(name)
  {
    var dir := paths[|paths| - 1];
    var init := ImportEvents(paths[..|paths| - 1], listing, failures);
    if e in init {
      LoadedAreModelFiles(paths[..|paths| - 1], listing, failures, e);
    } else {
      DirLoadedAreModelFiles(dir, listing[dir], failures, e);
    }
  }

  lemma {:induction false} DirLoadedAreModelFiles(dir: string, names: seq<string>, failures: map<string, string>, e: ImportEvent)
    requires e in DirEvents(dir, names, failures) && e.Loaded?
    ensures exists name ::
              && name in names && IsModelFile(name)
              && e.path == PathJoin(dir, name) && e.path !in failures && e.moduleName == ModuleName(name)
  {
    var name := names[|names| - 1];
    if e in DirEvents(dir, names[..|names| - 1], failures) {
      DirLoadedAreModelFiles(dir, names[..|names| - 1], failures, e);
    } else {
      assert name in names;
    }
  }

  /** Every model file of one directory is either loaded or reported; a failure does not stop the rest. */
  lemma {:induction false} DirAttemptsEveryModelFile(dir: string, names: seq<string>, failures: map<string, string>, name: string)
    requires name in names && IsModelFile(name)
    ensures PathJoin(dir, name) !in failures ==> Loaded(ModuleName(name), PathJoin(dir, name)) in DirEvents(dir, names, failures)
    ensures PathJoin(dir, name) in failures ==>
      ImportFailed(name, dir, failures[PathJoin(dir, name)]) in DirEvents(dir, names, failures)
  {
    if name != names[|names| - 1] {
      assert name in names[..|names| - 1] by {
        assert names == names[..|names| - 1] + [names[|names| - 1]];
      }
      DirAttemptsEveryModelFile(dir, names[..|names| - 1], failures, name);
    }
  }

  /**
   * Over the whole nested loop: every model file of every existing directory
   * in `paths` is either loaded or reported, whatever failed before it.
   */
  lemma {:induction false} AttemptsEveryModelFile(paths: seq<string>, listing: map<string, seq<string>>,
                                                  failures: map<string, string>, dir: string, name: string)
    requires dir in paths && dir in listing && name in listing[dir] && IsModelFile(name)
    ensures PathJoin(dir, name) !in failures ==>
      Loaded(ModuleName(name), PathJoin(dir, name)) in ImportEvents(paths, listing, failures)
    ensures PathJoin(dir, name) in failures ==>
      ImportFailed(name, dir, failures[PathJoin(dir, name)]) in ImportEvents(paths, listing, failures)
  {
    var last := paths[|paths| - 1];
    if dir == last {
      DirAttemptsEveryModelFile(dir, listing[dir], failures, name);
    } else {
      assert dir in paths[..|paths| - 1] by {
        assert paths == paths[..|paths| - 1] + [last];
      }
      AttemptsEveryModelFile(paths[..|paths| - 1], listing, failures, dir, name);
    }
  }

  /**
   * The module name drops the directory: a model file name listed in two
   * directories is loaded twice under one module name, though the comment at
   * the call means the name to avoid that clash.
   */
  lemma SameFileNameSharesModule(paths: seq<string>, listing: map<string, seq<string>>,
                                 failures: map<string, string>, d1: string, d2: string, name: string)
    requires d1 in paths && d1 in listing && name in listing[d1]
    requires d2 in paths && d2 in listing && name in listing[d2]
    requires IsModelFile(name) && PathJoin(d1, name) !in failures && PathJoin(d2, name) !in failures
    ensures Loaded(ModuleName(name), PathJoin(d1, name)) in ImportEvents(paths, listing, failures)
    ensures Loaded(ModuleName(name), PathJoin(d2, name)) in ImportEvents(paths, listing, failures)
    ensures d1 != d2 && Plain(d1) && Plain(d2) ==> PathJoin(d1, name) != PathJoin(d2, name)
  {
    AttemptsEveryModelFile(paths, listing, failures, d1, name);
    AttemptsEveryModelFile(paths, listing, failures, d2, name);
    if Plain(d1) && Plain(d2) {
      PathJoinInjective(d1, d2, name);
    }
  }

  /** Joined under a separator, distinct directories give distinct paths. */
  lemma PathJoinInjective(d1: string, d2: string, name: string)
    requires Plain(d1) && Plain(d2)
    ensures PathJoin(d1, name) == PathJoin(d2, name) ==> d1 == d2
  {
    var p1, p2 := PathJoin(d1, name), PathJoin(d2, name);
    assert p1[..|d1|] == d1 && p2[..|d2|] == d2;
  }

  /** A directory path that `os.path.join` extends with a separator. */
  predicate Plain(dir: string) {
    dir != "" && dir[|dir| - 1] != '/'
  }

  /** The clash on a concrete listing: `a/x.py` and `b/x.py` both load as `dynamic_model_x`. */
  lemma SameFileNameExample()
    ensures ImportEvents(["a", "b"], map["a" := ["x.py"], "b" := ["x.py"]], map[]) ==
      [Loaded("dynamic_model_x", "a/x.py"), Loaded("dynamic_model_x", "b/x.py")]
  {
    var listing := map["a" := ["x.py"], "b" := ["x.py"]];
    assert IsModelFile("x.py");
    assert ModuleName("x.py") == "dynamic_model_x";
    assert ["x.py"][..0] == [];
    assert PathJoin("a", "x.py") == "a/x.py" && PathJoin("b", "x.py") == "b/x.py";
    assert DirEvents("a", ["x.py"], map[]) == [Loaded("dynamic_model_x", "a/x.py")];
    assert DirEvents("b", ["x.py"], map[]) == [Loaded("dynamic_model_x", "b/x.py")];
    assert ["a", "b"][..1] == ["a"];
    assert ImportEvents(["a"], listing, map[]) == [Loaded("dynamic_model_x", "a/x.py")];
  }

  /** Every path that is not an existing directory is reported as skipped, and nothing else is. */
  lemma {:induction false} SkipsExactlyMissingDirs(paths: seq<string>, listing: map<string, seq<string>>,
                                                   failures: map<string, string>, dir: string)
    ensures SkippedPath(dir) in ImportEvents(paths, listing, failures) <==> dir in paths && dir !in listing
  {
    if paths != [] {
      var last := paths[|paths| - 1];
      SkipsExactlyMissingDirs(paths[..|paths| - 1], listing, failures, dir);
      assert paths == paths[..|paths| - 1] + [last];
      if last in listing {
        assert SkippedPath(dir) !in DirEvents(last, listing[last], failures);
      }
    }
  }

  /**
   * A `Database` after its constructor returns: `_engine` is still `None`,
   * since `_set_engine` assigns `engine` instead, and the session factory is
   * bound to `_engine`.
   */
  class Database<B> {
    const base: B
    var privateEngine: Option<Engine>
    var engine: Engine
    var session: SessionFactory
    var modelPaths: seq<string>
    var imports: seq<ImportEvent>

    /** `__init__` from line 38 on, given the URL `_set_engine` resolved. */
    constructor (base: B, url: string, modelPaths: Option<seq<string>>)
      ensures this.base == base && privateEngine == None && engine == Engine(url)
      ensures session == SessionFactory(privateEngine)
      ensures this.modelPaths == (if modelPaths.Some? then modelPaths.value else [])
      ensures imports == []
    {
      this.base := base;
      privateEngine := None;
      engine := Engine(url);
      session := SessionFactory(None);
      this.modelPaths := if modelPaths.Some? then modelPaths.value else [];
      imports := [];
    }

    /** `_import_models`: loads the model files of each directory in `modelPaths`, in order. */
    method ImportModels(listing: map<string, seq<string>>, failures: map<string, string>)
      modifies this`imports
      ensures imports == old(imports) + ImportEvents(modelPaths, listing, failures)
    {
      if modelPaths == [] {
        return;
      }
      for i := 0 to |modelPaths|
        invariant imports == old(imports) + ImportEvents(modelPaths[..i], listing, failures)
      {
        var dir := modelPaths[i];
        ImportEventsStep(modelPaths, i, listing, failures);
        if dir !in listing {
          imports := imports + [SkippedPath(dir)];
        } else {
          ImportDir(dir, listing[dir], failures);
        }
      }
      assert modelPaths[..|modelPaths|] == modelPaths;
    }

    /** The inner loop of `_import_models`: the files of one directory, in listing order. */
    method ImportDir(dir: string, names: seq<string>, failures: map<string, string>)
      modifies this`imports
      ensures imports == old(imports) + DirEvents(dir, names, failures)
    {
      for j := 0 to |names|
        invariant imports == old(imports) + DirEvents(dir, names[..j], failures)
      {
        var name := names[j];
        assert names[..j + 1][..j] == names[..j];
        if EndsWith(name, ".py") && name != "__init__.py" {
          var path := PathJoin(dir, name);
          if path in failures {
            imports := imports + [ImportFailed(name, dir, failures[path])];
          } else {
            imports := imports + [Loaded(ModuleName(name), path)];
          }
        }
      }
      assert names[..|names|] == names;
    }
  }

  /**
   * `Database(base, model_paths, database_url)`. Three steps can raise: the
   * URL resolution of `_set_engine`, `create_engine` (`engineFault`, e.g. an
   * unparsable URL or a missing driver) and `metadata.create_all(self._engine)`
   * (`createAllFault`), which runs after the models are imported and is given
   * `_engine`, still `None`. The constructor returns only when none raises.
   */
  method NewDatabase<B>(base: B, modelPaths: Option<seq<string>>, databaseUrl: Option<string>, env: Env,
                        engineFault: Option<string>, listing: map<string, seq<string>>, failures: map<string, string>,
                        createAllFault: Option<string>)
    returns (r: Result<Database<B>>)
    ensures ResolveUrl(databaseUrl, env).Failure? ==> r == Failure(ResolveUrl(databaseUrl, env).error)
    ensures ResolveUrl(databaseUrl, env).Success? && engineFault.Some? ==> r == Failure(engineFault.value)
    ensures ResolveUrl(databaseUrl, env).Success? && engineFault.None? && createAllFault.Some? ==>
      r == Failure(createAllFault.value)
    ensures r.Success? <==> ResolveUrl(databaseUrl, env).Success? && engineFault.None? && createAllFault.None?
    ensures r.Success? ==>
      && fresh(r.value)
      && r.value.base == base && r.value.privateEngine == None
      && r.value.engine == Engine(ResolveUrl(databaseUrl, env).value)
      && r.value.session == SessionFactory(None)
      && r.value.modelPaths == (if modelPaths.Some? then modelPaths.value else [])
      && r.value.imports == ImportEvents(r.value.modelPaths, listing, failures)
  {
    var url := SetEngine(databaseUrl, env);
    if url.Failure? {
      return Failure(url.error);
    }
    if engineFault.Some? {
      return Failure(engineFault.value);
    }
    var db := new Database(base, url.value, modelPaths);
    db.ImportModels(listing, failures);
    if createAllFault.Some? {
      return Failure(createAllFault.value);
    }
    r := Success(db);
  }
}
