// ServerManager (python/src/milvus/server_manager.py): a registry from
// canonical db paths to legacy Servers, with create-or-reuse and release. The
// registry's mutex only serialises calls, so the model is sequential; path
// resolution on the real file system, `init()`'s existence checks and the
// servers' lock and exit outcomes are oracles passed in as parameters.
module ServerManager {
  import opened Wrappers
  import opened PyPath
  import opened Supervisor
  import PyRuntime
  import LegacyServer

  /** `str(pathlib.Path(path).absolute().resolve())`, where `resolve` follows links and ".." on the file system. */
  function CanonicalKey(path: string, cwd: Path, resolve: Path -> Path): string
  {
    Str(resolve(Parse(path, cwd)))
  }

  /** A proper dict that holds each server once and keys each server by the text of its own db file. */
  predicate Registry(d: PyRuntime.Dict<LegacyServer.Server>)
  {
    PyRuntime.DictValid(d)
    && (forall k1, k2 | k1 in d.entries && k2 in d.entries && k1 != k2 :: d.entries[k1] != d.entries[k2])
    && (forall k | k in d.entries :: Str(d.entries[k].layout.dbFile) == k)
  }

  /** Registering a new server under its own db file's text keeps the registry proper. */
  lemma RegisterKeepsRegistry(d: PyRuntime.Dict<LegacyServer.Server>, key: string, s: LegacyServer.Server)
    requires Registry(d) && key !in d.entries && s !in d.entries.Values
    requires Str(s.layout.dbFile) == key
    ensures Registry(PyRuntime.Put(d, key, s))
  {
    var r := PyRuntime.Put(d, key, s);
    forall k1, k2 | k1 in r.entries && k2 in r.entries && k1 != k2 ensures r.entries[k1] != r.entries[k2] {
      if k1 == key {
        assert r.entries[k2] == d.entries[k2];
        assert d.entries[k2] in d.entries.Values;
      } else if k2 == key {
        assert r.entries[k1] == d.entries[k1];
        assert d.entries[k1] in d.entries.Values;
      }
    }
  }

  /** Forgetting a registered server keeps the registry proper. */
  lemma ForgetKeepsRegistry(d: PyRuntime.Dict<LegacyServer.Server>, key: string)
    requires Registry(d) && key in d.entries
    ensures Registry(PyRuntime.Del(d, key))
  {
  }

  /** `d.values()`: the registered servers in insertion order, each one once. */
  function Values(d: PyRuntime.Dict<LegacyServer.Server>): (vs: seq<LegacyServer.Server>)
    requires Registry(d)
    ensures |vs| == |d.keys| && forall j | 0 <= j < |vs| :: vs[j] == d.entries[d.keys[j]]
    ensures forall a, b | 0 <= a < b < |vs| :: vs[a] != vs[b]
    ensures forall j | 0 <= j < |vs| :: vs[j] in d.entries.Values
  {
    seq(|d.keys|, j requires 0 <= j < |d.keys| => d.entries[d.keys[j]])
  }

  class Manager {
    var servers: PyRuntime.Dict<LegacyServer.Server>

    /** The registry is proper. */
    predicate Valid()
      reads this
    {
      Registry(servers)
    }

    constructor ()
      ensures Valid() && servers.entries == map[]
    {
      servers := PyRuntime.EmptyDict();
    }

    /**
     * `start_and_get_uri(path, args)`: a registered path answers with its
     * server's socket address at once; otherwise a new server is built (its
     * RuntimeError propagates), dropped if `init()` fails, and otherwise
     * registered before it is started, so that it stays registered even
     * when the start fails.
     */
    method StartAndGetUri(path: string, argsOverride: Option<seq<string>>, cwd: Path, resolve: Path -> Path,
                          environ: map<string, string>, defaultBin: string,
                          binExists: bool, workDirExists: bool, lockFree: bool)
      returns (r: PyRuntime.Outcome<Option<string>>)
      requires Valid()
      requires WellFormed(resolve(Parse(path, cwd)))
      modifies this
      ensures Valid()
      ensures var key := CanonicalKey(path, cwd, resolve);
        key in old(servers.entries) ==>
          servers == old(servers) && r == PyRuntime.Returned(Some(LegacyServer.UdsPath(servers.entries[key].layout)))
      ensures var key := CanonicalKey(path, cwd, resolve);
        var made := LegacyServer.NewLayout(environ, defaultBin, cwd, key, argsOverride);
        key !in old(servers.entries) ==>
          (made.Raised? ==> r == PyRuntime.Raised(made.error) && servers == old(servers))
          && (made.Returned? && !InitOk(binExists, workDirExists) ==> r == PyRuntime.Returned(None) && servers == old(servers))
          && (made.Returned? && InitOk(binExists, workDirExists) ==>
                key in servers.entries && fresh(servers.entries[key])
                && servers == PyRuntime.Put(old(servers), key, servers.entries[key])
                && servers.entries[key].layout == made.value
                && servers.entries[key].State() == LegacyServer.StartSpec(made.value, Idle, environ, lockFree).1
                && r == PyRuntime.Returned(if lockFree then Some(LegacyServer.UdsPath(made.value)) else None))
    {
      var key := CanonicalKey(path, cwd, resolve);
      if key in servers.entries {
        return PyRuntime.Returned(Some(LegacyServer.UdsPath(servers.entries[key].layout)));
      }
      var made := LegacyServer.Server.New(environ, defaultBin, cwd, key, argsOverride);
      if made.Raised? {
        return PyRuntime.Raised(made.error);
      }
      var s := made.value;
      if !InitOk(binExists, workDirExists) {
        return PyRuntime.Returned(None);
      }
      ParseOfStr(resolve(Parse(path, cwd)), cwd);
      r := RegisterAndStart(key, s, environ, lockFree);
    }

    /** Registers a new idle server under its own db file's text, then starts it. */
    method RegisterAndStart(key: string, s: LegacyServer.Server, environ: map<string, string>, lockFree: bool)
      returns (r: PyRuntime.Outcome<Option<string>>)
      requires Valid() && key !in servers.entries && s !in servers.entries.Values
      requires Str(s.layout.dbFile) == key && s.State() == Idle
      modifies this, s
      ensures Valid() && servers == PyRuntime.Put(old(servers), key, s)
      ensures s.State() == LegacyServer.StartSpec(s.layout, Idle, environ, lockFree).1
      ensures r == PyRuntime.Returned(if lockFree then Some(LegacyServer.UdsPath(s.layout)) else None)
    {
      RegisterKeepsRegistry(servers, key, s);
      servers := PyRuntime.Put(servers, key, s);
      var started := s.Start(environ, lockFree);
      if started.Raised? || !started.value {
        return PyRuntime.Returned(None);
      }
      return PyRuntime.Returned(Some(LegacyServer.UdsPath(s.layout)));
    }

    /** `release_server(path)`: an unknown path only warns; a known one is stopped and then forgotten. */
    method ReleaseServer(path: string, cwd: Path, resolve: Path -> Path, childExits: bool)
      returns (steps: seq<Step>)
      requires Valid()
      modifies this, servers.entries.Values
      ensures Valid()
      ensures var key := CanonicalKey(path, cwd, resolve);
        key !in old(servers.entries) ==> servers == old(servers) && steps == [] && unchanged(old(servers.entries.Values))
      ensures var key := CanonicalKey(path, cwd, resolve);
        key in old(servers.entries) ==>
          servers == PyRuntime.Del(old(servers), key)
          && old(servers.entries[key]).State() == Idle
          && steps == LegacyServer.StopSpec(old(servers.entries[key].State()), childExits).0
          && forall k | k in servers.entries :: unchanged(servers.entries[k])
    {
      var key := CanonicalKey(path, cwd, resolve);
      if key !in servers.entries {
        return [];
      }
      var s := servers.entries[key];
      steps := s.Stop(childExits);
      ForgetKeepsRegistry(servers, key);
      servers := PyRuntime.Del(servers, key);
    }

    /** `release_all()`: stops every registered server, in insertion order, and keeps them all registered. */
    method ReleaseAll(childExits: string -> bool) returns (steps: seq<seq<Step>>)
      requires Valid()
      modifies servers.entries.Values
      ensures Valid() && servers == old(servers)
      ensures |steps| == |servers.keys|
      ensures forall i | 0 <= i < |servers.keys| ::
                steps[i] == LegacyServer.StopSpec(old(servers.entries[servers.keys[i]].State()), childExits(servers.keys[i])).0
      ensures forall k | k in servers.entries :: servers.entries[k].State() == Idle
    {
      var d := servers;
      var values := Values(d);
      steps := StopEach(values, d.keys, childExits);
      forall k | k in d.entries ensures d.entries[k].State() == Idle {
        var j :| 0 <= j < |d.keys| && d.keys[j] == k;
        assert d.entries[k] == values[j];
      }
    }

    /** Stops the given distinct servers one after the other, server j with `childExits(names[j])`. */
    static method StopEach(values: seq<LegacyServer.Server>, names: seq<string>, childExits: string -> bool)
      returns (steps: seq<seq<Step>>)
      requires |names| == |values|
      requires forall a, b | 0 <= a < b < |values| :: values[a] != values[b]
      modifies set j | 0 <= j < |values| :: values[j]
      ensures |steps| == |values|
      ensures forall j | 0 <= j < |values| ::
                values[j].State() == Idle && steps[j] == LegacyServer.StopSpec(old(values[j].State()), childExits(names[j])).0
    {
      steps := [];
      var i := 0;
      while i < |values|
        invariant i <= |values| && |steps| == i
        invariant forall j | 0 <= j < i ::
                    values[j].State() == Idle && steps[j] == LegacyServer.StopSpec(old(values[j].State()), childExits(names[j])).0
        invariant forall j | i <= j < |values| :: values[j].State() == old(values[j].State())
      {
        var done := values[i].Stop(childExits(names[i]));
        steps := steps + [done];
        i := i + 1;
      }
    }
  }

  /**
   * A start that fails leaves its server registered, so asking again for the
   * same path answers with that server's socket address without starting it.
   */
  method RepeatAfterFailedStart(m: Manager, path: string, cwd: Path, resolve: Path -> Path,
                                environ: map<string, string>, defaultBin: string)
    returns (first: PyRuntime.Outcome<Option<string>>, second: PyRuntime.Outcome<Option<string>>)
    requires m.Valid()
    requires WellFormed(resolve(Parse(path, cwd)))
    requires CanonicalKey(path, cwd, resolve) !in m.servers.entries
    requires LegacyServer.NewLayout(environ, defaultBin, cwd, CanonicalKey(path, cwd, resolve), None).Returned?
    modifies m
    ensures first == PyRuntime.Returned(None)
    ensures second == PyRuntime.Returned(Some(LegacyServer.UdsPath(
              LegacyServer.NewLayout(environ, defaultBin, cwd, CanonicalKey(path, cwd, resolve), None).value)))
  {
    first := m.StartAndGetUri(path, None, cwd, resolve, environ, defaultBin, true, true, false);
    second := m.StartAndGetUri(path, None, cwd, resolve, environ, defaultBin, true, true, true);
  }
}
