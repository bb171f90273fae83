// The older Server of the `milvus` package (python/src/milvus/server.py), the
// one ServerManager keeps: the same name rule without a length limit, both
// side files hidden beside the db file, an optional verbatim argument list,
// no start-up watch, and a stop that ends the child before dropping the lock.
module LegacyServer {
  import opened Wrappers
  import opened PyPath
  import opened Supervisor
  import PyRuntime

  /** What `__init__` fixes: the binary directory, the db file, its directory, the argument override and the side paths. */
  datatype Layout = Layout(
    binPath: Path,
    dbFile: Path,
    workDir: Path,
    argsOverride: Option<seq<string>>,
    udsFile: string,
    lockPath: string)

  /**
   * `Server.__init__(db_file, args)`: any name of name characters is
   * accepted, and the socket and the lock file both sit beside the db file.
   */
  function NewLayout(environ: map<string, string>, defaultBin: string, cwd: Path,
                     dbFile: string, argsOverride: Option<seq<string>>): (r: PyRuntime.Outcome<Layout>)
    ensures r.Returned? <==> NameOk(Name(Parse(dbFile, cwd)))
    ensures r.Raised? ==> r.error == UnsupportedName(Name(Parse(dbFile, cwd)))
    ensures r.Returned? ==>
              r.value.dbFile == Parse(dbFile, cwd) && r.value.workDir == Parent(r.value.dbFile)
              && r.value.udsFile == Str(HiddenSibling(r.value.dbFile, ".sock"))
              && r.value.lockPath == Str(HiddenSibling(r.value.dbFile, ".lock"))
              && r.value.argsOverride == argsOverride
    ensures WellFormed(cwd) && r.Returned? ==> WellFormed(r.value.dbFile) && |r.value.dbFile.parts| > 0
  {
    var db := Parse(dbFile, cwd);
    if !NameOk(Name(db)) then PyRuntime.Raised(UnsupportedName(Name(db)))
    else PyRuntime.Returned(Layout(BinPath(environ, defaultBin, cwd), db, Parent(db), argsOverride,
                                   Str(HiddenSibling(db, ".sock")), Str(HiddenSibling(db, ".lock"))))
  }

  /** The socket and the lock file of one server are different files. */
  lemma SocketIsNotLock(environ: map<string, string>, defaultBin: string, cwd: Path,
                        dbFile: string, argsOverride: Option<seq<string>>)
    requires WellFormed(cwd)
    requires NewLayout(environ, defaultBin, cwd, dbFile, argsOverride).Returned?
    ensures var l := NewLayout(environ, defaultBin, cwd, dbFile, argsOverride).value;
      l.udsFile != l.lockPath
  {
    var l := NewLayout(environ, defaultBin, cwd, dbFile, argsOverride).value;
    HiddenSiblingsDiffer(l.dbFile, ".sock", ".lock");
  }

  /** Servers over different db files share neither a socket nor a lock file. */
  lemma SidePathsDistinct(environ: map<string, string>, defaultBin: string, cwd: Path,
                          a: string, b: string, argsA: Option<seq<string>>, argsB: Option<seq<string>>)
    requires WellFormed(cwd)
    requires NewLayout(environ, defaultBin, cwd, a, argsA).Returned?
    requires NewLayout(environ, defaultBin, cwd, b, argsB).Returned?
    requires Parse(a, cwd) != Parse(b, cwd)
    ensures var la := NewLayout(environ, defaultBin, cwd, a, argsA).value;
      var lb := NewLayout(environ, defaultBin, cwd, b, argsB).value;
      la.udsFile != lb.udsFile && la.lockPath != lb.lockPath
  {
    var la := NewLayout(environ, defaultBin, cwd, a, argsA).value;
    var lb := NewLayout(environ, defaultBin, cwd, b, argsB).value;
    if la.udsFile == lb.udsFile {
      HiddenSiblingInjective(la.dbFile, lb.dbFile, ".sock");
    }
    if la.lockPath == lb.lockPath {
      HiddenSiblingInjective(la.dbFile, lb.dbFile, ".lock");
    }
  }

  /** The `uds_path` property: the socket as a gRPC address. */
  function UdsPath(l: Layout): string
  {
    "unix:" + l.udsFile
  }

  /** The `args` property: an explicit list verbatim, otherwise binary, db file, socket, log level and lock file. */
  function Args(l: Layout, environ: map<string, string>): (args: seq<string>)
    ensures l.argsOverride.Some? ==> args == l.argsOverride.value
    ensures l.argsOverride.None? ==>
              |args| == 5 && args[0] == MilvusBin(l.binPath) && args[1] == Str(l.dbFile)
              && args[2] == UdsPath(l) && args[3] == LogLevel(environ) && args[4] == l.lockPath
  {
    if l.argsOverride.Some? then l.argsOverride.value
    else [MilvusBin(l.binPath), Str(l.dbFile), UdsPath(l), LogLevel(environ), l.lockPath]
  }

  /** The child's whole environment: only LD_LIBRARY_PATH, set to the bin directory. */
  function StartEnv(l: Layout): (env: map<string, string>)
    ensures env.Keys == {"LD_LIBRARY_PATH"} && env["LD_LIBRARY_PATH"] == Str(l.binPath)
  {
    map["LD_LIBRARY_PATH" := Str(l.binPath)]
  }

  const AlreadyStarted: PyRuntime.PyError := PyRuntime.AssertionError("Server already started")

  /** `start()` from state `st`: `lockFree` says whether the exclusive non-blocking lock succeeds. */
  function StartSpec(l: Layout, st: ProcState, environ: map<string, string>, lockFree: bool)
    : (PyRuntime.Outcome<bool>, ProcState)
  {
    if st.p.Some? then (PyRuntime.Raised(AlreadyStarted), st)
    else if !lockFree then (PyRuntime.Returned(false), ProcState(None, Opened))
    else (PyRuntime.Returned(true), ProcState(Some(Process(Args(l, environ), StartEnv(l), Str(l.workDir))), Locked))
  }

  /**
   * `start` fails its assertion exactly when a child is recorded, and then
   * changes nothing; otherwise it always opens the lock file, and it takes
   * the lock, spawns the child and answers True exactly when the lock is free.
   */
  lemma StartSpecMeaning(l: Layout, st: ProcState, environ: map<string, string>, lockFree: bool)
    ensures var r := StartSpec(l, st, environ, lockFree);
      (r.0.Raised? <==> st.p.Some?)
      && (r.0.Raised? ==> r.0.error == AlreadyStarted && r.1 == st)
      && (r.0.Returned? ==> r.0.value == lockFree && r.1.lockFd != NoLock)
      && (r.0.Returned? ==> (r.1.p.Some? <==> lockFree) && (r.1.lockFd == Locked <==> lockFree))
      && (r.0.Returned? && r.1.p.Some? ==> r.1.p.value == Process(Args(l, environ), StartEnv(l), Str(l.workDir)))
  {
  }

  /** Ending a running child: terminate, wait 2 s, then SIGKILL and another wait if it is still alive. */
  function TerminateOrKill(st: ProcState, childExits: bool): seq<Step>
  {
    if st.p.None? then [] else if childExits then [Terminate, WaitExit] else [Terminate, WaitExit, Kill, WaitExit]
  }

  /** `stop()` from state `st`: the child is ended first, then the lock released, then both side files unlinked. */
  function StopSpec(st: ProcState, childExits: bool): (r: (seq<Step>, ProcState))
    ensures r.1 == Idle
    ensures |r.0| >= 2 && r.0[|r.0| - 2..] == Unlinks
  {
    (TerminateOrKill(st, childExits) + ReleaseLock(st) + Unlinks, Idle)
  }

  /**
   * `stop` always ends idle and with both unlinks; it unlocks exactly when a
   * lock file is open, terminates exactly when a child is recorded, and
   * kills exactly when that child outlives the first wait.
   */
  lemma StopSpecMeaning(st: ProcState, childExits: bool)
    ensures var r := StopSpec(st, childExits);
      r.1 == Idle
      && |r.0| >= 2 && r.0[|r.0| - 2..] == Unlinks
      && (UnlockFile in r.0 <==> st.lockFd != NoLock)
      && (Terminate in r.0 <==> st.p.Some?)
      && (Kill in r.0 <==> st.p.Some? && !childExits)
  {
  }

  /** A second `stop` only unlinks the (already removed) side files. */
  lemma StopIdempotent(st: ProcState, first: bool, second: bool)
    ensures StopSpec(StopSpec(st, first).1, second) == (Unlinks, Idle)
  {
    assert StopSpec(st, first).1 == Idle;
    assert TerminateOrKill(Idle, second) == [] && ReleaseLock(Idle) == [];
    assert StopSpec(Idle, second).0 == [] + [] + Unlinks;
    assert [] + [] + Unlinks == Unlinks;
    assert StopSpec(Idle, second) == (Unlinks, Idle);
  }

  /** With both a child and a lock, the child is terminated before the lock is released. */
  lemma StopTerminatesBeforeUnlocking(st: ProcState, childExits: bool)
    requires st.lockFd != NoLock && st.p.Some?
    ensures var steps := StopSpec(st, childExits).0;
      steps[0] == Terminate && steps[1] == WaitExit
      && exists i | 2 <= i < |steps| :: steps[i] == UnlockFile && forall j | i < j < |steps| :: steps[j] != WaitExit
  {
    var steps := StopSpec(st, childExits).0;
    var i := |TerminateOrKill(st, childExits)|;
    assert steps[i] == UnlockFile;
  }

  class Server {
    const layout: Layout
    var p: Option<Process>
    var lockFd: LockFd

    function State(): ProcState
      reads this
    {
      ProcState(p, lockFd)
    }

    constructor (layout: Layout)
      ensures this.layout == layout && State() == Idle
    {
      this.layout := layout;
      p := None;
      lockFd := NoLock;
    }

    /** `Server(db_file, args)`: the RuntimeError of a bad name, or a fresh idle server. */
    static method New(environ: map<string, string>, defaultBin: string, cwd: Path,
                      dbFile: string, argsOverride: Option<seq<string>>) returns (r: PyRuntime.Outcome<Server>)
      ensures r.Raised? ==> NewLayout(environ, defaultBin, cwd, dbFile, argsOverride) == PyRuntime.Raised(r.error)
      ensures r.Returned? ==> NewLayout(environ, defaultBin, cwd, dbFile, argsOverride) == PyRuntime.Returned(r.value.layout)
      ensures r.Returned? ==> fresh(r.value) && r.value.State() == Idle
    {
      var l := NewLayout(environ, defaultBin, cwd, dbFile, argsOverride);
      if l.Raised? {
        return PyRuntime.Raised(l.error);
      }
      var s := new Server(l.value);
      return PyRuntime.Returned(s);
    }

    /** `start()`: opens the lock file, takes the lock and spawns the child. */
    method Start(environ: map<string, string>, lockFree: bool) returns (r: PyRuntime.Outcome<bool>)
      modifies this
      ensures (r, State()) == StartSpec(layout, old(State()), environ, lockFree)
    {
      if p.Some? {
        return PyRuntime.Raised(AlreadyStarted);
      }
      lockFd := Opened;
      if !lockFree {
        return PyRuntime.Returned(false);
      }
      lockFd := Locked;
      p := Some(Process(Args(layout, environ), map["LD_LIBRARY_PATH" := Str(layout.binPath)], Str(layout.workDir)));
      return PyRuntime.Returned(true);
    }

    /** `stop()`: ends the child, releases the lock and removes the side files; safe to repeat. */
    method Stop(childExits: bool) returns (steps: seq<Step>)
      modifies this
      ensures (steps, State()) == StopSpec(old(State()), childExits)
    {
      ghost var st := State();
      steps := [];
      if p.Some? {
        steps := steps + [Terminate, WaitExit];
        if !childExits {
          steps := steps + [Kill, WaitExit];
        }
        p := None;
      }
      if lockFd != NoLock {
        steps := steps + [UnlockFile, CloseLock];
        lockFd := NoLock;
      }
      assert steps == TerminateOrKill(st, childExits) + ReleaseLock(st);
      steps := steps + [UnlinkSocket, UnlinkLock];
    }
  }
}
