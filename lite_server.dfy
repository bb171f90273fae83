// The milvus-lite Server (python/src/milvus_lite/server.py): validates the db
// file name, derives the socket and lock paths, starts the milvus binary under
// an exclusive lock file and stops it again. The file system, fcntl and Popen
// are oracles: whether the lock is free and whether the child exits within
// half a second are parameters.
module LiteServer {
  import opened Wrappers
  import opened PyPath
  import opened Supervisor
  import PyRuntime

  /** The longest db file name the server accepts. */
  const MAX_NAME_LENGTH: nat := 36

  const LD_LIBRARY_PATH: string := "LD_LIBRARY_PATH"
  const DYLD_LIBRARY_PATH: string := "DYLD_LIBRARY_PATH"

  /** What `__init__` fixes: the binary directory, the db file, its directory and the two side paths. */
  datatype Layout = Layout(
    binPath: Path,
    dbFile: Path,
    workDir: Path,
    address: Option<string>,
    udsFile: string,
    lockPath: string)

  function NameTooLong(name: string): PyRuntime.PyError
  {
    PyRuntime.RuntimeError("Db name " + name + " is too long, should be less than 36")
  }

  /**
   * `Server.__init__(db_file, address)`, where `tmp` is the fresh name
   * `tempfile.mktemp()` hands out and `cwd` the process's working directory:
   * it accepts exactly the names of one to 36 name characters, reports a bad
   * character before a bad length, and places the lock file beside the db
   * file and the socket under the temporary name.
   */
  function NewLayout(environ: map<string, string>, defaultBin: string, cwd: Path,
                     dbFile: string, address: Option<string>, tmp: string): (r: PyRuntime.Outcome<Layout>)
    ensures var name := Name(Parse(dbFile, cwd));
      (r.Returned? <==> NameOk(name) && |name| <= MAX_NAME_LENGTH)
      && (!NameOk(name) ==> r == PyRuntime.Raised(UnsupportedName(name)))
      && (NameOk(name) && |name| > MAX_NAME_LENGTH ==> r == PyRuntime.Raised(NameTooLong(name)))
    ensures r.Returned? ==>
              r.value.dbFile == Parse(dbFile, cwd) && r.value.workDir == Parent(r.value.dbFile)
              && r.value.lockPath == Str(HiddenSibling(r.value.dbFile, ".lock"))
              && r.value.udsFile == tmp + "_" + Name(r.value.dbFile) + ".sock" && r.value.address == address
    ensures WellFormed(cwd) && r.Returned? ==> WellFormed(r.value.dbFile) && |r.value.dbFile.parts| > 0
  {
    var db := Parse(dbFile, cwd);
    var name := Name(db);
    if !NameOk(name) then PyRuntime.Raised(UnsupportedName(name))
    else if |name| > MAX_NAME_LENGTH then PyRuntime.Raised(NameTooLong(name))
    else PyRuntime.Returned(Layout(BinPath(environ, defaultBin, cwd), db, Parent(db), address,
                                   tmp + "_" + name + ".sock", Str(HiddenSibling(db, ".lock"))))
  }

  /** Two servers over different db files never share a lock file. */
  lemma LockPathsDistinct(environ: map<string, string>, defaultBin: string, cwd: Path,
                          a: string, b: string, address: Option<string>, tmpA: string, tmpB: string)
    requires WellFormed(cwd)
    requires NewLayout(environ, defaultBin, cwd, a, address, tmpA).Returned?
    requires NewLayout(environ, defaultBin, cwd, b, address, tmpB).Returned?
    requires Parse(a, cwd) != Parse(b, cwd)
    ensures NewLayout(environ, defaultBin, cwd, a, address, tmpA).value.lockPath
            != NewLayout(environ, defaultBin, cwd, b, address, tmpB).value.lockPath
  {
    var la := NewLayout(environ, defaultBin, cwd, a, address, tmpA).value;
    var lb := NewLayout(environ, defaultBin, cwd, b, address, tmpB).value;
    if la.lockPath == lb.lockPath {
      HiddenSiblingInjective(la.dbFile, lb.dbFile, ".lock");
    }
  }

  /** The `uds_path` property: the socket as a gRPC address. */
  function UdsPath(l: Layout): string
  {
    "unix:" + l.udsFile
  }

  /**
   * The `args` property: the binary, the db file, where to listen and the log
   * level; without an explicit address the child listens on the socket and is
   * also told the lock file.
   */
  function Args(l: Layout, environ: map<string, string>): (args: seq<string>)
    ensures |args| == if l.address.Some? then 4 else 5
    ensures args[0] == MilvusBin(l.binPath) && args[1] == Str(l.dbFile) && args[3] == LogLevel(environ)
    ensures args[2] == if l.address.Some? then l.address.value else UdsPath(l)
    ensures l.address.None? ==> args[4] == l.lockPath
  {
    if l.address.Some? then [MilvusBin(l.binPath), Str(l.dbFile), l.address.value, LogLevel(environ)]
    else [MilvusBin(l.binPath), Str(l.dbFile), UdsPath(l), LogLevel(environ), l.lockPath]
  }

  /** The caller's LD_LIBRARY_PATH, "" when unset. */
  function CallerLibraryPath(environ: map<string, string>): string
  {
    if LD_LIBRARY_PATH in environ then environ[LD_LIBRARY_PATH] else ""
  }

  /**
   * The child's environment: both library path variables put the bin
   * directory before the caller's LD_LIBRARY_PATH, and every other variable
   * of the caller is passed through unchanged.
   */
  function StartEnv(bin: string, environ: map<string, string>): (env: map<string, string>)
    ensures LD_LIBRARY_PATH in env && env[LD_LIBRARY_PATH] == bin + ":" + CallerLibraryPath(environ)
    ensures DYLD_LIBRARY_PATH in env && env[DYLD_LIBRARY_PATH] == bin + ":" + CallerLibraryPath(environ)
    ensures forall k | k != LD_LIBRARY_PATH && k != DYLD_LIBRARY_PATH ::
              (k in env <==> k in environ) && (k in environ ==> env[k] == environ[k])
  {
    var own := bin + ":" + CallerLibraryPath(environ);
    map[LD_LIBRARY_PATH := own, DYLD_LIBRARY_PATH := own] + (environ - {LD_LIBRARY_PATH, DYLD_LIBRARY_PATH})
  }

  const AlreadyStarted: PyRuntime.PyError := PyRuntime.AssertionError("Server already started")

  /**
   * `start()` from state `st`: `lockFree` says whether the exclusive
   * non-blocking lock succeeds, `exitsEarly` whether the child exits within
   * the half-second wait.
   */
  function StartSpec(l: Layout, st: ProcState, environ: map<string, string>,
                     lockFree: bool, exitsEarly: bool): (r: (PyRuntime.Outcome<bool>, ProcState))
    ensures r.0.Raised? <==> st.p.Some?
    ensures r.0.Raised? ==> r.0.error == AlreadyStarted && r.1 == st
    ensures r.0.Returned? ==> r.1.lockFd != NoLock && (r.1.p.Some? <==> lockFree) && (r.1.lockFd == Locked <==> lockFree)
    ensures r.0 == PyRuntime.Returned(true) <==> st.p.None? && lockFree && !exitsEarly
    ensures r.0.Returned? && r.1.p.Some? ==>
              r.1.p.value == Process(Args(l, environ), StartEnv(Str(l.binPath), environ), Str(l.workDir))
  {
    if st.p.Some? then (PyRuntime.Raised(AlreadyStarted), st)
    else if !lockFree then (PyRuntime.Returned(false), ProcState(None, Opened))
    else (PyRuntime.Returned(!exitsEarly),
          ProcState(Some(Process(Args(l, environ), StartEnv(Str(l.binPath), environ), Str(l.workDir))), Locked))
  }

  /** The waits of `stop` for a running child: 2 s, then SIGKILL and another wait if it is still alive. */
  function WaitOrKill(st: ProcState, childExits: bool): seq<Step>
  {
    if st.p.None? then [] else if childExits then [WaitExit] else [WaitExit, Kill, WaitExit]
  }

  /**
   * `stop()` from state `st`, where `childExits` says whether the child exits
   * within the first wait: the lock is released first (the child stops when
   * it sees the lock go), then the child is waited for or killed, then both
   * side files are unlinked.
   */
  function StopSpec(st: ProcState, childExits: bool): (r: (seq<Step>, ProcState))
    ensures r.1 == Idle
    ensures |r.0| >= 2 && r.0[|r.0| - 2..] == Unlinks
    ensures UnlockFile in r.0 <==> st.lockFd != NoLock
    ensures WaitExit in r.0 <==> st.p.Some?
    ensures Kill in r.0 <==> st.p.Some? && !childExits
    ensures Terminate !in r.0
  {
    (ReleaseLock(st) + WaitOrKill(st, childExits) + Unlinks, Idle)
  }

  /** A second `stop` only unlinks the (already removed) side files. */
  lemma StopIdempotent(st: ProcState, first: bool, second: bool)
    ensures StopSpec(StopSpec(st, first).1, second) == (Unlinks, Idle)
  {
  }

  /** With both a lock and a child, the lock is released before the child is waited for. */
  lemma StopUnlocksBeforeWaiting(st: ProcState, childExits: bool)
    requires st.lockFd != NoLock && st.p.Some?
    ensures var steps := StopSpec(st, childExits).0;
      steps[0] == UnlockFile && steps[1] == CloseLock && steps[2] == WaitExit
  {
  }

  /** After `stop` the server can be started again; without it a second start fails its assertion. */
  lemma RestartNeedsStop(l: Layout, st: ProcState, environ: map<string, string>, childExits: bool,
                         lockFree: bool, exitsEarly: bool)
    ensures StartSpec(l, StopSpec(st, childExits).1, environ, lockFree, exitsEarly).0.Returned?
    ensures var started := StartSpec(l, st, environ, lockFree, exitsEarly);
      started.0.Returned? && lockFree ==> StartSpec(l, started.1, environ, lockFree, exitsEarly).0 == PyRuntime.Raised(AlreadyStarted)
  {
  }

  class Server {
    const layout: Layout
    var p: Option<Process>
    var lockFd: LockFd

    function State(): ProcState
      reads this
    {
      ProcState(p, lockFd)
    }

    constructor (layout: Layout)
      ensures this.layout == layout && State() == Idle
    {
      this.layout := layout;
      p := None;
      lockFd := NoLock;
    }

    /** `Server(db_file, address)`: the RuntimeError of a bad name, or a fresh idle server. */
    static method New(environ: map<string, string>, defaultBin: string, cwd: Path,
                      dbFile: string, address: Option<string>, tmp: string) returns (r: PyRuntime.Outcome<Server>)
      ensures r.Raised? ==> NewLayout(environ, defaultBin, cwd, dbFile, address, tmp) == PyRuntime.Raised(r.error)
      ensures r.Returned? ==> NewLayout(environ, defaultBin, cwd, dbFile, address, tmp) == PyRuntime.Returned(r.value.layout)
      ensures r.Returned? ==> fresh(r.value) && r.value.State() == Idle
    {
      var l := NewLayout(environ, defaultBin, cwd, dbFile, address, tmp);
      if l.Raised? {
        return PyRuntime.Raised(l.error);
      }
      var s := new Server(l.value);
      return PyRuntime.Returned(s);
    }

    /** `start()`: opens the lock file, takes the lock, spawns the child and watches it for half a second. */
    method Start(environ: map<string, string>, lockFree: bool, exitsEarly: bool) returns (r: PyRuntime.Outcome<bool>)
      modifies this
      ensures (r, State()) == StartSpec(layout, old(State()), environ, lockFree, exitsEarly)
    {
      if p.Some? {
        return PyRuntime.Raised(AlreadyStarted);
      }
      lockFd := Opened;
      if !lockFree {
        return PyRuntime.Returned(false);
      }
      lockFd := Locked;
      var own := Str(layout.binPath) + ":" + CallerLibraryPath(environ);
      var startEnv := map[LD_LIBRARY_PATH := own, DYLD_LIBRARY_PATH := own];
      var srcEnv := environ;
      if LD_LIBRARY_PATH in srcEnv {
        srcEnv := srcEnv - {LD_LIBRARY_PATH};
      }
      if DYLD_LIBRARY_PATH in srcEnv {
        srcEnv := srcEnv - {DYLD_LIBRARY_PATH};
      }
      startEnv := startEnv + srcEnv;
      assert srcEnv == environ - {LD_LIBRARY_PATH, DYLD_LIBRARY_PATH};
      assert startEnv == StartEnv(Str(layout.binPath), environ);
      p := Some(Process(Args(layout, environ), startEnv, Str(layout.workDir)));
      if exitsEarly {
        return PyRuntime.Returned(false);
      }
      return PyRuntime.Returned(true);
    }

    /** `stop()`: releases the lock, reaps the child and removes the side files; safe to repeat. */
    method Stop(childExits: bool) returns (steps: seq<Step>)
      modifies this
      ensures (steps, State()) == StopSpec(old(State()), childExits)
    {
      ghost var st := State();
      steps := [];
      if lockFd != NoLock {
        steps := steps + [UnlockFile, CloseLock];
        lockFd := NoLock;
      }
      if p.Some? {
        steps := steps + [WaitExit];
        if !childExits {
          steps := steps + [Kill, WaitExit];
        }
        p := None;
      }
      assert steps == ReleaseLock(st) + WaitOrKill(st, childExits);
      steps := steps + [UnlinkSocket, UnlinkLock];
    }
  }
}
