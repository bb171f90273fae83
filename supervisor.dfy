// What the two Python Server classes (python/src/milvus_lite/server.py and
// python/src/milvus/server.py) share: the db-file name rule, the hidden files
// kept beside the db file, and the supervised process's state.
module Supervisor {
  import opened Wrappers
  import opened PyPath
  import PyRuntime

  /** A character of the class [a-zA-Z0-9.\-_]. */
  predicate IsNameChar(c: char)
  {
    ('a' <= c <= 'z') || ('A' <= c <= 'Z') || ('0' <= c <= '9') || c == '.' || c == '-' || c == '_'
  }

  /** The db-file name rule as intended: the whole name is one or more name characters. */
  predicate NameOk(name: string)
  {
    |name| > 0 && forall i | 0 <= i < |name| :: IsNameChar(name[i])
  }

  /** Python's `$` matches at the end of the text and also just before a final newline. */
  predicate DollarAt(s: string, k: nat)
  {
    k == |s| || (k + 1 == |s| && s[k] == '\n')
  }

  /**
   * `re.match(r'^[a-zA-Z0-9.\-_]+$', name)` as written: a non-empty run of
   * name characters from the start, then a place where `$` matches.
   */
  predicate NameMatchAsWritten(name: string)
  {
    exists k | 1 <= k <= |name| :: DollarAt(name, k) && forall i | 0 <= i < k :: IsNameChar(name[i])
  }

  /**
   * The pattern as written accepts exactly the intended names and the
   * intended names followed by one newline.
   */
  lemma NameMatchAsWrittenIff(name: string)
    ensures NameMatchAsWritten(name) <==>
              NameOk(name) || (|name| >= 2 && name[|name| - 1] == '\n' && NameOk(name[..|name| - 1]))
  {
    if NameOk(name) {
      assert DollarAt(name, |name|);
    }
    if |name| >= 2 && name[|name| - 1] == '\n' && NameOk(name[..|name| - 1]) {
      assert DollarAt(name, |name| - 1);
      assert forall i | 0 <= i < |name| - 1 :: IsNameChar(name[i]) by {
        forall i | 0 <= i < |name| - 1 ensures IsNameChar(name[i]) {
          assert name[i] == name[..|name| - 1][i];
        }
      }
    }
    if NameMatchAsWritten(name) {
      var k :| 1 <= k <= |name| && DollarAt(name, k) && forall i | 0 <= i < k :: IsNameChar(name[i]);
      if k < |name| {
        assert NameOk(name[..|name| - 1]);
      }
    }
  }

  /** "a.db\n" passes the pattern as written although it holds a newline. */
  lemma NewlineNameAccepted()
    ensures NameMatchAsWritten("a.db\n") && !NameOk("a.db\n")
  {
    var name := "a.db\n";
    assert name[..|name| - 1] == "a.db";
    assert NameOk("a.db");
    NameMatchAsWrittenIff(name);
    assert !IsNameChar(name[4]);
  }

  /** An intended name is a single path component other than ".". */
  lemma NameOkIsComponent(name: string)
    requires NameOk(name) && name != "."
    ensures IsComponent(name)
  {
    assert forall i | 0 <= i < |name| :: name[i] != '/';
  }

  /** The RuntimeError an unsupported db name raises. */
  function UnsupportedName(name: string): PyRuntime.PyError
  {
    PyRuntime.RuntimeError("Unsupport db name " + name + ", the name must match ^[a-zA-Z0-9.\\-_]+$")
  }

  /** `db.parent / f'.{db.name}{suffix}'`: a hidden file beside the db file. */
  function HiddenSibling(db: Path, suffix: string): Path
  {
    Child(Parent(db), "." + Name(db) + suffix)
  }

  /** The hidden sibling of a well-formed db file is itself well-formed and sits beside it. */
  lemma HiddenSiblingWellFormed(db: Path, suffix: string)
    requires WellFormed(db) && |db.parts| > 0 && '/' !in suffix
    ensures WellFormed(HiddenSibling(db, suffix))
    ensures Parent(HiddenSibling(db, suffix)) == Parent(db)
  {
    var c := "." + Name(db) + suffix;
    assert |c| >= 2;
    assert IsComponent(db.parts[|db.parts| - 1]);
    forall i | 0 <= i < |c| ensures c[i] != '/' {
      if 0 < i <= |Name(db)| {
        assert c[i] == Name(db)[i - 1];
      } else if i > |Name(db)| {
        assert c[i] == suffix[i - 1 - |Name(db)|];
      }
    }
    assert HiddenSibling(db, suffix).parts == Parent(db).parts + [c];
  }

  /** Different db files never share the text of a hidden sibling with the same suffix. */
  lemma HiddenSiblingInjective(a: Path, b: Path, suffix: string)
    requires WellFormed(a) && WellFormed(b) && |a.parts| > 0 && |b.parts| > 0 && '/' !in suffix
    requires Str(HiddenSibling(a, suffix)) == Str(HiddenSibling(b, suffix))
    ensures a == b
  {
    HiddenSiblingWellFormed(a, suffix);
    HiddenSiblingWellFormed(b, suffix);
    StrInjective(HiddenSibling(a, suffix), HiddenSibling(b, suffix));
    var ca := "." + Name(a) + suffix;
    var cb := "." + Name(b) + suffix;
    var ha := HiddenSibling(a, suffix).parts;
    assert ca == ha[|ha| - 1];
    assert cb == HiddenSibling(b, suffix).parts[|ha| - 1];
    assert Name(a) == ca[1..|ca| - |suffix|];
    assert Name(b) == cb[1..|cb| - |suffix|];
    assert Parent(a).parts == ha[..|ha| - 1];
    ParentAndName(a);
    ParentAndName(b);
  }

  /** Two hidden siblings of one db file with suffixes of one length but different text differ. */
  lemma HiddenSiblingsDiffer(db: Path, s1: string, s2: string)
    requires WellFormed(db) && |db.parts| > 0 && '/' !in s1 && '/' !in s2
    requires |s1| == |s2| && s1 != s2
    ensures Str(HiddenSibling(db, s1)) != Str(HiddenSibling(db, s2))
  {
    HiddenSiblingWellFormed(db, s1);
    HiddenSiblingWellFormed(db, s2);
    var c1 := "." + Name(db) + s1;
    var c2 := "." + Name(db) + s2;
    var n := |HiddenSibling(db, s1).parts|;
    assert c1 == HiddenSibling(db, s1).parts[n - 1];
    assert c2 == HiddenSibling(db, s2).parts[n - 1];
    assert s1 == c1[|c1| - |s1|..];
    assert s2 == c2[|c2| - |s2|..];
    StrDistinct(HiddenSibling(db, s1), HiddenSibling(db, s2));
  }

  /** `os.environ.get('BIN_PATH')`, else the package's own `lib` directory, made absolute. */
  function BinPath(environ: map<string, string>, defaultBin: string, cwd: Path): Path
  {
    if "BIN_PATH" in environ then Parse(environ["BIN_PATH"], cwd) else Parse(defaultBin, cwd)
  }

  /** The `milvus_bin` property: the `milvus` executable in the bin directory. */
  function MilvusBin(binPath: Path): string
  {
    Str(Child(binPath, "milvus"))
  }

  /** The `log_level` property: LOG_LEVEL from the environment, "ERROR" by default. */
  function LogLevel(environ: map<string, string>): string
  {
    if "LOG_LEVEL" in environ then environ["LOG_LEVEL"] else "ERROR"
  }

  /** `init()`: fails only when the bin directory is missing; a missing work dir is only logged. */
  function InitOk(binExists: bool, workDirExists: bool): (ok: bool)
    ensures ok <==> binExists
  {
    binExists
  }

  /** A spawned child process (Popen): its arguments, environment and working directory. */
  datatype Process = Process(args: seq<string>, env: map<string, string>, cwd: string)

  /** `_lock_fd`: not open, open without the lock (the lock attempt failed), or open and locked. */
  datatype LockFd = NoLock | Opened | Locked

  /** The mutable part of a Server: `_p` and `_lock_fd`. */
  datatype ProcState = ProcState(p: Option<Process>, lockFd: LockFd)

  /** A fresh or fully stopped server. */
  const Idle: ProcState := ProcState(None, NoLock)

  /** The effects `stop` has on the outside world, in the order it has them. */
  datatype Step = UnlockFile | CloseLock | Terminate | WaitExit | Kill | UnlinkSocket | UnlinkLock

  /** The steps that release the lock file, when one is open. */
  function ReleaseLock(st: ProcState): seq<Step>
  {
    if st.lockFd != NoLock then [UnlockFile, CloseLock] else []
  }

  /** The trailing unlinks; a missing file is ignored. */
  const Unlinks: seq<Step> := [UnlinkSocket, UnlinkLock]
}
