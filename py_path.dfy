// pathlib on POSIX as the server supervisors use it: `Path(s).absolute()`,
// `.name`, `.parent`, `/ name` and `str(path)`, for absolute paths kept as
// their components below "/".
module PyPath {
  import StringUtil
  import Tokenizer

  /** An absolute path: the components after the root "/", outermost first. */
  datatype Path = Path(parts: seq<string>)

  /** A component pathlib keeps: not empty, no '/', and not ".". */
  predicate IsComponent(c: string)
  {
    |c| > 0 && '/' !in c && c != "."
  }

  predicate WellFormed(p: Path)
  {
    forall i | 0 <= i < |p.parts| :: IsComponent(p.parts[i])
  }

  /** The pieces between '/' separators that pathlib keeps: empty and "." pieces are dropped. */
  function Components(pieces: seq<string>): (cs: seq<string>)
    ensures |cs| <= |pieces|
    ensures forall i | 0 <= i < |cs| :: IsComponent(cs[i])
  {
    if |pieces| == 0 then []
    else (if IsComponent(pieces[0]) then [pieces[0]] else []) + Components(pieces[1..])
  }

  /** `Path(s).absolute()`: an absolute text stands alone, a relative one goes below the working directory. */
  function Parse(s: string, cwd: Path): (p: Path)
    ensures WellFormed(cwd) ==> WellFormed(p)
  {
    var cs := Components(Tokenizer.Split(s, "/"));
    if |s| > 0 && s[0] == '/' then Path(cs) else Path(cwd.parts + cs)
  }

  /** `str(path)`: "/" then the components joined by '/'. */
  function Str(p: Path): string
  {
    "/" + StringUtil.Join("/", p.parts)
  }

  /** `.name`: the last component, "" for the root. */
  function Name(p: Path): string
  {
    if |p.parts| == 0 then "" else p.parts[|p.parts| - 1]
  }

  /** `.parent`: the path without its last component; the root is its own parent. */
  function Parent(p: Path): Path
  {
    if |p.parts| == 0 then p else Path(p.parts[..|p.parts| - 1])
  }

  /** `path / name` for a single component. */
  function Child(p: Path, name: string): Path
  {
    Path(p.parts + [name])
  }

  lemma {:induction false} ComponentsKeep(cs: seq<string>)
    requires forall i | 0 <= i < |cs| :: IsComponent(cs[i])
    ensures Components(cs) == cs
  {
    if |cs| > 0 {
      ComponentsKeep(cs[1..]);
    }
  }

  /** The text of a well-formed path parses back to that path, whatever the working directory. */
  lemma ParseOfStr(p: Path, cwd: Path)
    requires WellFormed(p)
    ensures Parse(Str(p), cwd) == p
  {
    var s := Str(p);
    var pieces := [""] + p.parts;
    if |p.parts| == 0 {
      assert StringUtil.Join("/", ["", ""]) == StringUtil.Join("/", [""]) + "/" + "";
      assert s == StringUtil.Join("/", ["", ""]);
      assert Tokenizer.FreeOf(["", ""], '/');
      Tokenizer.SplitOfJoin("/", ["", ""]);
      assert Components(["", ""]) == [];
    } else {
      Tokenizer.JoinFirst("/", pieces);
      assert pieces[1..] == p.parts;
      assert s == StringUtil.Join("/", pieces);
      assert Tokenizer.FreeOf(pieces, '/');
      Tokenizer.SplitOfJoin("/", pieces);
      ComponentsKeep(p.parts);
      assert Components(pieces) == Components(p.parts);
    }
  }

  /** Two well-formed paths with the same text are the same path. */
  lemma StrInjective(a: Path, b: Path)
    requires WellFormed(a) && WellFormed(b) && Str(a) == Str(b)
    ensures a == b
  {
    ParseOfStr(a, Path([]));
    ParseOfStr(b, Path([]));
  }

  /** Different well-formed paths have different texts. */
  lemma StrDistinct(a: Path, b: Path)
    requires WellFormed(a) && WellFormed(b) && a != b
    ensures Str(a) != Str(b)
  {
    if Str(a) == Str(b) {
      StrInjective(a, b);
    }
  }

  /** A path with a name is its parent with that name below it. */
  lemma ParentAndName(p: Path)
    requires |p.parts| > 0
    ensures p == Child(Parent(p), Name(p))
  {
    assert p.parts == p.parts[..|p.parts| - 1] + [p.parts[|p.parts| - 1]];
  }
}
