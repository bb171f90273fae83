// The pieces of Python's built-in types that the milvus Python package leans
// on, written out as values: the config values and their types, the
// exceptions, str methods (strip, split, replace, splitlines), int() on text,
// str() on a value, os.path.join and insertion-ordered dicts.
module PyRuntime {
  import opened Wrappers
  import Decimal
  import Tokenizer
  import StringUtil

  /** The values a config item, a setting or a port can hold. */
  datatype PyValue = PyNone | PyBool(b: bool) | PyInt(i: int) | PyStr(s: string)

  /** The types a template type hint can name. */
  datatype PyType = IntType | BoolType | StrType

  /** The exceptions the modelled code raises or lets through. */
  datatype PyError =
    | ValueError
    | KeyError(key: string)
    | TypeError
    | RuntimeError(message: string)
    | AssertionError(message: string)

  /** A call that returns a value or raises. */
  datatype Outcome<T> = Returned(value: T) | Raised(error: PyError)

  /** isinstance(v, t): a bool is also an int. */
  predicate IsInstance(v: PyValue, t: PyType)
  {
    match t
    case IntType => v.PyInt? || v.PyBool?
    case BoolType => v.PyBool?
    case StrType => v.PyStr?
  }

  /** type(v) is t, with no subclassing. */
  predicate HasType(v: PyValue, t: PyType)
  {
    match t
    case IntType => v.PyInt?
    case BoolType => v.PyBool?
    case StrType => v.PyStr?
  }

  /** bool(v): None, False, 0 and "" are false. */
  predicate Truthy(v: PyValue)
  {
    match v
    case PyNone => false
    case PyBool(b) => b
    case PyInt(i) => i != 0
    case PyStr(s) => s != ""
  }

  /** str.isspace on one character: the ASCII and Unicode whitespace str.strip drops. */
  predicate IsSpace(c: char)
  {
    c == ' ' || '\t' <= c <= '\r' || '\U{1c}' <= c <= '\U{1f}' || c == '\U{85}' || c == '\U{a0}'
    || c == '\U{1680}' || '\U{2000}' <= c <= '\U{200a}' || c == '\U{2028}' || c == '\U{2029}'
    || c == '\U{202f}' || c == '\U{205f}' || c == '\U{3000}'
  }

  /** The left scan of strip: from i, the first index that is not whitespace (or the end). */
  function SkipSpaces(s: string, i: nat): (j: nat)
    requires i <= |s|
    ensures i <= j <= |s| && (j == |s| || !IsSpace(s[j]))
    decreases |s| - i
  {
    if i == |s| || !IsSpace(s[i]) then i else SkipSpaces(s, i + 1)
  }

  /** The right scan of strip: from j down to lo, the end of the last character that is not whitespace (or lo). */
  function TrimEnd(s: string, j: nat, lo: nat): (k: nat)
    requires lo <= j <= |s|
    ensures lo <= k <= j && (k == lo || !IsSpace(s[k - 1]))
    decreases j
  {
    if j == lo || !IsSpace(s[j - 1]) then j else TrimEnd(s, j - 1, lo)
  }

  /** Everything the left scan passes over is whitespace. */
  lemma {:induction false} SkippedAreSpaces(s: string, i: nat)
    requires i <= |s|
    ensures forall k | i <= k < SkipSpaces(s, i) :: IsSpace(s[k])
    decreases |s| - i
  {
    if i < |s| && IsSpace(s[i]) {
      SkippedAreSpaces(s, i + 1);
    }
  }

  /** Everything the right scan passes over is whitespace. */
  lemma {:induction false} TrimmedAreSpaces(s: string, j: nat, lo: nat)
    requires lo <= j <= |s|
    ensures forall k | TrimEnd(s, j, lo) <= k < j :: IsSpace(s[k])
    decreases j
  {
    if j > lo && IsSpace(s[j - 1]) {
      TrimmedAreSpaces(s, j - 1, lo);
    }
  }

  /** str.lstrip(): s without its leading whitespace. */
  function LStrip(s: string): (r: string)
    ensures |r| <= |s| && r == s[|s| - |r|..]
    ensures r == [] || !IsSpace(r[0])
  {
    s[SkipSpaces(s, 0)..]
  }

  /** str.rstrip(): s without its trailing whitespace. */
  function RStrip(s: string): (r: string)
    ensures |r| <= |s| && r == s[..|r|]
    ensures r == [] || !IsSpace(r[|r| - 1])
  {
    s[..TrimEnd(s, |s|, 0)]
  }

  /** str.strip(): the left scan, then the right scan down to where the left one stopped. */
  function Strip(s: string): (r: string)
    ensures r == [] || (!IsSpace(r[0]) && !IsSpace(r[|r| - 1]))
  {
    var a := SkipSpaces(s, 0);
    s[a..TrimEnd(s, |s|, a)]
  }

  /** Strip drops a leading and a trailing run of whitespace, s[..a] and s[b..], and keeps the middle as it is. */
  lemma StripSpec(s: string) returns (a: nat, b: nat)
    ensures a <= b <= |s| && Strip(s) == s[a..b]
    ensures forall i | 0 <= i < a :: IsSpace(s[i])
    ensures forall i | b <= i < |s| :: IsSpace(s[i])
  {
    a := SkipSpaces(s, 0);
    b := TrimEnd(s, |s|, a);
    SkippedAreSpaces(s, 0);
    TrimmedAreSpaces(s, |s|, a);
  }

  /** Stripping is lstrip followed by rstrip. */
  lemma StripIsRStripOfLStrip(s: string)
    ensures Strip(s) == RStrip(LStrip(s))
  {
    var a := SkipSpaces(s, 0);
    var l := LStrip(s);
    TrimEndShift(s, a, |s|);
    assert l[..TrimEnd(l, |l|, 0)] == s[a..TrimEnd(s, |s|, a)];
  }

  /** The right scan of a suffix s[a..] is the right scan of s, shifted by a. */
  lemma {:induction false} TrimEndShift(s: string, a: nat, j: nat)
    requires a <= j <= |s|
    ensures TrimEnd(s[a..], j - a, 0) + a == TrimEnd(s, j, a)
    decreases j
  {
    if j > a {
      assert s[a..][j - a - 1] == s[j - 1];
      if IsSpace(s[j - 1]) {
        TrimEndShift(s, a, j - 1);
      }
    }
  }

  /** A string that neither starts nor ends with whitespace is its own strip. */
  lemma StripFixpoint(s: string)
    requires s == [] || (!IsSpace(s[0]) && !IsSpace(s[|s| - 1]))
    ensures Strip(s) == s
  {
    assert SkipSpaces(s, 0) == 0;
    assert TrimEnd(s, |s|, 0) == |s|;
    assert s[0..|s|] == s;
  }

  /** `sub` occurs in s at index i. */
  predicate OccursAt(s: string, sub: string, i: int)
  {
    0 <= i && i + |sub| <= |s| && s[i..i + |sub|] == sub
  }

  /** `c in s`. */
  predicate Contains(s: string, c: char)
  {
    exists i | 0 <= i < |s| :: s[i] == c
  }

  /** str.split(sep) for a non-empty separator: the pieces between occurrences, left to right. */
  function Split(s: string, sep: string): (parts: seq<string>)
    requires |sep| > 0
    ensures |parts| >= 1
  {
    Tokenizer.SplitJoin(s, sep, 0, Tokenizer.SplitFrom(s, sep, 0));
    Tokenizer.Split(s, sep)
  }

  /** Splitting at a one-character separator into exactly two pieces means the character occurs exactly once. */
  lemma {:induction false} SplitTwoOnce(s: string, c: char)
    requires |Split(s, [c])| == 2
    ensures var parts := Split(s, [c]);
            s == parts[0] + [c] + parts[1] && !Contains(parts[0], c) && !Contains(parts[1], c)
  {
    var parts := Split(s, [c]);
    Tokenizer.SplitJoin(s, [c], 0, parts);
    assert s[0..] == s;
    Tokenizer.JoinFirst([c], parts);
    assert parts[1..] == [parts[1]];
    forall k, j | 0 <= k < 2 && 0 <= j < |parts[k]| ensures parts[k][j] != c {
      Tokenizer.SplitPiecesFree(s, [c], 0, parts, k, j);
      Tokenizer.OccursAtSlice(parts[k], [c], j);
      assert parts[k][j..j + 1] == [parts[k][j]];
    }
  }

  /** A string that does not split at a character does not hold it. */
  lemma SplitOneAbsent(s: string, c: char)
    requires |Split(s, [c])| == 1
    ensures !Contains(s, c)
  {
    var parts := Split(s, [c]);
    Tokenizer.SplitJoin(s, [c], 0, parts);
    assert s[0..] == s;
    forall j | 0 <= j < |s| ensures s[j] != c {
      Tokenizer.SplitPiecesFree(s, [c], 0, parts, 0, j);
      Tokenizer.OccursAtSlice(parts[0], [c], j);
      assert parts[0][j..j + 1] == [parts[0][j]];
    }
  }

  /** In a + [c] + b with c in neither part, c sits only between them. */
  lemma OnlyBetween(a: string, b: string, c: char)
    requires !Contains(a, c) && !Contains(b, c)
    ensures forall k | 0 <= k < |a + [c] + b| :: (a + [c] + b)[k] == c <==> k == |a|
  {
    var s := a + [c] + b;
    forall k | 0 <= k < |s| ensures s[k] == c <==> k == |a| {
      if k < |a| {
        assert s[k] == a[k];
      } else if k > |a| {
        assert s[k] == b[k - |a| - 1];
      }
    }
  }

  /** Two occurrences of a character split a string into more than two pieces. */
  lemma TwoOccurrencesSplitThree(s: string, c: char, i: nat, j: nat)
    requires i < j < |s| && s[i] == c && s[j] == c
    ensures |Split(s, [c])| >= 3
  {
    var parts := Split(s, [c]);
    if |parts| == 1 {
      SplitOneAbsent(s, c);
      assert false;
    } else if |parts| == 2 {
      SplitTwoOnce(s, c);
      OnlyBetween(parts[0], parts[1], c);
      assert false;
    }
  }

  /** str.replace(sub, repl), left to right over non-overlapping occurrences from `start` on. */
  function ReplaceFrom(s: string, sub: string, repl: string, start: nat): string
    requires |sub| > 0 && start <= |s|
    decreases |s| - start
  {
    var e := Tokenizer.Find(s, sub, start);
    if e == -1 then s[start..] else s[start..e] + repl + ReplaceFrom(s, sub, repl, e + |sub|)
  }

  /** "".replace: an empty `sub` puts `repl` before every character and at the end. */
  function Interleave(s: string, repl: string): string
    decreases |s|
  {
    if |s| == 0 then repl else repl + [s[0]] + Interleave(s[1..], repl)
  }

  /** str.replace(sub, repl): every occurrence of sub, found left to right, becomes repl. */
  function Replace(s: string, sub: string, repl: string): string
  {
    if |sub| == 0 then Interleave(s, repl) else ReplaceFrom(s, sub, repl, 0)
  }

  /** Replacing is splitting at the replaced text and joining with the replacement. */
  lemma {:induction false} ReplaceFromIsJoin(s: string, sub: string, repl: string, start: nat)
    requires |sub| > 0 && start <= |s|
    ensures ReplaceFrom(s, sub, repl, start) == StringUtil.Join(repl, Tokenizer.SplitFrom(s, sub, start))
    decreases |s| - start
  {
    var e := Tokenizer.Find(s, sub, start);
    if e != -1 {
      ReplaceFromIsJoin(s, sub, repl, e + |sub|);
      ReplaceJoinStep(s, sub, repl, start, e, Tokenizer.SplitFrom(s, sub, e + |sub|));
    } else {
      assert Tokenizer.SplitFrom(s, sub, start) == [s[start..]];
    }
  }

  /** One occurrence more: the piece before it, the replacement, then the rest already replaced. */
  lemma ReplaceJoinStep(s: string, sub: string, repl: string, start: nat, e: int, rest: seq<string>)
    requires |sub| > 0 && start <= |s| && e == Tokenizer.Find(s, sub, start) && e != -1
    requires rest == Tokenizer.SplitFrom(s, sub, e + |sub|)
    requires ReplaceFrom(s, sub, repl, e + |sub|) == StringUtil.Join(repl, rest)
    ensures ReplaceFrom(s, sub, repl, start) == StringUtil.Join(repl, Tokenizer.SplitFrom(s, sub, start))
  {
    Tokenizer.SplitFromStep(s, sub, start, e);
    assert |rest| >= 1;
    Tokenizer.JoinCons(repl, s[start..e], rest);
    ReplaceFromStep(s, sub, repl, start, e);
  }

  /** One unfolding of ReplaceFrom at an occurrence e. */
  lemma ReplaceFromStep(s: string, sub: string, repl: string, start: nat, e: int)
    requires |sub| > 0 && start <= |s| && e == Tokenizer.Find(s, sub, start) && e != -1
    ensures start <= e && e + |sub| <= |s|
    ensures ReplaceFrom(s, sub, repl, start) == s[start..e] + repl + ReplaceFrom(s, sub, repl, e + |sub|)
  {
  }

  /** s.replace(sub, repl) == repl.join(s.split(sub)) for a non-empty sub. */
  lemma ReplaceIsJoinOfSplit(s: string, sub: string, repl: string)
    requires |sub| > 0
    ensures Replace(s, sub, repl) == StringUtil.Join(repl, Split(s, sub))
  {
    ReplaceFromIsJoin(s, sub, repl, 0);
  }

  /** A text that does not occur leaves the string as it is. */
  lemma ReplaceAbsent(s: string, sub: string, repl: string)
    requires |sub| > 0 && forall i :: !OccursAt(s, sub, i)
    ensures Replace(s, sub, repl) == s
  {
    var e := Tokenizer.Find(s, sub, 0);
    if e != -1 {
      Tokenizer.OccursAtSlice(s, sub, e);
      assert OccursAt(s, sub, e);
      assert false;
    }
    assert s[0..] == s;
  }

  /** Removing a character with replace leaves no occurrence of it and keeps every other character. */
  lemma {:induction false} ReplaceRemovesChar(s: string, c: char, start: nat)
    requires start <= |s|
    ensures var r := ReplaceFrom(s, [c], "", start);
            !Contains(r, c) && |r| <= |s| - start
    decreases |s| - start
  {
    var e := Tokenizer.Find(s, [c], start);
    if e == -1 {
      forall k | 0 <= k < |s| - start ensures s[start..][k] != c {
        Tokenizer.FindFirst(s, [c], start, start + k);
        Tokenizer.OccursAtSlice(s, [c], start + k);
        assert s[start + k..start + k + 1] == [s[start + k]];
      }
    } else {
      ReplaceRemovesChar(s, c, e + 1);
      var head := s[start..e];
      forall k | 0 <= k < |head| ensures head[k] != c {
        Tokenizer.FindFirst(s, [c], start, start + k);
        Tokenizer.OccursAtSlice(s, [c], start + k);
        assert s[start + k..start + k + 1] == [s[start + k]];
      }
      var r := ReplaceFrom(s, [c], "", start);
      assert r == head + ReplaceFrom(s, [c], "", e + 1);
    }
  }

  predicate IsDigits(u: string)
  {
    forall i | 0 <= i < |u| :: Decimal.IsDigit(u[i])
  }

  /** The digit part int() accepts: digits, with single underscores only between two digits. */
  predicate UnderscoredDigits(u: string)
  {
    |u| > 0 && Decimal.IsDigit(u[0]) && Decimal.IsDigit(u[|u| - 1])
    && forall i | 0 <= i < |u| :: Decimal.IsDigit(u[i]) || (u[i] == '_' && i + 1 < |u| && Decimal.IsDigit(u[i + 1]))
  }

  /** The digits of u with the underscores taken out. */
  function DropUnderscores(u: string): (d: string)
    ensures (forall i | 0 <= i < |u| :: Decimal.IsDigit(u[i]) || u[i] == '_') ==> IsDigits(d)
    ensures |d| <= |u|
    decreases |u|
  {
    if |u| == 0 then ""
    else if u[0] == '_' then DropUnderscores(u[1..])
    else [u[0]] + DropUnderscores(u[1..])
  }

  /** A run of plain digits has nothing to drop. */
  lemma {:induction false} DropNoUnderscores(u: string)
    requires IsDigits(u)
    ensures DropUnderscores(u) == u
    decreases |u|
  {
    if |u| > 0 {
      DropNoUnderscores(u[1..]);
      assert u == [u[0]] + u[1..];
    }
  }

  /** Digits with single underscores between them become plain digits. */
  lemma UnderscoredDropsToDigits(u: string)
    requires UnderscoredDigits(u)
    ensures IsDigits(DropUnderscores(u))
  {
    assert forall i | 0 <= i < |u| :: Decimal.IsDigit(u[i]) || u[i] == '_';
  }

  /** The text int() reads after the sign: t without a leading '+' or '-'. */
  function Unsigned(t: string): (u: string)
    ensures |u| <= |t|
  {
    if |t| > 0 && (t[0] == '-' || t[0] == '+') then t[1..] else t
  }

  /**
   * int(text) in base 10: surrounding whitespace is ignored, an optional
   * sign is read, and the rest must be digits with single underscores
   * between them; anything else raises ValueError.
   */
  function IntOf(text: string): (r: Outcome<int>)
    ensures r.Raised? ==> r.error == ValueError
    ensures r.Returned? ==> Strip(text) != ""
  {
    var t := Strip(text);
    var u := Unsigned(t);
    if !UnderscoredDigits(u) then Raised(ValueError)
    else
      UnderscoredDropsToDigits(u);
      var v: int := Decimal.DigitsValue(DropUnderscores(u));
      Returned(if |t| > 0 && t[0] == '-' then -v else v)
  }

  /** The digits str() prints for a natural number read back through int(). */
  lemma IntOfNatString(m: nat)
    ensures var ds := Decimal.NatToString(m);
            UnderscoredDigits(ds) && Decimal.DigitsValue(DropUnderscores(ds)) == m
  {
    var ds := Decimal.NatToString(m);
    Decimal.DigitsOfNat(m);
    DropNoUnderscores(ds);
  }

  /** int(str(n)) == n. */
  lemma IntOfToString(n: int)
    ensures IntOf(Decimal.ToString(n)) == Returned(n)
  {
    var m: nat := if n < 0 then -n else n;
    IntOfNatString(m);
    ToStringStripped(n);
    UnsignedToString(n, m);
  }

  /** After its sign, what str() prints for an integer is the digits of its magnitude. */
  lemma UnsignedToString(n: int, m: nat)
    requires m == if n < 0 then -n else n
    ensures Unsigned(Decimal.ToString(n)) == Decimal.NatToString(m)
    ensures |Decimal.ToString(n)| > 0 && (Decimal.ToString(n)[0] == '-' <==> n < 0)
  {
    var ds := Decimal.NatToString(m);
    assert Decimal.IsDigit(ds[0]);
  }

  /** What str() prints for an integer has no surrounding whitespace. */
  lemma ToStringStripped(n: int)
    ensures Strip(Decimal.ToString(n)) == Decimal.ToString(n)
  {
    var s := Decimal.ToString(n);
    var ds := Decimal.NatToString(if n < 0 then -n else n);
    assert s[|s| - 1] == ds[|ds| - 1];
    assert s[0] == '-' || s[0] == ds[0];
    assert Decimal.IsDigit(ds[0]) && Decimal.IsDigit(ds[|ds| - 1]);
    StripFixpoint(s);
  }

  /** str(v). */
  function Str(v: PyValue): (r: string)
    ensures v.PyInt? ==> IntOf(r) == Returned(v.i)
  {
    match v
    case PyNone => "None"
    case PyBool(b) => if b then "True" else "False"
    case PyInt(i) => IntOfToString(i); Decimal.ToString(i)
    case PyStr(s) => s
  }

  /** int(v) on a value: bools count as 0 and 1, text is parsed, None raises TypeError. */
  function IntOfValue(v: PyValue): (r: Outcome<int>)
    ensures v.PyInt? ==> r == Returned(v.i)
    ensures v.PyNone? ==> r == Raised(TypeError)
  {
    match v
    case PyNone => Raised(TypeError)
    case PyBool(b) => Returned(if b then 1 else 0)
    case PyInt(i) => Returned(i)
    case PyStr(s) => IntOf(s)
  }

  /** os.path.join(a, b) on POSIX: an absolute b wins; otherwise one '/' between them. */
  function PathJoin(a: string, b: string): (r: string)
    ensures |b| > 0 && b[0] == '/' ==> r == b
    ensures |b| == 0 || b[0] != '/' ==> r == a + b || r == a + "/" + b
  {
    if |b| > 0 && b[0] == '/' then b
    else if |a| == 0 || a[|a| - 1] == '/' then a + b
    else a + "/" + b
  }

  /** The line boundaries str.splitlines cuts at; "\r\n" counts as one. */
  predicate IsLineBreak(c: char)
  {
    c == '\n' || c == '\r' || c == '\U{b}' || c == '\U{c}' || c == '\U{1c}' || c == '\U{1d}' || c == '\U{1e}'
    || c == '\U{85}' || c == '\U{2028}' || c == '\U{2029}'
  }

  /** The index of the first line boundary, or |s|. */
  function LineEnd(s: string): (k: nat)
    ensures k <= |s|
    ensures forall i | 0 <= i < k :: !IsLineBreak(s[i])
    ensures k < |s| ==> IsLineBreak(s[k])
    decreases |s|
  {
    if |s| == 0 || IsLineBreak(s[0]) then 0 else 1 + LineEnd(s[1..])
  }

  predicate NoLineBreak(s: string)
  {
    forall i | 0 <= i < |s| :: !IsLineBreak(s[i])
  }

  /** str.splitlines(): the lines without their boundaries; a final boundary opens no empty line. */
  function SplitLines(s: string): (lines: seq<string>)
    ensures forall i | 0 <= i < |lines| :: NoLineBreak(lines[i])
    decreases |s|
  {
    if |s| == 0 then []
    else
      var k := LineEnd(s);
      if k == |s| then [s]
      else
        var w := if s[k] == '\r' && k + 1 < |s| && s[k + 1] == '\n' then 2 else 1;
        [s[..k]] + SplitLines(s[k + w..])
  }

  /** Every line followed by the separator, as `line + os.linesep` accumulates them. */
  function Terminated(lines: seq<string>, sep: string): string
  {
    if |lines| == 0 then "" else Terminated(lines[..|lines| - 1], sep) + lines[|lines| - 1] + sep
  }

  lemma {:induction false} TerminatedCons(line: string, rest: seq<string>, sep: string)
    ensures Terminated([line] + rest, sep) == line + sep + Terminated(rest, sep)
    decreases |rest|
  {
    if |rest| > 0 {
      var init := rest[..|rest| - 1];
      TerminatedCons(line, init, sep);
      assert ([line] + rest)[..|rest|] == [line] + init;
    } else {
      assert [line][..0] == [];
    }
  }

  /** Lines written out with "\n" after each are split back into the same lines. */
  lemma {:induction false} SplitLinesOfTerminated(lines: seq<string>)
    requires forall i | 0 <= i < |lines| :: NoLineBreak(lines[i])
    ensures SplitLines(Terminated(lines, "\n")) == lines
    decreases |lines|
  {
    if |lines| > 0 {
      var line := lines[0];
      var rest := lines[1..];
      assert lines == [line] + rest;
      TerminatedCons(line, rest, "\n");
      var s := Terminated(lines, "\n");
      assert s == line + "\n" + Terminated(rest, "\n");
      assert LineEnd(s) == |line| by {
        LineEndAt(s, |line|);
      }
      SplitLinesOfTerminated(rest);
      assert s[|line| + 1..] == Terminated(rest, "\n");
      assert s[..|line|] == line;
      if s[|line|] == '\r' {
        assert false;
      }
    }
  }

  lemma LineEndAt(s: string, k: nat)
    requires k < |s| && IsLineBreak(s[k]) && forall i | 0 <= i < k :: !IsLineBreak(s[i])
    ensures LineEnd(s) == k
  {
  }

  /**
   * A Python dict: its keys in insertion order and its entries. Assigning
   * to a present key keeps its place; a new key goes last.
   */
  datatype Dict<V> = Dict(keys: seq<string>, entries: map<string, V>)

  predicate DictValid<V>(d: Dict<V>)
  {
    (forall i, j | 0 <= i < j < |d.keys| :: d.keys[i] != d.keys[j])
    && (forall k | k in d.entries :: k in d.keys)
    && (forall i | 0 <= i < |d.keys| :: d.keys[i] in d.entries)
  }

  function EmptyDict<V>(): (d: Dict<V>)
    ensures DictValid(d) && d.entries == map[]
  {
    Dict([], map[])
  }

  /** d[k] = v. */
  function Put<V>(d: Dict<V>, k: string, v: V): (r: Dict<V>)
    ensures DictValid(d) ==> DictValid(r)
    ensures k in r.entries && r.entries[k] == v
    ensures forall j | j != k :: (j in r.entries <==> j in d.entries) && (j in d.entries ==> r.entries[j] == d.entries[j])
    ensures |r.keys| >= |d.keys| && r.keys[..|d.keys|] == d.keys
    ensures DictValid(d) ==> (k in d.entries <==> r.keys == d.keys)
  {
    Dict(if k in d.entries then d.keys else d.keys + [k], d.entries[k := v])
  }
  /** The first position of k in ks. */
  function IndexOf(ks: seq<string>, k: string): (i: nat)
    requires k in ks
    ensures i < |ks| && ks[i] == k && k !in ks[..i]
  {
    if ks[0] == k then 0
    else
      var j := IndexOf(ks[1..], k);
      assert ks[1..][..j] == ks[1..j + 1];
      1 + j
  }

  /** del d[k], for a key the dict holds (Python raises KeyError otherwise). */
  function Del<V>(d: Dict<V>, k: string): (r: Dict<V>)
    requires DictValid(d) && k in d.entries
    ensures DictValid(r)
    ensures r.entries == d.entries - {k}
    ensures exists i | 0 <= i < |d.keys| :: d.keys[i] == k && r.keys == d.keys[..i] + d.keys[i + 1..]
  {
    var i := IndexOf(d.keys, k);
    DropAtValid(d, k, i);
    Dict(d.keys[..i] + d.keys[i + 1..], d.entries - {k})
  }

  /** Dropping the key at position i from both the order and the entries keeps a proper dict. */
  lemma DropAtValid<V>(d: Dict<V>, k: string, i: nat)
    requires DictValid(d) && i < |d.keys| && d.keys[i] == k
    ensures DictValid(Dict(d.keys[..i] + d.keys[i + 1..], d.entries - {k}))
  {
    DropKeepsDistinct(d.keys, i);
  }

  /** Dropping position i of a sequence of distinct keys leaves the other keys, still distinct. */
  lemma DropKeepsDistinct(ks: seq<string>, i: nat)
    requires i < |ks|
    requires forall a, b | 0 <= a < b < |ks| :: ks[a] != ks[b]
    ensures var r := ks[..i] + ks[i + 1..];
      (forall a, b | 0 <= a < b < |r| :: r[a] != r[b])
      && (forall j :: j in r <==> j in ks && j != ks[i])
  {
    var r := ks[..i] + ks[i + 1..];
    assert forall j | 0 <= j < |r| :: r[j] == ks[if j < i then j else j + 1];
    forall j | j in ks && j != ks[i] ensures j in r {
      var a :| 0 <= a < |ks| && ks[a] == j;
      assert r[if a < i then a else a - 1] == j;
    }
  }
}
