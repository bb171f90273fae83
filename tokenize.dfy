// tokenize from src/parser/utils.h: cutting a string at every occurrence of
// a delimiter, and how that relates to joining the pieces back together.
module Tokenizer {
  import StringUtil

  /** `del` occurs in `s` starting at index i: its characters match s from i on, one by one. */
  predicate OccursAt(s: string, del: string, i: int)
    decreases |del|
  {
    0 <= i && i + |del| <= |s| && (|del| == 0 || (s[i] == del[0] && OccursAt(s, del[1..], i + 1)))
  }

  /** An occurrence is exactly a slice of s equal to del. */
  lemma {:induction false} OccursAtSlice(s: string, del: string, i: int)
    requires 0 <= i && i + |del| <= |s|
    ensures OccursAt(s, del, i) <==> s[i..i + |del|] == del
    decreases |del|
  {
    if |del| > 0 {
      OccursAtSlice(s, del[1..], i + 1);
      var w := s[i..i + |del|];
      assert w == [s[i]] + s[i + 1..i + |del|];
      if w == del {
        assert w[0] == del[0] && w[1..] == del[1..];
      }
      if OccursAt(s, del, i) {
        assert del == [del[0]] + del[1..];
      }
    }
  }

  /** std::string::find(del, start), with npos read back as -1. */
  function Find(s: string, del: string, start: nat): (r: int)
    ensures r == -1 || (start <= r && r + |del| <= |s| && OccursAt(s, del, r))
    decreases |s| - start
  {
    if start + |del| > |s| then -1
    else if OccursAt(s, del, start) then start
    else Find(s, del, start + 1)
  }

  /** find answers the first occurrence at or after start. */
  lemma {:induction false} FindFirst(s: string, del: string, start: nat, k: int)
    requires start <= k && (Find(s, del, start) == -1 || k < Find(s, del, start))
    ensures !OccursAt(s, del, k)
    decreases |s| - start
  {
    if start + |del| <= |s| && !OccursAt(s, del, start) && k > start {
      FindFirst(s, del, start + 1, k);
    }
  }

  /** Positions before `stop` that cannot start the delimiter do not change where the search lands. */
  lemma {:induction false} FindSkips(s: string, del: string, start: nat, stop: nat)
    requires |del| > 0 && start <= stop <= |s|
    requires forall k | start <= k < stop :: s[k] != del[0]
    ensures Find(s, del, start) == Find(s, del, stop)
    decreases stop - start
  {
    if start < stop {
      FindSkips(s, del, start + 1, stop);
    }
  }

  /** The pieces of s[start..] between consecutive occurrences of del, found left to right. */
  function SplitFrom(s: string, del: string, start: nat): seq<string>
    requires |del| > 0 && start <= |s|
    decreases |s| - start
  {
    var e := Find(s, del, start);
    if e == -1 then [s[start..]] else [s[start..e]] + SplitFrom(s, del, e + |del|)
  }

  lemma SplitFromStep(s: string, del: string, start: nat, e: int)
    requires |del| > 0 && start <= |s| && e == Find(s, del, start) && e != -1
    ensures SplitFrom(s, del, start) == [s[start..e]] + SplitFrom(s, del, e + |del|)
  {
  }

  /** What tokenize returns for s. */
  function Split(s: string, del: string): seq<string>
    requires |del| > 0
  {
    SplitFrom(s, del, 0)
  }

  /** The same pieces, appended to `acc` one at a time the way the loop collects them. */
  function SplitAcc(s: string, del: string, start: nat, acc: seq<string>): seq<string>
    requires |del| > 0 && start <= |s|
    decreases |s| - start
  {
    var e := Find(s, del, start);
    if e == -1 then acc + [s[start..]] else SplitAcc(s, del, e + |del|, acc + [s[start..e]])
  }

  lemma SplitAccLast(s: string, del: string, start: nat, acc: seq<string>)
    requires |del| > 0 && start <= |s| && Find(s, del, start) == -1
    ensures SplitAcc(s, del, start, acc) == acc + SplitFrom(s, del, start)
  {
  }

  lemma SplitAccStep(s: string, del: string, start: nat, acc: seq<string>, e: int)
    requires |del| > 0 && start <= |s| && e == Find(s, del, start) && e != -1
    ensures SplitAcc(s, del, start, acc) == SplitAcc(s, del, e + |del|, acc + [s[start..e]])
  {
  }

  lemma AppendAssoc(a: seq<string>, p: string, r: seq<string>)
    ensures (a + [p]) + r == a + ([p] + r)
  {
  }

  /** Collecting into an accumulator gives the accumulator followed by the pieces. */
  lemma {:induction false} SplitAccIsSplit(s: string, del: string, start: nat, acc: seq<string>)
    requires |del| > 0 && start <= |s|
    ensures SplitAcc(s, del, start, acc) == acc + SplitFrom(s, del, start)
    decreases |s| - start
  {
    var e := Find(s, del, start);
    if e == -1 {
      SplitAccLast(s, del, start, acc);
    } else {
      SplitAccStep(s, del, start, acc, e);
      SplitFromStep(s, del, start, e);
      SplitAccIsSplit(s, del, e + |del|, acc + [s[start..e]]);
      AppendAssoc(acc, s[start..e], SplitFrom(s, del, e + |del|));
    }
  }

  /**
   * tokenize: cut s at every occurrence of del, scanning left to right; the
   * piece after the last occurrence is always added. The source loops forever
   * on an empty delimiter, so callers must supply a non-empty one.
   */
  method Tokenize(s: string, del: string) returns (pieces: seq<string>)
    requires |del| > 0
    ensures pieces == Split(s, del)
  {
    pieces := [];
    var end := -|del|;
    while true
      invariant 0 <= end + |del| <= |s|
      invariant SplitAcc(s, del, end + |del|, pieces) == SplitAcc(s, del, 0, [])
      decreases |s| - (end + |del|)
    {
      var start := end + |del|;
      end := Find(s, del, start);
      if end == -1 {
        pieces := pieces + [s[start..]];
        SplitAccIsSplit(s, del, 0, []);
        return;
      }
      pieces := pieces + [s[start..end]];
    }
  }

  /** folly-style join, unfolded from the front. */
  lemma {:induction false} JoinCons(del: string, p: string, rest: seq<string>)
    requires |rest| > 0
    ensures StringUtil.Join(del, [p] + rest) == p + del + StringUtil.Join(del, rest)
    decreases |rest|
  {
    if |rest| > 1 {
      var all := [p] + rest;
      assert all[..|all| - 1] == [p] + rest[..|rest| - 1];
      JoinCons(del, p, rest[..|rest| - 1]);
    }
  }

  lemma SliceAround(s: string, del: string, start: nat, e: nat)
    requires start <= e && OccursAt(s, del, e)
    ensures s[start..] == s[start..e] + del + s[e + |del|..]
  {
    OccursAtSlice(s, del, e);
    assert s[start..] == s[start..e] + s[e..e + |del|] + s[e + |del|..];
  }

  lemma JoinPieceStep(s: string, del: string, start: nat, e: nat, rest: seq<string>)
    requires start <= e && OccursAt(s, del, e) && |rest| > 0 && StringUtil.Join(del, rest) == s[e + |del|..]
    ensures StringUtil.Join(del, [s[start..e]] + rest) == s[start..]
  {
    JoinCons(del, s[start..e], rest);
    SliceAround(s, del, start, e);
  }

  /** Joining the pieces with the delimiter gives back the input, and there is at least one piece. */
  lemma {:induction false} SplitJoin(s: string, del: string, start: nat, pieces: seq<string>)
    requires |del| > 0 && start <= |s| && pieces == SplitFrom(s, del, start)
    ensures |pieces| >= 1 && StringUtil.Join(del, pieces) == s[start..]
    decreases |s| - start
  {
    var e := Find(s, del, start);
    if e != -1 {
      var rest := SplitFrom(s, del, e + |del|);
      SplitFromStep(s, del, start, e);
      SplitJoin(s, del, e + |del|, rest);
      JoinPieceStep(s, del, start, e, rest);
    } else {
      assert pieces == [s[start..]];
    }
  }

  /** An occurrence inside a slice is an occurrence in the whole string. */
  lemma {:induction false} OccursInSlice(s: string, a: nat, b: nat, del: string, j: int)
    requires a <= b <= |s| && OccursAt(s[a..b], del, j)
    ensures OccursAt(s, del, a + j)
    decreases |del|
  {
    if |del| > 0 {
      assert s[a..b][j] == s[a + j];
      OccursInSlice(s, a, b, del[1..], j + 1);
    }
  }

  /** No piece contains the delimiter. */
  lemma {:induction false} SplitPiecesFree(s: string, del: string, start: nat, pieces: seq<string>, k: int, j: int)
    requires |del| > 0 && start <= |s| && pieces == SplitFrom(s, del, start) && 0 <= k < |pieces|
    ensures !OccursAt(pieces[k], del, j)
    decreases |s| - start
  {
    var e := Find(s, del, start);
    if e != -1 {
      SplitFromStep(s, del, start, e);
      var tail := SplitFrom(s, del, e + |del|);
      if k > 0 {
        SplitPiecesFree(s, del, e + |del|, tail, k - 1, j);
        assert pieces[k] == tail[k - 1];
      } else {
        assert pieces[k] == s[start..e];
        HeadPieceFree(s, del, start, e, j);
      }
    } else {
      assert pieces[k] == s[start..|s|];
      HeadPieceFree(s, del, start, |s|, j);
    }
  }

  /** The text from start up to the first delimiter (or the end) holds no delimiter. */
  lemma HeadPieceFree(s: string, del: string, start: nat, end: nat, j: int)
    requires |del| > 0 && start <= end <= |s|
    requires Find(s, del, start) == end || (Find(s, del, start) == -1 && end == |s|)
    ensures !OccursAt(s[start..end], del, j)
  {
    if OccursAt(s[start..end], del, j) {
      OccursInSlice(s, start, end, del, j);
      FindFirst(s, del, start, start + j);
    }
  }

  /** No part contains the character c. */
  predicate FreeOf(parts: seq<string>, c: char)
  {
    forall i | 0 <= i < |parts| :: c !in parts[i]
  }

  lemma JoinFirst(del: string, parts: seq<string>)
    requires |parts| > 1
    ensures StringUtil.Join(del, parts) == parts[0] + del + StringUtil.Join(del, parts[1..])
  {
    assert parts == [parts[0]] + parts[1..];
    JoinCons(del, parts[0], parts[1..]);
  }

  /** The three pieces of a concatenation sit at their offsets. */
  lemma ConcatPieces(t: string, a: string, b: string, c: string)
    requires t == a + b + c
    ensures t[..|a|] == a && t[|a|..|a| + |b|] == b && t[|a| + |b|..] == c
  {
  }

  lemma SliceOfSuffix(s: string, start: nat, i: nat, j: nat)
    requires start <= |s| && i <= j <= |s| - start
    ensures s[start..][i..j] == s[start + i..start + j]
  {
  }

  /** Dropping the first part keeps every part but the last free of c. */
  lemma FreeOfTail(parts: seq<string>, c: char)
    requires |parts| > 1 && FreeOf(parts[..|parts| - 1], c)
    ensures FreeOf(parts[1..][..|parts| - 2], c)
  {
    var init := parts[..|parts| - 1];
    var rest := parts[1..][..|parts| - 2];
    forall i | 0 <= i < |rest| ensures c !in rest[i] {
      assert rest[i] == init[i + 1];
    }
  }

  lemma CharsAbsent(s: string, start: nat, e: nat, p: string, c: char)
    requires start <= e <= |s| && s[start..e] == p && c !in p
    ensures forall k | start <= k < e :: s[k] != c
  {
    forall k | start <= k < e ensures s[k] != c { assert s[k] == p[k - start]; }
  }

  /** Where the first part ends in the joined string, and that the delimiter follows it there. */
  lemma JoinHead(s: string, del: string, start: nat, parts: seq<string>, e: nat)
    requires |del| > 0 && start <= |s| && |parts| > 1 && e == start + |parts[0]|
    requires del[0] !in parts[0] && s[start..] == StringUtil.Join(del, parts)
    ensures e + |del| <= |s| && s[start..e] == parts[0] && OccursAt(s, del, e)
    ensures s[e + |del|..] == StringUtil.Join(del, parts[1..])
    ensures forall k | start <= k < e :: s[k] != del[0]
  {
    JoinHeadPieces(s, del, start, parts, e);
    CharsAbsent(s, start, e, parts[0], del[0]);
  }

  lemma JoinHeadPieces(s: string, del: string, start: nat, parts: seq<string>, e: nat)
    requires |del| > 0 && start <= |s| && |parts| > 1 && e == start + |parts[0]|
    requires s[start..] == StringUtil.Join(del, parts)
    ensures e + |del| <= |s| && s[start..e] == parts[0] && OccursAt(s, del, e)
    ensures s[e + |del|..] == StringUtil.Join(del, parts[1..])
  {
    var p := parts[0];
    var tail := StringUtil.Join(del, parts[1..]);
    JoinFirst(del, parts);
    var t := s[start..];
    ConcatPieces(t, p, del, tail);
    SliceOfSuffix(s, start, 0, |p|);
    SliceOfSuffix(s, start, |p|, |p| + |del|);
    assert s[e + |del|..] == t[|p| + |del|..];
    OccursAtSlice(s, del, e);
  }

  /** del does not occur anywhere in p. */
  predicate DelFree(p: string, del: string)
  {
    forall j | 0 <= j <= |p| :: !OccursAt(p, del, j)
  }

  /** An occurrence in s at or after `start` is an occurrence in the suffix from there. */
  lemma {:induction false} OccursInSuffix(s: string, start: nat, del: string, r: int)
    requires start <= r && OccursAt(s, del, r)
    ensures OccursAt(s[start..], del, r - start)
    decreases |del|
  {
    if |del| > 0 {
      assert s[start..][r - start] == s[r];
      OccursInSuffix(s, start, del[1..], r + 1);
    }
  }

  /** A suffix without the delimiter leaves nothing to find. */
  lemma FindNone(s: string, del: string, start: nat)
    requires start <= |s| && DelFree(s[start..], del)
    ensures Find(s, del, start) == -1
  {
    var r := Find(s, del, start);
    if r != -1 {
      OccursInSuffix(s, start, del, r);
    }
  }

  /**
   * Joined parts split back into the same parts when no part but the last
   * holds the delimiter's first character and the last holds no delimiter.
   */
  lemma {:induction false} SplitFromJoin(s: string, del: string, start: nat, parts: seq<string>, pieces: seq<string>)
    requires |del| > 0 && start <= |s| && |parts| > 0
    requires FreeOf(parts[..|parts| - 1], del[0]) && DelFree(parts[|parts| - 1], del)
    requires s[start..] == StringUtil.Join(del, parts)
    requires pieces == SplitFrom(s, del, start)
    ensures pieces == parts
    decreases |parts|
  {
    var p := parts[0];
    if |parts| == 1 {
      FindNone(s, del, start);
      assert pieces == [s[start..]];
    } else {
      var e := start + |p|;
      assert parts[..|parts| - 1][0] == p;
      JoinHead(s, del, start, parts, e);
      FreeOfTail(parts, del[0]);
      FindSkips(s, del, start, e);
      assert Find(s, del, start) == e;
      SplitFromStep(s, del, start, e);
      var next := e + |del|;
      var rest := parts[1..];
      var tail := SplitFrom(s, del, next);
      assert next <= |s| && |rest| > 0;
      assert rest[..|rest| - 1] == parts[1..][..|parts| - 2];
      assert rest[|rest| - 1] == parts[|parts| - 1];
      assert s[next..] == StringUtil.Join(del, rest);
      SplitFromJoin(s, del, next, rest, tail);
      assert pieces == [s[start..e]] + tail;
      assert s[start..e] == p;
      assert parts == [p] + rest;
    }
  }

  /** An occurrence puts the delimiter's first character into the string. */
  lemma OccursHasFirst(p: string, del: string, j: int)
    requires |del| > 0
    ensures OccursAt(p, del, j) ==> del[0] in p
  {
    if OccursAt(p, del, j) { assert p[j] == del[0]; }
  }

  /**
   * When the delimiter's first character occurs in none of the parts,
   * tokenize undoes join: the parts come back unchanged.
   */
  lemma SplitOfJoin(del: string, parts: seq<string>)
    requires |del| > 0 && |parts| > 0 && FreeOf(parts, del[0])
    ensures Split(StringUtil.Join(del, parts), del) == parts
  {
    var last := parts[|parts| - 1];
    forall j | 0 <= j <= |last| ensures !OccursAt(last, del, j) {
      OccursHasFirst(last, del, j);
    }
    assert FreeOf(parts[..|parts| - 1], del[0]) by {
      var init := parts[..|parts| - 1];
      forall i | 0 <= i < |init| ensures del[0] !in init[i] { assert init[i] == parts[i]; }
    }
    SplitOfJoinOpenEnd(del, parts);
  }

  /** The same round trip, where the last part may hold the first character but not the delimiter. */
  lemma SplitOfJoinOpenEnd(del: string, parts: seq<string>)
    requires |del| > 0 && |parts| > 0
    requires FreeOf(parts[..|parts| - 1], del[0]) && DelFree(parts[|parts| - 1], del)
    ensures Split(StringUtil.Join(del, parts), del) == parts
  {
    var s := StringUtil.Join(del, parts);
    assert s[0..] == s;
    SplitFromJoin(s, del, 0, parts, Split(s, del));
  }
}
