// Byte-wise lexicographic order on strings (std::string operator<) and the
// sorted, duplicate-free sequences that stand for std::set<std::string> and
// for the key order of std::map<std::string, _>.
module Lex {

  /** std::string comparison: first differing character decides, a proper prefix is smaller. */
  predicate Less(a: string, b: string)
    decreases |a|
  {
    if |a| == 0 then |b| > 0
    else if |b| == 0 then false
    else if a[0] != b[0] then a[0] < b[0]
    else Less(a[1..], b[1..])
  }

  lemma {:induction false} LessIrreflexive(a: string)
    ensures !Less(a, a)
    decreases |a|
  {
    if |a| > 0 { LessIrreflexive(a[1..]); }
  }

  lemma {:induction false} LessTransitive(a: string, b: string, c: string)
    requires Less(a, b) && Less(b, c)
    ensures Less(a, c)
    decreases |a|
  {
    if |a| > 0 && |b| > 0 && |c| > 0 && a[0] == b[0] && b[0] == c[0] {
      LessTransitive(a[1..], b[1..], c[1..]);
    }
  }

  /** The order is total: any two distinct strings are comparable. */
  lemma {:induction false} LessTotal(a: string, b: string)
    ensures a == b || Less(a, b) || Less(b, a)
    decreases |a|
  {
    if |a| > 0 && |b| > 0 && a[0] == b[0] {
      LessTotal(a[1..], b[1..]);
      if a[1..] == b[1..] {
        assert a == [a[0]] + a[1..] && b == [b[0]] + b[1..];
      }
    }
  }

  lemma {:induction false} LessAsymmetric(a: string, b: string)
    requires Less(a, b)
    ensures !Less(b, a)
    decreases |a|
  {
    if |a| > 0 && |b| > 0 && a[0] == b[0] {
      LessAsymmetric(a[1..], b[1..]);
    }
  }

  /** A strictly increasing sequence: the iteration order of a std::set<std::string>. */
  predicate Sorted(s: seq<string>)
  {
    forall i, j | 0 <= i < j < |s| :: Less(s[i], s[j])
  }

  lemma SortedNoDuplicates(s: seq<string>, i: int, j: int)
    requires Sorted(s) && 0 <= i < j < |s|
    ensures s[i] != s[j]
  {
    LessIrreflexive(s[i]);
  }

  /** std::set::insert: the element joins, order and uniqueness are kept. */
  function Insert(s: seq<string>, x: string): (r: seq<string>)
    requires Sorted(s)
    ensures Sorted(r)
    ensures forall y :: y in r <==> y in s || y == x
    decreases |s|
  {
    if |s| == 0 then [x]
    else if s[0] == x then s
    else if Less(x, s[0]) then
      HeadBelowRest(s, x);
      [x] + s
    else
      LessTotal(x, s[0]);
      var t := Insert(s[1..], x);
      HeadBelow(s, t, x);
      [s[0]] + t
  }

  lemma HeadBelowRest(s: seq<string>, x: string)
    requires Sorted(s) && |s| > 0 && Less(x, s[0])
    ensures Sorted([x] + s)
  {
    forall k | 0 < k < |s| ensures Less(x, s[k]) {
      LessTransitive(x, s[0], s[k]);
    }
  }

  lemma HeadBelow(s: seq<string>, t: seq<string>, x: string)
    requires Sorted(s) && |s| > 0 && Less(s[0], x) && Sorted(t)
    requires forall y :: y in t <==> y in s[1..] || y == x
    ensures Sorted([s[0]] + t)
  {
    forall k | 0 <= k < |t| ensures Less(s[0], t[k]) {
      if t[k] != x {
        assert t[k] in s[1..];
        var m :| 0 <= m < |s[1..]| && s[1..][m] == t[k];
        assert s[m + 1] == t[k];
      }
    }
  }

  /** std::set::erase of one key. */
  function Erase(s: seq<string>, x: string): (r: seq<string>)
    requires Sorted(s)
    ensures Sorted(r)
    ensures forall y :: y in r <==> y in s && y != x
    ensures |r| <= |s|
    decreases |s|
  {
    if |s| == 0 then []
    else if s[0] == x then
      assert forall y :: y in s[1..] ==> y != x by {
        forall k | 0 < k < |s| ensures s[k] != x { SortedNoDuplicates(s, 0, k); }
      }
      s[1..]
    else
      var t := Erase(s[1..], x);
      assert forall k | 0 <= k < |t| :: Less(s[0], t[k]) by {
        forall k | 0 <= k < |t| ensures Less(s[0], t[k]) {
          assert t[k] in s[1..];
          var m :| 0 <= m < |s[1..]| && s[1..][m] == t[k];
          assert s[m + 1] == t[k];
        }
      }
      [s[0]] + t
  }

  /** The std::set built by inserting every element of `xs` in turn. */
  function SetOf(xs: seq<string>): (r: seq<string>)
    ensures Sorted(r)
    ensures forall y :: y in r <==> y in xs
    decreases |xs|
  {
    if |xs| == 0 then [] else Insert(SetOf(xs[..|xs| - 1]), xs[|xs| - 1])
  }

  lemma SameElementsBothEmpty(s: seq<string>, t: seq<string>)
    requires forall y :: y in s <==> y in t
    ensures |s| == 0 <==> |t| == 0
  {
    if |s| > 0 { assert s[0] in t; }
    if |t| > 0 { assert t[0] in s; }
  }

  /** Two sorted sequences with the same elements are equal: a std::set has one iteration order. */
  lemma {:induction false} SortedUnique(s: seq<string>, t: seq<string>)
    requires Sorted(s) && Sorted(t)
    requires forall y :: y in s <==> y in t
    ensures s == t
    decreases |s|
  {
    SameElementsBothEmpty(s, t);
    if |s| > 0 {
      assert s[0] in t && t[0] in s;
      var i :| 0 <= i < |t| && t[i] == s[0];
      var j :| 0 <= j < |s| && s[j] == t[0];
      if i > 0 && j > 0 {
        LessAsymmetric(t[0], s[0]);
      }
      assert s[0] == t[0];
      forall y ensures y in s[1..] <==> y in t[1..] {
        if y in s[1..] {
          var m :| 0 <= m < |s[1..]| && s[1..][m] == y;
          SortedNoDuplicates(s, 0, m + 1);
          assert y in t;
        }
        if y in t[1..] {
          var m :| 0 <= m < |t[1..]| && t[1..][m] == y;
          SortedNoDuplicates(t, 0, m + 1);
          assert y in s;
        }
      }
      SortedUnique(s[1..], t[1..]);
      assert s == [s[0]] + s[1..] && t == [t[0]] + t[1..];
    }
  }
}
