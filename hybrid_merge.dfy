// The score merging of the hybrid search: per query, a map from id to the sum
// of the (rescored) scores the sub-results gave it, then the map's entries
// ranked by descending score. std::map is modelled as an association list
// kept in first-insertion order.
module HybridMerge {
  import opened Wrappers
  import MilvusIds
  import SearchTask

  /** One entry of a query's score map. */
  datatype Hit = Hit(id: MilvusIds.MilvusID, score: real)

  /** schema_util's IDsSize: the length of whichever list the IDs carry. */
  function IdCount(ids: MilvusIds.IDs): nat
  {
    match ids
    case IntId(xs) => |xs|
    case StrId(xs) => |xs|
    case NoId => 0
  }

  lemma IdCountValid(ids: MilvusIds.IDs, j: int)
    requires 0 <= j < IdCount(ids)
    ensures MilvusIds.ValidIndex(ids, j)
  {
  }

  // ---------------------------------------------------------------------------
  // The score map

  /** map::find: the score stored for x, if any. */
  function Lookup(acc: seq<Hit>, x: MilvusIds.MilvusID): (r: Option<real>)
    ensures r.None? <==> forall k | 0 <= k < |acc| :: acc[k].id != x
    decreases |acc|
  {
    if |acc| == 0 then None
    else if acc[0].id == x then Some(acc[0].score)
    else
      var r := Lookup(acc[1..], x);
      assert forall k | 1 <= k < |acc| :: acc[k] == acc[1..][k - 1];
      r
  }

  /** `m[id] += s` on an id that is present: the entry for id gains s. */
  function Increase(acc: seq<Hit>, id: MilvusIds.MilvusID, s: real): (r: seq<Hit>)
    ensures |r| == |acc| && forall k | 0 <= k < |acc| :: r[k].id == acc[k].id
    decreases |acc|
  {
    if |acc| == 0 then []
    else if acc[0].id == id then [Hit(id, acc[0].score + s)] + acc[1..]
    else [acc[0]] + Increase(acc[1..], id, s)
  }

  /** One hit of a sub-result: a new id is stored with its score, a known one gains it. */
  function AddHit(acc: seq<Hit>, id: MilvusIds.MilvusID, s: real): seq<Hit>
  {
    if Lookup(acc, id).None? then acc + [Hit(id, s)] else Increase(acc, id, s)
  }

  /** The score an absent entry counts as. */
  function Base(o: Option<real>): real
  {
    if o.Some? then o.value else 0.0
  }

  lemma {:induction false} IncreaseLookup(acc: seq<Hit>, id: MilvusIds.MilvusID, s: real, x: MilvusIds.MilvusID)
    ensures Lookup(Increase(acc, id, s), x) ==
              if x == id && Lookup(acc, id).Some? then Some(Lookup(acc, id).value + s) else Lookup(acc, x)
    decreases |acc|
  {
    if |acc| > 0 && acc[0].id != id {
      IncreaseLookup(acc[1..], id, s, x);
      assert Increase(acc, id, s)[1..] == Increase(acc[1..], id, s);
    }
  }

  lemma {:induction false} LookupSnoc(acc: seq<Hit>, h: Hit, x: MilvusIds.MilvusID)
    ensures Lookup(acc + [h], x) == if Lookup(acc, x).Some? then Lookup(acc, x) else if h.id == x then Some(h.score) else None
    decreases |acc|
  {
    if |acc| > 0 {
      assert (acc + [h])[1..] == acc[1..] + [h];
      LookupSnoc(acc[1..], h, x);
    }
  }

  /** After one hit, x's entry is unchanged unless x is the hit's id, whose entry gains the score. */
  lemma AddHitLookup(acc: seq<Hit>, id: MilvusIds.MilvusID, s: real, x: MilvusIds.MilvusID)
    ensures Lookup(AddHit(acc, id, s), x) == if x == id then Some(Base(Lookup(acc, x)) + s) else Lookup(acc, x)
  {
    if Lookup(acc, id).None? {
      LookupSnoc(acc, Hit(id, s), x);
    } else {
      IncreaseLookup(acc, id, s, x);
    }
  }

  /** No id is stored twice. */
  predicate DistinctIds(acc: seq<Hit>)
  {
    forall a, b | 0 <= a < b < |acc| :: acc[a].id != acc[b].id
  }

  lemma AddHitDistinct(acc: seq<Hit>, id: MilvusIds.MilvusID, s: real)
    requires DistinctIds(acc)
    ensures DistinctIds(AddHit(acc, id, s))
  {
  }

  /** In a map without repeated ids, every entry is what find returns for its id. */
  lemma {:induction false} LookupEntry(acc: seq<Hit>, k: int)
    requires DistinctIds(acc) && 0 <= k < |acc|
    ensures Lookup(acc, acc[k].id) == Some(acc[k].score)
    decreases |acc|
  {
    if k > 0 {
      assert acc[0].id != acc[k].id;
      assert acc[1..][k - 1] == acc[k];
      LookupEntry(acc[1..], k - 1);
    }
  }

  // ---------------------------------------------------------------------------
  // One sub-result's hits of one query

  /** The sub-result holds topks for every query, none negative, and scores and ids for all their hits. */
  predicate Covers(res: SearchTask.SearchResultData, nq: nat)
  {
    |res.topks| >= nq && (forall i | 0 <= i < |res.topks| :: res.topks[i] >= 0) &&
    SearchTask.Start(res.topks, nq) <= |res.scores| && SearchTask.Start(res.topks, nq) <= IdCount(res.ids)
  }

  /** Query i's hits in the sub-result are positions [Lo, Hi): after the hits of the queries before it. */
  function Lo(res: SearchTask.SearchResultData, i: nat): int
    requires i < |res.topks|
  {
    SearchTask.Start(res.topks, i)
  }

  function Hi(res: SearchTask.SearchResultData, i: nat): int
    requires i < |res.topks|
  {
    SearchTask.Start(res.topks, i) + res.topks[i]
  }

  lemma SegmentInside(res: SearchTask.SearchResultData, nq: nat, i: nat)
    requires Covers(res, nq) && i < nq
    ensures 0 <= Lo(res, i) <= Hi(res, i) <= |res.scores| && Hi(res, i) <= IdCount(res.ids)
  {
    SearchTask.StartMono(res.topks, i, i + 1);
    SearchTask.StartMono(res.topks, i + 1, nq);
    assert Hi(res, i) == SearchTask.Start(res.topks, i + 1);
  }

  /** The hits j in [lo, hi) of a sub-result, accumulated in order. */
  function AddRun(acc: seq<Hit>, res: SearchTask.SearchResultData, lo: int, hi: int): seq<Hit>
    requires 0 <= lo && hi <= |res.scores| && hi <= IdCount(res.ids)
    decreases hi - lo
  {
    if hi <= lo then acc
    else
      IdCountValid(res.ids, hi - 1);
      AddHit(AddRun(acc, res, lo, hi - 1), MilvusIds.FromIDs(res.ids, hi - 1), res.scores[hi - 1])
  }

  /** Whether x is among the ids at positions [lo, hi). */
  predicate InRun(res: SearchTask.SearchResultData, lo: int, hi: int, x: MilvusIds.MilvusID)
    requires 0 <= lo && hi <= IdCount(res.ids)
    decreases hi - lo
  {
    hi > lo && (IdCountValid(res.ids, hi - 1); MilvusIds.FromIDs(res.ids, hi - 1) == x || InRun(res, lo, hi - 1, x))
  }

  /** The sum of the scores at the positions in [lo, hi) that hold x. */
  function RunSum(res: SearchTask.SearchResultData, lo: int, hi: int, x: MilvusIds.MilvusID): real
    requires 0 <= lo && hi <= |res.scores| && hi <= IdCount(res.ids)
    decreases hi - lo
  {
    if hi <= lo then 0.0
    else
      IdCountValid(res.ids, hi - 1);
      RunSum(res, lo, hi - 1, x) + (if MilvusIds.FromIDs(res.ids, hi - 1) == x then res.scores[hi - 1] else 0.0)
  }

  lemma {:induction false} RunSumAbsent(res: SearchTask.SearchResultData, lo: int, hi: int, x: MilvusIds.MilvusID)
    requires 0 <= lo && hi <= |res.scores| && hi <= IdCount(res.ids) && !InRun(res, lo, hi, x)
    ensures RunSum(res, lo, hi, x) == 0.0
    decreases hi - lo
  {
    if hi > lo {
      RunSumAbsent(res, lo, hi - 1, x);
    }
  }

  /** An entry o after a run that holds the id (inRun) with these scores summing to sum. */
  function Bumped(o: Option<real>, inRun: bool, sum: real): Option<real>
  {
    if inRun then Some(Base(o) + sum) else o
  }

  /**
   * Accumulating a run: an id the run holds ends with what it had (0 when
   * absent) plus the sum of its scores in the run; any other id is untouched.
   */
  lemma {:induction false} AddRunLookup(acc: seq<Hit>, res: SearchTask.SearchResultData, lo: int, hi: int, x: MilvusIds.MilvusID)
    requires 0 <= lo && hi <= |res.scores| && hi <= IdCount(res.ids)
    ensures Lookup(AddRun(acc, res, lo, hi), x) == Bumped(Lookup(acc, x), InRun(res, lo, hi, x), RunSum(res, lo, hi, x))
    decreases hi - lo
  {
    if hi > lo {
      AddRunLookup(acc, res, lo, hi - 1, x);
      AddRunLookupNext(acc, res, lo, hi, x);
    }
  }

  /** The inductive step of AddRunLookup, with the claim for [lo, hi - 1) given. */
  lemma AddRunLookupNext(acc: seq<Hit>, res: SearchTask.SearchResultData, lo: int, hi: int, x: MilvusIds.MilvusID)
    requires 0 <= lo < hi <= |res.scores| && hi <= IdCount(res.ids)
    requires Lookup(AddRun(acc, res, lo, hi - 1), x) == Bumped(Lookup(acc, x), InRun(res, lo, hi - 1, x), RunSum(res, lo, hi - 1, x))
    ensures Lookup(AddRun(acc, res, lo, hi), x) == Bumped(Lookup(acc, x), InRun(res, lo, hi, x), RunSum(res, lo, hi, x))
  {
    IdCountValid(res.ids, hi - 1);
    var y, s := MilvusIds.FromIDs(res.ids, hi - 1), res.scores[hi - 1];
    var inPrev, sumPrev := InRun(res, lo, hi - 1, x), RunSum(res, lo, hi - 1, x);
    if !inPrev {
      RunSumAbsent(res, lo, hi - 1, x);
    }
    RunUnfold(acc, res, lo, hi, x);
    AddRunLookupStep(Lookup(acc, x), AddRun(acc, res, lo, hi - 1), y, s, x, inPrev, sumPrev);
  }

  /** AddRun, InRun and RunSum over [lo, hi) in terms of [lo, hi - 1) and position hi - 1. */
  lemma RunUnfold(acc: seq<Hit>, res: SearchTask.SearchResultData, lo: int, hi: int, x: MilvusIds.MilvusID)
    requires 0 <= lo < hi <= |res.scores| && hi <= IdCount(res.ids)
    ensures MilvusIds.ValidIndex(res.ids, hi - 1)
    ensures AddRun(acc, res, lo, hi) == AddHit(AddRun(acc, res, lo, hi - 1), MilvusIds.FromIDs(res.ids, hi - 1), res.scores[hi - 1])
    ensures InRun(res, lo, hi, x) == (MilvusIds.FromIDs(res.ids, hi - 1) == x || InRun(res, lo, hi - 1, x))
    ensures RunSum(res, lo, hi, x) ==
              RunSum(res, lo, hi - 1, x) + (if MilvusIds.FromIDs(res.ids, hi - 1) == x then res.scores[hi - 1] else 0.0)
  {
    IdCountValid(res.ids, hi - 1);
  }

  /** One more hit of a run, with what the run so far did to x given as inRun and sum. */
  lemma AddRunLookupStep(o: Option<real>, a: seq<Hit>, y: MilvusIds.MilvusID, s: real, x: MilvusIds.MilvusID, inRun: bool, sum: real)
    requires Lookup(a, x) == Bumped(o, inRun, sum)
    requires !inRun ==> sum == 0.0
    ensures Lookup(AddHit(a, y, s), x) == Bumped(o, y == x || inRun, sum + if y == x then s else 0.0)
  {
    AddHitLookup(a, y, s, x);
  }

  lemma {:induction false} AddRunDistinct(acc: seq<Hit>, res: SearchTask.SearchResultData, lo: int, hi: int)
    requires 0 <= lo && hi <= |res.scores| && hi <= IdCount(res.ids) && DistinctIds(acc)
    ensures DistinctIds(AddRun(acc, res, lo, hi))
    decreases hi - lo
  {
    if hi > lo {
      AddRunDistinct(acc, res, lo, hi - 1);
      IdCountValid(res.ids, hi - 1);
      AddHitDistinct(AddRun(acc, res, lo, hi - 1), MilvusIds.FromIDs(res.ids, hi - 1), res.scores[hi - 1]);
    }
  }

  // ---------------------------------------------------------------------------
  // All sub-results of one query

  predicate AllCover(results: seq<SearchTask.SearchResultData>, nq: nat)
  {
    forall k | 0 <= k < |results| :: Covers(results[k], nq)
  }

  /** accumulated_scores[i] once the sub-results have been read in order. */
  function Merged(results: seq<SearchTask.SearchResultData>, nq: nat, i: nat): seq<Hit>
    requires AllCover(results, nq) && i < nq
    decreases |results|
  {
    if |results| == 0 then []
    else
      var r := results[|results| - 1];
      SegmentInside(r, nq, i);
      AddRun(Merged(results[..|results| - 1], nq, i), r, Lo(r, i), Hi(r, i))
  }

  /** Whether some sub-result gave x among query i's hits. */
  predicate Seen(results: seq<SearchTask.SearchResultData>, nq: nat, i: nat, x: MilvusIds.MilvusID)
    requires AllCover(results, nq) && i < nq
    decreases |results|
  {
    |results| > 0 &&
    var r := results[|results| - 1];
    SegmentInside(r, nq, i);
    (Seen(results[..|results| - 1], nq, i, x) || InRun(r, Lo(r, i), Hi(r, i), x))
  }

  /** The sum, over the sub-results, of the scores they gave x among query i's hits. */
  function TotalScore(results: seq<SearchTask.SearchResultData>, nq: nat, i: nat, x: MilvusIds.MilvusID): real
    requires AllCover(results, nq) && i < nq
    decreases |results|
  {
    if |results| == 0 then 0.0
    else
      var r := results[|results| - 1];
      SegmentInside(r, nq, i);
      TotalScore(results[..|results| - 1], nq, i, x) + RunSum(r, Lo(r, i), Hi(r, i), x)
  }

  lemma {:induction false} TotalScoreUnseen(results: seq<SearchTask.SearchResultData>, nq: nat, i: nat, x: MilvusIds.MilvusID)
    requires AllCover(results, nq) && i < nq && !Seen(results, nq, i, x)
    ensures TotalScore(results, nq, i, x) == 0.0
    decreases |results|
  {
    if |results| > 0 {
      var r := results[|results| - 1];
      SegmentInside(r, nq, i);
      TotalScoreUnseen(results[..|results| - 1], nq, i, x);
      RunSumAbsent(r, Lo(r, i), Hi(r, i), x);
    }
  }

  /**
   * Query i's map holds exactly the ids some sub-result returned for it, each
   * with the sum of the scores the sub-results gave it.
   */
  lemma {:induction false} MergedLookup(results: seq<SearchTask.SearchResultData>, nq: nat, i: nat, x: MilvusIds.MilvusID)
    requires AllCover(results, nq) && i < nq
    ensures Lookup(Merged(results, nq, i), x) == if Seen(results, nq, i, x) then Some(TotalScore(results, nq, i, x)) else None
    decreases |results|
  {
    if |results| > 0 {
      var pre := results[..|results| - 1];
      var r := results[|results| - 1];
      SegmentInside(r, nq, i);
      MergedLookup(pre, nq, i, x);
      AddRunLookup(Merged(pre, nq, i), r, Lo(r, i), Hi(r, i), x);
      assert Merged(results, nq, i) == AddRun(Merged(pre, nq, i), r, Lo(r, i), Hi(r, i));
      if !Seen(pre, nq, i, x) {
        TotalScoreUnseen(pre, nq, i, x);
      } else if !InRun(r, Lo(r, i), Hi(r, i), x) {
        RunSumAbsent(r, Lo(r, i), Hi(r, i), x);
      }
    }
  }

  lemma {:induction false} MergedDistinct(results: seq<SearchTask.SearchResultData>, nq: nat, i: nat)
    requires AllCover(results, nq) && i < nq
    ensures DistinctIds(Merged(results, nq, i))
    decreases |results|
  {
    if |results| > 0 {
      var r := results[|results| - 1];
      SegmentInside(r, nq, i);
      MergedDistinct(results[..|results| - 1], nq, i);
      AddRunDistinct(Merged(results[..|results| - 1], nq, i), r, Lo(r, i), Hi(r, i));
    }
  }

  /** Every entry of query i's map is an id some sub-result returned, with its summed score. */
  lemma MergedEntries(results: seq<SearchTask.SearchResultData>, nq: nat, i: nat)
    requires AllCover(results, nq) && i < nq
    ensures var m := Merged(results, nq, i);
            DistinctIds(m) &&
            forall k | 0 <= k < |m| :: Seen(results, nq, i, m[k].id) && m[k].score == TotalScore(results, nq, i, m[k].id)
  {
    var m := Merged(results, nq, i);
    MergedDistinct(results, nq, i);
    forall k | 0 <= k < |m|
      ensures Seen(results, nq, i, m[k].id) && m[k].score == TotalScore(results, nq, i, m[k].id)
    {
      LookupEntry(m, k);
      MergedLookup(results, nq, i, m[k].id);
    }
  }

  // ---------------------------------------------------------------------------
  // Ranking by descending score

  predicate SortedDesc(s: seq<Hit>)
  {
    forall a, b | 0 <= a < b < |s| :: s[a].score >= s[b].score
  }

  /** Insertion into a descending list: after every entry whose score is at least h's. */
  function InsertDesc(s: seq<Hit>, h: Hit): (r: seq<Hit>)
    ensures multiset(r) == multiset(s) + multiset{h}
    decreases |s|
  {
    if |s| == 0 then [h]
    else if s[|s| - 1].score >= h.score then s + [h]
    else
      var init := s[..|s| - 1];
      assert s == init + [s[|s| - 1]];
      InsertDesc(init, h) + [s[|s| - 1]]
  }

  /**
   * The order std::sort with `a.second > b.second` leaves the entries in. The
   * sort is not stable, so the order of equal scores is not fixed by the
   * source; this one keeps them in map order.
   */
  function SortDesc(xs: seq<Hit>): (r: seq<Hit>)
    ensures multiset(r) == multiset(xs) && |r| == |xs|
    decreases |xs|
  {
    if |xs| == 0 then []
    else
      var init := xs[..|xs| - 1];
      assert xs == init + [xs[|xs| - 1]];
      var r := InsertDesc(SortDesc(init), xs[|xs| - 1]);
      assert |r| == |multiset(r)| == |multiset(xs)| == |xs|;
      r
  }

  lemma {:induction false} InsertDescSorted(s: seq<Hit>, h: Hit)
    requires SortedDesc(s)
    ensures SortedDesc(InsertDesc(s, h))
    decreases |s|
  {
    if |s| > 0 && s[|s| - 1].score < h.score {
      var init := s[..|s| - 1];
      var last := s[|s| - 1];
      assert SortedDesc(init);
      InsertDescSorted(init, h);
      var r := InsertDesc(init, h);
      forall k | 0 <= k < |r| ensures r[k].score >= last.score {
        assert r[k] in multiset(r);
        if r[k] != h {
          var j :| 0 <= j < |init| && init[j] == r[k];
        }
      }
    }
  }

  lemma {:induction false} InsertDescDistinct(s: seq<Hit>, h: Hit)
    requires DistinctIds(s) && forall k | 0 <= k < |s| :: s[k].id != h.id
    ensures DistinctIds(InsertDesc(s, h))
    decreases |s|
  {
    if |s| > 0 && s[|s| - 1].score < h.score {
      var init := s[..|s| - 1];
      var last := s[|s| - 1];
      InsertDescDistinct(init, h);
      var r := InsertDesc(init, h);
      forall k | 0 <= k < |r| ensures r[k].id != last.id {
        assert r[k] in multiset(r);
        if r[k] != h {
          var j :| 0 <= j < |init| && init[j] == r[k];
          assert s[j] == init[j];
        }
      }
    }
  }

  /** The sorted entries are in descending score order, a permutation of the map's entries, and keep ids distinct. */
  lemma {:induction false} SortDescSpec(xs: seq<Hit>)
    ensures SortedDesc(SortDesc(xs)) && multiset(SortDesc(xs)) == multiset(xs)
    ensures DistinctIds(xs) ==> DistinctIds(SortDesc(xs))
    decreases |xs|
  {
    if |xs| > 0 {
      var init := xs[..|xs| - 1];
      var h := xs[|xs| - 1];
      SortDescSpec(init);
      InsertDescSorted(SortDesc(init), h);
      if DistinctIds(xs) {
        var si := SortDesc(init);
        forall k | 0 <= k < |si| ensures si[k].id != h.id {
          assert si[k] in multiset(init);
          var j :| 0 <= j < |init| && init[j] == si[k];
          assert xs[j] == init[j];
        }
        InsertDescDistinct(si, h);
      }
    }
  }

  // ---------------------------------------------------------------------------
  // The window kept per query

  /** The end of the kept window: offset + limit unless fewer entries are left. */
  function WindowEnd(n: int, offset: int, limit: int): int
  {
    if offset + limit < n then offset + limit else n
  }

  /**
   * The window kept of the entries m: nothing when fewer entries than the
   * offset exist, otherwise the ranked entries from offset up to WindowEnd.
   */
  function Window(m: seq<Hit>, offset: nat, limit: nat): seq<Hit>
  {
    if |m| < offset then [] else SortDesc(m)[offset .. WindowEnd(|m|, offset, limit)]
  }

  /**
   * The window holds min(limit, n - offset) of the n entries (none when n <
   * offset); they are the entries ranked offset, offset + 1, ... of a
   * descending order of all n, so every dropped entry scores at least as
   * high and every entry past the window at most as high.
   */
  lemma WindowSpec(m: seq<Hit>, offset: nat, limit: nat)
    ensures var w := Window(m, offset, limit);
            var ranked := SortDesc(m);
            |w| == (if |m| < offset then 0 else if offset + limit < |m| then limit else |m| - offset) &&
            SortedDesc(ranked) && multiset(ranked) == multiset(m) &&
            (DistinctIds(m) ==> DistinctIds(ranked)) &&
            (|m| >= offset ==> w == ranked[offset .. WindowEnd(|m|, offset, limit)]) &&
            multiset(w) <= multiset(m)
  {
    var ranked := SortDesc(m);
    SortDescSpec(m);
    if |m| >= offset {
      SliceIncluded(ranked, offset, WindowEnd(|m|, offset, limit));
    }
  }

  lemma SliceIncluded(r: seq<Hit>, a: nat, b: nat)
    requires a <= b <= |r|
    ensures multiset(r[a..b]) <= multiset(r)
  {
    assert r == r[..a] + r[a..b] + r[b..];
  }

  /** What query i returns: the window of its merged entries. */
  function QueryWindow(results: seq<SearchTask.SearchResultData>, nq: nat, i: nat, offset: nat, limit: nat): (r: seq<Hit>)
    requires AllCover(results, nq) && i < nq
  {
    Window(Merged(results, nq, i), offset, limit)
  }

  /**
   * Per query, the window holds min(limit, n - offset) entries of the n
   * distinct ids the sub-results returned (none when n < offset); they are
   * the entries ranked offset, offset + 1, ... of a descending order of all
   * n; each entry carries the summed score of its id.
   */
  lemma QueryWindowSpec(results: seq<SearchTask.SearchResultData>, nq: nat, i: nat, offset: nat, limit: nat)
    requires AllCover(results, nq) && i < nq
    ensures var m := Merged(results, nq, i);
            var w := QueryWindow(results, nq, i, offset, limit);
            var ranked := SortDesc(m);
            |w| == (if |m| < offset then 0 else if offset + limit < |m| then limit else |m| - offset) &&
            SortedDesc(ranked) && multiset(ranked) == multiset(m) && DistinctIds(ranked) &&
            (|m| >= offset ==> w == ranked[offset .. WindowEnd(|m|, offset, limit)]) &&
            (forall k | 0 <= k < |w| :: Seen(results, nq, i, w[k].id) && w[k].score == TotalScore(results, nq, i, w[k].id))
  {
    var m := Merged(results, nq, i);
    MergedEntries(results, nq, i);
    WindowSpec(m, offset, limit);
    var w := Window(m, offset, limit);
    forall k | 0 <= k < |w|
      ensures Seen(results, nq, i, w[k].id) && w[k].score == TotalScore(results, nq, i, w[k].id)
    {
      assert w[k] in multiset(w);
      var j :| 0 <= j < |m| && m[j] == w[k];
    }
  }

  // ---------------------------------------------------------------------------
  // What the merged result carries

  /** The scores of a run of entries, in order. */
  function Scores(hs: seq<Hit>): (r: seq<real>)
    ensures |r| == |hs|
    decreases |hs|
  {
    if |hs| == 0 then [] else Scores(hs[..|hs| - 1]) + [hs[|hs| - 1].score]
  }

  /** Score k is entry k's. */
  lemma {:induction false} ScoresAt(hs: seq<Hit>)
    ensures forall k | 0 <= k < |hs| :: Scores(hs)[k] == hs[k].score
    decreases |hs|
  {
    if |hs| > 0 {
      var init := hs[..|hs| - 1];
      ScoresAt(init);
      assert forall k | 0 <= k < |init| :: init[k] == hs[k];
    }
  }

  /** The ids of a run of entries, each appended with AppendToIDs to an IDs that starts unset. */
  function IdsOf(hs: seq<Hit>): MilvusIds.IDs
    decreases |hs|
  {
    if |hs| == 0 then MilvusIds.NoId else MilvusIds.AppendToIDs(hs[|hs| - 1].id, IdsOf(hs[..|hs| - 1]))
  }

  /** Ids of one kind appended in order read back in that order. */
  lemma {:induction false} IdsOfReadBack(hs: seq<Hit>, kind: MilvusIds.IDType)
    requires forall k | 0 <= k < |hs| :: hs[k].id.kind == kind && MilvusIds.WellFormed(hs[k].id)
    ensures IdCount(IdsOf(hs)) == |hs|
    ensures |hs| > 0 ==> (IdsOf(hs).IntId? <==> kind == MilvusIds.INT)
    ensures forall j | 0 <= j < |hs| :: MilvusIds.ValidIndex(IdsOf(hs), j) && MilvusIds.FromIDs(IdsOf(hs), j) == hs[j].id
    decreases |hs|
  {
    if |hs| > 0 {
      var init := hs[..|hs| - 1];
      var last := hs[|hs| - 1];
      IdsOfReadBack(init, kind);
      var prev := IdsOf(init);
      var ids := IdsOf(hs);
      assert ids == MilvusIds.AppendToIDs(last.id, prev);
      forall j | 0 <= j < |hs|
        ensures MilvusIds.ValidIndex(ids, j) && MilvusIds.FromIDs(ids, j) == hs[j].id
      {
        if j < |init| {
          MilvusIds.AppendKeepsPrefix(last.id, prev, j);
          assert init[j] == hs[j];
        }
      }
    }
  }

  /** The window of every query, query 0 first. */
  function AllWindows(results: seq<SearchTask.SearchResultData>, nq: nat, offset: nat, limit: nat): (r: seq<seq<Hit>>)
    requires AllCover(results, nq)
    ensures |r| == nq && forall i | 0 <= i < nq :: r[i] == QueryWindow(results, nq, i, offset, limit)
  {
    seq(nq, i requires 0 <= i < nq => QueryWindow(results, nq, i, offset, limit))
  }

  /** The windows one after another: the order the scores and ids are added in. */
  function Flatten(ws: seq<seq<Hit>>): seq<Hit>
    decreases |ws|
  {
    if |ws| == 0 then [] else Flatten(ws[..|ws| - 1]) + ws[|ws| - 1]
  }

  /** The topks added: one window size per query. */
  function Sizes(ws: seq<seq<Hit>>): (r: seq<int>)
    ensures |r| == |ws| && forall i | 0 <= i < |ws| :: r[i] == |ws[i]| >= 0
  {
    seq(|ws|, i requires 0 <= i < |ws| => |ws[i]|)
  }

  /** Window i starts where the windows before it end. */
  lemma {:induction false} SizesStart(ws: seq<seq<Hit>>, i: nat)
    requires i <= |ws|
    ensures SearchTask.Start(Sizes(ws), i) == |Flatten(ws[..i])|
  {
    if i > 0 {
      SizesStart(ws, i - 1);
      assert ws[..i][..i - 1] == ws[..i - 1];
    }
  }

  /** The flattening of a prefix of the windows is a prefix of the flattening. */
  lemma {:induction false} FlattenPrefix(ws: seq<seq<Hit>>, i: nat)
    requires i <= |ws|
    ensures Flatten(ws[..i]) <= Flatten(ws)
    decreases |ws|
  {
    if i < |ws| {
      var init := ws[..|ws| - 1];
      FlattenPrefix(init, i);
      assert init[..i] == ws[..i];
    } else {
      assert ws[..i] == ws;
    }
  }

  /** Entry k of window i sits at Start(Sizes, i) + k of the flattening. */
  lemma FlattenAt(ws: seq<seq<Hit>>, i: nat, k: nat)
    requires i < |ws| && k < |ws[i]|
    ensures 0 <= SearchTask.Start(Sizes(ws), i) && SearchTask.Start(Sizes(ws), i) + k < |Flatten(ws)|
    ensures Flatten(ws)[SearchTask.Start(Sizes(ws), i) + k] == ws[i][k]
  {
    SizesStart(ws, i);
    FlattenPrefix(ws, i + 1);
    assert ws[..i + 1][..i] == ws[..i];
    assert Flatten(ws[..i + 1]) == Flatten(ws[..i]) + ws[i];
  }

  lemma {:induction false} FlattenKind(ws: seq<seq<Hit>>, kind: MilvusIds.IDType)
    requires forall i, k | 0 <= i < |ws| && 0 <= k < |ws[i]| :: ws[i][k].id.kind == kind && MilvusIds.WellFormed(ws[i][k].id)
    ensures forall k | 0 <= k < |Flatten(ws)| :: Flatten(ws)[k].id.kind == kind && MilvusIds.WellFormed(Flatten(ws)[k].id)
    decreases |ws|
  {
    if |ws| > 0 {
      var init := ws[..|ws| - 1];
      FlattenKind(init, kind);
      var f := Flatten(ws);
      forall k | 0 <= k < |f| ensures f[k].id.kind == kind && MilvusIds.WellFormed(f[k].id) {
        if k >= |Flatten(init)| {
          assert f[k] == ws[|ws| - 1][k - |Flatten(init)|];
        } else {
          assert f[k] == Flatten(init)[k];
        }
      }
    }
  }

  /** Every sub-result that carries ids carries them of the one kind. */
  predicate OfKind(results: seq<SearchTask.SearchResultData>, kind: MilvusIds.IDType)
  {
    forall k | 0 <= k < |results| :: results[k].ids.NoId? || (results[k].ids.IntId? <==> kind == MilvusIds.INT)
  }

  lemma {:induction false} InRunKind(res: SearchTask.SearchResultData, lo: int, hi: int, x: MilvusIds.MilvusID)
    requires 0 <= lo && hi <= IdCount(res.ids) && InRun(res, lo, hi, x)
    ensures MilvusIds.WellFormed(x) && !res.ids.NoId? && (x.kind == MilvusIds.INT <==> res.ids.IntId?)
    decreases hi - lo
  {
    IdCountValid(res.ids, hi - 1);
    if MilvusIds.FromIDs(res.ids, hi - 1) != x {
      InRunKind(res, lo, hi - 1, x);
    }
  }

  lemma {:induction false} SeenKind(results: seq<SearchTask.SearchResultData>, nq: nat, i: nat, x: MilvusIds.MilvusID, kind: MilvusIds.IDType)
    requires AllCover(results, nq) && i < nq && OfKind(results, kind) && Seen(results, nq, i, x)
    ensures MilvusIds.WellFormed(x) && x.kind == kind
    decreases |results|
  {
    var r := results[|results| - 1];
    var pre := results[..|results| - 1];
    SegmentInside(r, nq, i);
    assert AllCover(pre, nq) && OfKind(pre, kind) by {
      assert forall k | 0 <= k < |pre| :: pre[k] == results[k];
    }
    if Seen(pre, nq, i, x) {
      SeenKind(pre, nq, i, x, kind);
    } else {
      InRunKind(r, Lo(r, i), Hi(r, i), x);
    }
  }

  /** Every entry of every window carries an id of the sub-results' kind. */
  lemma WindowsKind(results: seq<SearchTask.SearchResultData>, nq: nat, offset: nat, limit: nat, kind: MilvusIds.IDType)
    requires AllCover(results, nq) && OfKind(results, kind)
    ensures var ws := AllWindows(results, nq, offset, limit);
            forall i, k | 0 <= i < |ws| && 0 <= k < |ws[i]| :: ws[i][k].id.kind == kind && MilvusIds.WellFormed(ws[i][k].id)
  {
    var ws: seq<seq<Hit>> := AllWindows(results, nq, offset, limit);
    forall i: nat, k: nat | 0 <= i < |ws| && 0 <= k < |ws[i]|
      ensures ws[i][k].id.kind == kind && MilvusIds.WellFormed(ws[i][k].id)
    {
      QueryWindowSpec(results, nq, i, offset, limit);
      SeenKind(results, nq, i, ws[i][k].id, kind);
    }
  }

  /** Entry k of window i reads back at Start(Sizes, i) + k of the added scores and ids. */
  /**
   * Entry k of window i of ws, read back from the flattened scores and ids at
   * the start of window i plus k, is that entry.
   */
  predicate ReadsBack(ws: seq<seq<Hit>>, i: nat, k: nat)
    requires i < |ws| && k < |ws[i]|
  {
    var w := Flatten(ws);
    var p := SearchTask.Start(Sizes(ws), i) + k;
    0 <= p < |Scores(w)| && Scores(w)[p] == ws[i][k].score &&
    MilvusIds.ValidIndex(IdsOf(w), p) && MilvusIds.FromIDs(IdsOf(w), p) == ws[i][k].id
  }

  lemma FlatReadBack(ws: seq<seq<Hit>>, kind: MilvusIds.IDType, i: nat, k: nat)
    requires forall i, k | 0 <= i < |ws| && 0 <= k < |ws[i]| :: ws[i][k].id.kind == kind && MilvusIds.WellFormed(ws[i][k].id)
    requires i < |ws| && k < |ws[i]|
    ensures ReadsBack(ws, i, k)
  {
    FlattenAt(ws, i, k);
    FlattenKind(ws, kind);
    IdsOfReadBack(Flatten(ws), kind);
    ScoresAt(Flatten(ws));
  }

  /**
   * Reading the merged result back the way a client does (query i's hits
   * start after the topks of the queries before it) gives query i's window:
   * the k-th hit has the k-th window entry's score and id.
   */
  lemma EmittedReadBack(results: seq<SearchTask.SearchResultData>, nq: nat, offset: nat, limit: nat, kind: MilvusIds.IDType, i: nat, k: nat)
    requires AllCover(results, nq) && OfKind(results, kind) && i < nq
    requires k < |AllWindows(results, nq, offset, limit)[i]|
    ensures ReadsBack(AllWindows(results, nq, offset, limit), i, k)
  {
    WindowsKind(results, nq, offset, limit, kind);
    FlatReadBack(AllWindows(results, nq, offset, limit), kind, i, k);
  }

  // ---------------------------------------------------------------------------
  // The loops of PostProcessSearch

  /** The innermost loop: hits lo .. hi-1 of one sub-result go into one query's map. */
  method AddSegment(accIn: seq<Hit>, res: SearchTask.SearchResultData, lo: int, hi: int) returns (acc: seq<Hit>)
    requires 0 <= lo <= hi <= |res.scores| && hi <= IdCount(res.ids)
    ensures acc == AddRun(accIn, res, lo, hi)
  {
    acc := accIn;
    var j := lo;
    while j < hi
      invariant lo <= j <= hi && acc == AddRun(accIn, res, lo, j)
    {
      IdCountValid(res.ids, j);
      var id := MilvusIds.FromIDs(res.ids, j);
      if Lookup(acc, id).None? {
        acc := acc + [Hit(id, res.scores[j])];
      } else {
        acc := Increase(acc, id, res.scores[j]);
      }
      j := j + 1;
    }
  }

  /** Query i's hits of one sub-result go into the map acc. */
  function AddQueryHits(acc: seq<Hit>, res: SearchTask.SearchResultData, nq: nat, i: nat): seq<Hit>
    requires Covers(res, nq) && i < nq
  {
    SegmentInside(res, nq, i);
    AddRun(acc, res, Lo(res, i), Hi(res, i))
  }

  /** The query loop for one sub-result: query i's hits start where query i-1's end. */
  method AddResult(accIn: seq<seq<Hit>>, res: SearchTask.SearchResultData, nq: nat) returns (acc: seq<seq<Hit>>)
    requires Covers(res, nq) && |accIn| == nq
    ensures |acc| == nq && forall i | 0 <= i < nq :: acc[i] == AddQueryHits(accIn[i], res, nq, i)
  {
    acc := accIn;
    var start := 0;
    var i := 0;
    while i < nq
      invariant 0 <= i <= nq && |acc| == nq && start == SearchTask.Start(res.topks, i)
      invariant forall k | 0 <= k < i :: acc[k] == AddQueryHits(accIn[k], res, nq, k)
      invariant forall k | i <= k < nq :: acc[k] == accIn[k]
    {
      SegmentInside(res, nq, i);
      var topk := res.topks[i];
      var seg := AddSegment(acc[i], res, start, start + topk);
      acc := acc[i := seg];
      start := start + topk;
      i := i + 1;
    }
  }

  /** The empty map of every query. */
  function EmptyMaps(nq: nat): (r: seq<seq<Hit>>)
    ensures |r| == nq && forall i | 0 <= i < nq :: r[i] == []
  {
    seq(nq, i => [])
  }

  /** The accumulation: every sub-result in turn, every query's hits summed per id. */
  method AccumulateScores(results: seq<SearchTask.SearchResultData>, nq: nat) returns (acc: seq<seq<Hit>>)
    requires AllCover(results, nq)
    ensures |acc| == nq && forall i | 0 <= i < nq :: acc[i] == Merged(results, nq, i)
  {
    acc := EmptyMaps(nq);
    var t := 0;
    while t < |results|
      invariant 0 <= t <= |results| && |acc| == nq && AllCover(results[..t], nq)
      invariant forall i | 0 <= i < nq :: acc[i] == Merged(results[..t], nq, i)
    {
      var pre := results[..t];
      acc := AddResult(acc, results[t], nq);
      MergedSnoc(results, nq, t);
      t := t + 1;
    }
    assert results[..t] == results;
  }

  /** Reading one more sub-result: Merged over results[..t+1] is AddRun of result t over Merged of results[..t]. */
  lemma MergedSnoc(results: seq<SearchTask.SearchResultData>, nq: nat, t: nat)
    requires AllCover(results, nq) && t < |results|
    ensures AllCover(results[..t], nq) && AllCover(results[..t + 1], nq)
    ensures forall i | 0 <= i < nq :: Merged(results[..t + 1], nq, i) == AddQueryHits(Merged(results[..t], nq, i), results[t], nq, i)
  {
    assert results[..t + 1][..t] == results[..t];
  }

  /** Inserting h at position p is InsertDesc when p follows every entry scoring at least as high as h. */
  lemma {:induction false} InsertDescAt(s: seq<Hit>, h: Hit, p: nat)
    requires p <= |s| && (forall k | p <= k < |s| :: s[k].score < h.score) && (p == 0 || s[p - 1].score >= h.score)
    ensures InsertDesc(s, h) == s[..p] + [h] + s[p..]
    decreases |s|
  {
    if p < |s| {
      var init := s[..|s| - 1];
      var last := s[|s| - 1];
      assert InsertDesc(s, h) == InsertDesc(init, h) + [last];
      assert forall k | p <= k < |init| :: init[k] == s[k];
      InsertDescAt(init, h, p);
      SplitSnoc(s, h, p);
    } else {
      assert s[..p] == s && s[p..] == [];
    }
  }

  lemma SplitSnoc(s: seq<Hit>, h: Hit, p: nat)
    requires p < |s|
    ensures var init := s[..|s| - 1];
            init[..p] + [h] + init[p..] + [s[|s| - 1]] == s[..p] + [h] + s[p..]
  {
    var init := s[..|s| - 1];
    assert init[..p] == s[..p];
    assert init[p..] + [s[|s| - 1]] == s[p..];
  }

  /** One insertion of the sort: h goes after the last entry scoring at least as high. */
  method InsertByScore(s: seq<Hit>, h: Hit) returns (r: seq<Hit>)
    ensures r == InsertDesc(s, h)
  {
    var p := |s|;
    while p > 0 && s[p - 1].score < h.score
      invariant 0 <= p <= |s| && forall k | p <= k < |s| :: s[k].score < h.score
    {
      p := p - 1;
    }
    InsertDescAt(s, h, p);
    r := s[..p] + [h] + s[p..];
  }

  /** The sort of a query's entries by descending score. */
  method SortByScore(xs: seq<Hit>) returns (r: seq<Hit>)
    ensures r == SortDesc(xs)
  {
    r := [];
    var i := 0;
    while i < |xs|
      invariant 0 <= i <= |xs| && r == SortDesc(xs[..i])
    {
      SortDescPrefix(xs, i);
      r := InsertByScore(r, xs[i]);
      i := i + 1;
    }
    assert xs[..i] == xs;
  }

  /** Sorting one more element of xs is inserting it into the sorted prefix. */
  lemma SortDescPrefix(xs: seq<Hit>, i: int)
    requires 0 <= i < |xs|
    ensures SortDesc(xs[..i + 1]) == InsertDesc(SortDesc(xs[..i]), xs[i])
  {
    assert xs[..i + 1][..i] == xs[..i];
  }

  /** One query's output: its window size, then its scores and ids one entry at a time. */
  method EmitWindow(w: seq<Hit>, ghost before: seq<Hit>, topksIn: seq<int>, scoresIn: seq<real>, idsIn: MilvusIds.IDs)
    returns (topks: seq<int>, scores: seq<real>, ids: MilvusIds.IDs)
    requires scoresIn == Scores(before) && idsIn == IdsOf(before)
    ensures topks == topksIn + [|w|] && scores == Scores(before + w) && ids == IdsOf(before + w)
  {
    topks := topksIn + [|w|];
    scores, ids := scoresIn, idsIn;
    var k := 0;
    assert before + w[..0] == before;
    while k < |w|
      invariant 0 <= k <= |w| && scores == Scores(before + w[..k]) && ids == IdsOf(before + w[..k])
    {
      var next := before + w[..k + 1];
      assert next[..|next| - 1] == before + w[..k] && next[|next| - 1] == w[k];
      scores := scores + [w[k].score];
      ids := MilvusIds.AppendToIDs(w[k].id, ids);
      k := k + 1;
    }
    assert w[..k] == w;
  }

  /** The window of one query's entries: none below the offset, else the ranked entries from offset on, at most limit. */
  method WindowOf(m: seq<Hit>, offset: nat, limit: nat) returns (w: seq<Hit>)
    ensures w == Window(m, offset, limit)
  {
    if |m| < offset {
      return [];
    }
    var ranked := SortByScore(m);
    var end := if offset + limit < |ranked| then offset + limit else |ranked|;
    w := ranked[offset .. end];
  }

  /** One more window: the sizes gain its size and the flattening its entries. */
  lemma WindowsSnoc(ws: seq<seq<Hit>>, i: nat)
    requires i < |ws|
    ensures Sizes(ws[..i + 1]) == Sizes(ws[..i]) + [|ws[i]|]
    ensures Flatten(ws[..i + 1]) == Flatten(ws[..i]) + ws[i]
  {
    assert ws[..i + 1][..i] == ws[..i];
  }

  /**
   * The output loop of PostProcessSearch: per query nothing when its map
   * holds fewer entries than the offset, otherwise its entries sorted by
   * descending score from the offset on, at most limit of them.
   */
  method EmitWindows(acc: seq<seq<Hit>>, ghost results: seq<SearchTask.SearchResultData>, nq: nat, offset: nat, limit: nat)
    returns (topks: seq<int>, scores: seq<real>, ids: MilvusIds.IDs)
    requires AllCover(results, nq) && |acc| == nq && forall i | 0 <= i < nq :: acc[i] == Merged(results, nq, i)
    ensures var ws := AllWindows(results, nq, offset, limit);
            topks == Sizes(ws) && scores == Scores(Flatten(ws)) && ids == IdsOf(Flatten(ws))
  {
    ghost var ws := AllWindows(results, nq, offset, limit);
    topks, scores, ids := [], [], MilvusIds.NoId;
    var i := 0;
    while i < nq
      invariant 0 <= i <= nq
      invariant topks == Sizes(ws[..i]) && scores == Scores(Flatten(ws[..i])) && ids == IdsOf(Flatten(ws[..i]))
    {
      WindowsSnoc(ws, i);
      var w := WindowOf(acc[i], offset, limit);
      assert w == ws[i];
      topks, scores, ids := EmitWindow(w, Flatten(ws[..i]), topks, scores, ids);
      i := i + 1;
    }
    assert ws[..i] == ws;
  }
}
