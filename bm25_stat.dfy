// BM25 corpus statistics (src/function/bm25_stat.h, class Stats): for each
// token, the number of rows that contain it, plus the total token count and
// the row count, updated from sparse embeddings as rows come and go.
//
// An embedding is a byte string of 8-byte records: a little-endian uint32
// token key followed by a float32 term frequency.
module Bm25Stat {

  /** One decoded record of an embedding: the token key and int(freq). */
  datatype Entry = Entry(key: nat, count: int)

  /** The counters of a Stats object as one value. */
  datatype StatsState = StatsState(
    outputFieldName: string,
    rowsContainToken: map<nat, int>,
    tokenNum: int,
    rowsNum: int)

  function Pow2(n: nat): (r: nat)
    ensures r >= 1
  {
    if n == 0 then 1 else 2 * Pow2(n - 1)
  }

  /** The little-endian unsigned value of four bytes starting at `at`. */
  function U32At(embd: seq<bv8>, at: nat): (r: nat)
    requires at + 4 <= |embd|
    ensures r < 0x1_0000_0000
  {
    ((embd[at + 3] as bv32 << 24) | (embd[at + 2] as bv32 << 16) | (embd[at + 1] as bv32 << 8)
     | embd[at] as bv32) as nat
  }

  /**
   * int(f) for the IEEE-754 single with these bits: truncation toward zero of
   * sign * 1.mantissa * 2^(exponent - 127); subnormals and everything below
   * one in magnitude truncate to 0.
   */
  function TruncF32(bits: nat): (r: int)
    requires bits < 0x1_0000_0000
    ensures bits / 0x8000_0000 == 0 ==> r >= 0
    ensures bits / 0x8000_0000 == 1 ==> r <= 0
  {
    var negative := bits / 0x8000_0000 == 1;
    var exponent := (bits / 0x80_0000) % 0x100;
    var mantissa := bits % 0x80_0000;
    var magnitude := if exponent < 127 then 0 else (0x80_0000 + mantissa) * Pow2(exponent - 127) / 0x80_0000;
    if negative then -magnitude else magnitude
  }

  /** The records of an embedding, size/8 of them, in order. */
  function Entries(embd: seq<bv8>): (es: seq<Entry>)
    requires |embd| % 8 == 0
    ensures |es| == |embd| / 8
  {
    seq(|embd| / 8, i requires 0 <= i < |embd| / 8 =>
      Entry(U32At(embd, 8 * i), TruncF32(U32At(embd, 8 * i + 4))))
  }

  /** The record read at byte offset 8 * i is the i-th entry. */
  lemma EntryAt(embd: seq<bv8>, pos: nat, i: nat)
    requires |embd| % 8 == 0 && pos == 8 * i && pos < |embd|
    ensures i < |Entries(embd)| && Entries(embd)[i] == Entry(U32At(embd, pos), TruncF32(U32At(embd, pos + 4)))
  {
  }

  /** map::operator[] on the right: the stored count, or 0 for a missing key. */
  function Get(m: map<nat, int>, k: nat): int
  {
    if k in m then m[k] else 0
  }

  /** rows_contain_token[key] += delta for each record in turn. */
  function Bumped(m: map<nat, int>, es: seq<Entry>, delta: int): map<nat, int>
  {
    if |es| == 0 then m
    else
      var before := Bumped(m, es[..|es| - 1], delta);
      var k := es[|es| - 1].key;
      before[k := Get(before, k) + delta]
  }

  /** One more record: one more bump. */
  lemma BumpedSnoc(m: map<nat, int>, es: seq<Entry>, i: nat, delta: int)
    requires i < |es|
    ensures Bumped(m, es[..i + 1], delta)
         == Bumped(m, es[..i], delta)[es[i].key := Get(Bumped(m, es[..i], delta), es[i].key) + delta]
    ensures Tokens(es[..i + 1]) == Tokens(es[..i]) + es[i].count
  {
    assert es[..i + 1][..i] == es[..i];
  }

  /** The sum of the records' int(freq). */
  function Tokens(es: seq<Entry>): int
  {
    if |es| == 0 then 0 else Tokens(es[..|es| - 1]) + es[|es| - 1].count
  }

  /** How many records carry token `k`. */
  function Occurrences(es: seq<Entry>, k: nat): nat
  {
    if |es| == 0 then 0 else Occurrences(es[..|es| - 1], k) + (if es[|es| - 1].key == k then 1 else 0)
  }

  /** The token keys of the records. */
  function KeySet(es: seq<Entry>): set<nat>
  {
    set i | 0 <= i < |es| :: es[i].key
  }

  /** After the bumps each token's count moved by delta once per record carrying it. */
  lemma {:induction false} BumpedGet(m: map<nat, int>, es: seq<Entry>, delta: int, k: nat)
    ensures Get(Bumped(m, es, delta), k) == Get(m, k) + delta * Occurrences(es, k)
  {
    if |es| > 0 {
      var init := es[..|es| - 1];
      BumpedGet(m, init, delta, k);
      var b := Bumped(m, init, delta);
      assert Get(Bumped(m, es, delta), k) == Get(b, k) + (if es[|es| - 1].key == k then delta else 0);
      assert delta * (Occurrences(init, k) + 1) == delta * Occurrences(init, k) + delta;
    }
  }

  /** The bumps touch exactly the record keys: those are in the map afterwards, nothing else is added. */
  lemma {:induction false} BumpedKeys(m: map<nat, int>, es: seq<Entry>, delta: int)
    ensures Bumped(m, es, delta).Keys == m.Keys + KeySet(es)
  {
    if |es| > 0 {
      var init := es[..|es| - 1];
      BumpedKeys(m, init, delta);
      assert KeySet(es) == KeySet(init) + {es[|es| - 1].key} by {
        forall x | x in KeySet(es) ensures x in KeySet(init) + {es[|es| - 1].key} {
          var i :| 0 <= i < |es| && es[i].key == x;
          if i < |es| - 1 {
            assert init[i] == es[i];
          }
        }
        forall x | x in KeySet(init) ensures x in KeySet(es) {
          var i :| 0 <= i < |init| && init[i].key == x;
          assert es[i] == init[i];
        }
      }
    }
  }

  /** Stats::Add: every record bumps its token by one and adds int(freq); one more row. */
  function Added(st: StatsState, embd: seq<bv8>): (r: StatsState)
    requires |embd| % 8 == 0
    ensures r.outputFieldName == st.outputFieldName && r.rowsNum == st.rowsNum + 1
    ensures forall k: nat :: Get(r.rowsContainToken, k) == Get(st.rowsContainToken, k) + Occurrences(Entries(embd), k)
  {
    var es := Entries(embd);
    forall k: nat ensures Get(Bumped(st.rowsContainToken, es, 1), k) == Get(st.rowsContainToken, k) + Occurrences(es, k) {
      BumpedGet(st.rowsContainToken, es, 1, k);
    }
    st.(rowsContainToken := Bumped(st.rowsContainToken, es, 1), tokenNum := st.tokenNum + Tokens(es),
        rowsNum := st.rowsNum + 1)
  }

  /** Stats::Remove as written: the counts go down, but the row count goes up. */
  function RemovedAsWritten(st: StatsState, embd: seq<bv8>): (r: StatsState)
    requires |embd| % 8 == 0
    ensures r.outputFieldName == st.outputFieldName && r.rowsNum == st.rowsNum + 1
    ensures forall k: nat :: Get(r.rowsContainToken, k) == Get(st.rowsContainToken, k) - Occurrences(Entries(embd), k)
  {
    var es := Entries(embd);
    forall k: nat ensures Get(Bumped(st.rowsContainToken, es, -1), k) == Get(st.rowsContainToken, k) - Occurrences(es, k) {
      BumpedGet(st.rowsContainToken, es, -1, k);
    }
    st.(rowsContainToken := Bumped(st.rowsContainToken, es, -1), tokenNum := st.tokenNum - Tokens(es),
        rowsNum := st.rowsNum + 1)
  }

  /** Removing a row: the counts go down and so does the row count. */
  function Removed(st: StatsState, embd: seq<bv8>): (r: StatsState)
    requires |embd| % 8 == 0
    ensures r.outputFieldName == st.outputFieldName && r.rowsNum == st.rowsNum - 1
    ensures r.rowsContainToken == RemovedAsWritten(st, embd).rowsContainToken
    ensures r.tokenNum == RemovedAsWritten(st, embd).tokenNum
  {
    RemovedAsWritten(st, embd).(rowsNum := st.rowsNum - 1)
  }

  /**
   * Removing the row just added restores every token count (a key first seen
   * in it stays in the map with count 0), the token total and the row count.
   */
  lemma AddThenRemoveRestores(st: StatsState, embd: seq<bv8>)
    requires |embd| % 8 == 0
    ensures var r := Removed(Added(st, embd), embd);
      r.rowsNum == st.rowsNum && r.tokenNum == st.tokenNum && r.outputFieldName == st.outputFieldName
      && (forall k: nat :: Get(r.rowsContainToken, k) == Get(st.rowsContainToken, k))
      && r.rowsContainToken.Keys == st.rowsContainToken.Keys + KeySet(Entries(embd))
  {
    var es := Entries(embd);
    var mid := Added(st, embd);
    BumpedKeys(st.rowsContainToken, es, 1);
    BumpedKeys(mid.rowsContainToken, es, -1);
  }

  /** As written, add-then-remove leaves the row count two higher instead of unchanged. */
  lemma AddThenRemoveAsWrittenDrifts(st: StatsState, embd: seq<bv8>)
    requires |embd| % 8 == 0
    ensures RemovedAsWritten(Added(st, embd), embd).rowsNum == st.rowsNum + 2
  {
  }

  class Stats {
    var outputFieldName: string
    /** rows_contain_token: token key to the number of rows containing it. */
    var rowsContainToken: map<nat, int>
    var tokenNum: int
    var rowsNum: int

    function State(): StatsState
      reads this
    {
      StatsState(outputFieldName, rowsContainToken, tokenNum, rowsNum)
    }

    constructor(name: string)
      ensures State() == StatsState(name, map[], 0, 0)
    {
      outputFieldName := name;
      rowsContainToken := map[];
      tokenNum := 0;
      rowsNum := 0;
    }

    /** Walks the records 8 bytes at a time, then counts the row. */
    method Add(embd: seq<bv8>)
      requires |embd| % 8 == 0
      modifies this
      ensures State() == Added(old(State()), embd)
    {
      ghost var es := Entries(embd);
      var pos := 0;
      ghost var i := 0;
      while pos < |embd|
        invariant pos == 8 * i && pos <= |embd|
        invariant outputFieldName == old(outputFieldName) && rowsNum == old(rowsNum)
        invariant rowsContainToken == Bumped(old(rowsContainToken), es[..i], 1)
        invariant tokenNum == old(tokenNum) + Tokens(es[..i])
      {
        var key := U32At(embd, pos);
        var freq := TruncF32(U32At(embd, pos + 4));
        EntryAt(embd, pos, i);
        BumpedSnoc(old(rowsContainToken), es, i, 1);
        rowsContainToken := rowsContainToken[key := Get(rowsContainToken, key) + 1];
        tokenNum := tokenNum + freq;
        pos := pos + 8;
        i := i + 1;
      }
      assert es[..i] == es;
      rowsNum := rowsNum + 1;
    }

    /** The mirror of Add, except that it also counts the row up (RemovedAsWritten). */
    method Remove(embd: seq<bv8>)
      requires |embd| % 8 == 0
      modifies this
      ensures State() == RemovedAsWritten(old(State()), embd)
    {
      ghost var es := Entries(embd);
      var pos := 0;
      ghost var i := 0;
      while pos < |embd|
        invariant pos == 8 * i && pos <= |embd|
        invariant outputFieldName == old(outputFieldName) && rowsNum == old(rowsNum)
        invariant rowsContainToken == Bumped(old(rowsContainToken), es[..i], -1)
        invariant tokenNum == old(tokenNum) - Tokens(es[..i])
      {
        var key := U32At(embd, pos);
        var freq := TruncF32(U32At(embd, pos + 4));
        EntryAt(embd, pos, i);
        BumpedSnoc(old(rowsContainToken), es, i, -1);
        rowsContainToken := rowsContainToken[key := Get(rowsContainToken, key) - 1];
        tokenNum := tokenNum - freq;
        pos := pos + 8;
        i := i + 1;
      }
      assert es[..i] == es;
      rowsNum := rowsNum + 1;
    }
  }
}
