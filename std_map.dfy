// std::map<std::string, std::string> (the core's KVMap) as the sequence of its
// entries in iteration order: strictly increasing keys under Lex.Less.
module StdMap {
  import opened Wrappers
  import opened Schema
  import Lex
  import SchemaUtil

  /** The entries of a std::map: keys strictly increasing, so each key once. */
  predicate Valid(m: seq<KV>)
  {
    forall i, j | 0 <= i < j < |m| :: Lex.Less(m[i].key, m[j].key)
  }

  /** map::find: the value stored under `k`, if any. */
  function Find(m: seq<KV>, k: string): Option<string>
  {
    if |m| == 0 then None
    else if m[0].key == k then Some(m[0].value)
    else Find(m[1..], k)
  }

  /** operator[] on the right of an assignment: the stored value, or "" for a missing key. */
  function Lookup(m: seq<KV>, k: string): string
  {
    match Find(m, k)
    case Some(v) => v
    case None => ""
  }

  lemma {:induction false} FindSome(m: seq<KV>, k: string)
    requires Find(m, k).Some?
    ensures exists i | 0 <= i < |m| :: m[i] == KV(k, Find(m, k).value)
    decreases |m|
  {
    if m[0].key != k {
      FindSome(m[1..], k);
      var i :| 0 <= i < |m[1..]| && m[1..][i] == KV(k, Find(m[1..], k).value);
      assert m[i + 1] == m[1..][i];
    }
  }

  /** In a valid map every entry is what find returns for its key. */
  lemma {:induction false} FindEntry(m: seq<KV>, j: int)
    requires Valid(m) && 0 <= j < |m|
    ensures Find(m, m[j].key) == Some(m[j].value)
    decreases |m|
  {
    if j > 0 {
      Lex.LessIrreflexive(m[j].key);
      assert m[0].key != m[j].key;
      assert m[1..][j - 1] == m[j];
      FindEntry(m[1..], j - 1);
    }
  }

  /** operator[] = v: the key now maps to v and nothing else changes. */
  function Assign(m: seq<KV>, k: string, v: string): (r: seq<KV>)
    requires Valid(m)
    ensures Valid(r)
    ensures forall x :: Find(r, x) == if x == k then Some(v) else Find(m, x)
    decreases |m|
  {
    if |m| == 0 then [KV(k, v)]
    else if m[0].key == k then
      assert Valid(m[1..]);
      [KV(k, v)] + m[1..]
    else if Lex.Less(k, m[0].key) then
      forall j | 0 < j < |m| ensures Lex.Less(k, m[j].key) {
        Lex.LessTransitive(k, m[0].key, m[j].key);
      }
      [KV(k, v)] + m
    else
      Lex.LessTotal(k, m[0].key);
      assert Valid(m[1..]);
      var t := Assign(m[1..], k, v);
      AboveHead(m, t);
      [m[0]] + t
  }

  /** A map whose keys lie above the head's key, or among the tail's keys, may follow the head. */
  lemma AboveHead(m: seq<KV>, t: seq<KV>)
    requires Valid(m) && |m| > 0 && Valid(t)
    requires forall x :: Find(t, x).Some? ==> Lex.Less(m[0].key, x) || Find(m[1..], x).Some?
    ensures Valid([m[0]] + t)
  {
    forall j | 0 <= j < |t| ensures Lex.Less(m[0].key, t[j].key) {
      FindEntry(t, j);
      if !Lex.Less(m[0].key, t[j].key) {
        FindSome(m[1..], t[j].key);
      }
    }
  }

  /** map::erase(k): the key is gone and nothing else changes. */
  function Erase(m: seq<KV>, k: string): (r: seq<KV>)
    requires Valid(m)
    ensures Valid(r)
    ensures forall x :: Find(r, x) == if x == k then None else Find(m, x)
    decreases |m|
  {
    if |m| == 0 then []
    else
      assert Valid(m[1..]);
      var t := Erase(m[1..], k);
      if m[0].key == k then
        assert Find(m[1..], k).None? by {
          if Find(m[1..], k).Some? {
            FindSome(m[1..], k);
            var i :| 0 <= i < |m[1..]| && m[1..][i].key == k;
            assert m[i + 1].key == k;
            Lex.LessIrreflexive(k);
          }
        }
        m[1..]
      else
        AboveHead(m, t);
        [m[0]] + t
  }

  /** map::insert of one pair: a key already present keeps its value. */
  function InsertNew(m: seq<KV>, k: string, v: string): (r: seq<KV>)
    requires Valid(m)
    ensures Valid(r)
    ensures forall x :: Find(r, x) == if x == k && Find(m, k).None? then Some(v) else Find(m, x)
  {
    if Find(m, k).Some? then m else Assign(m, k, v)
  }

  /** map::insert(first, last): each pair in turn, none overwriting a present key. */
  function InsertRange(m: seq<KV>, kvs: seq<KV>): (r: seq<KV>)
    requires Valid(m)
    ensures Valid(r)
    decreases |kvs|
  {
    if |kvs| == 0 then m else InsertRange(InsertNew(m, kvs[0].key, kvs[0].value), kvs[1..])
  }

  /** After an insert of a range, a key keeps its old value, or takes the range's first value for it. */
  lemma {:induction false} InsertRangeFind(m: seq<KV>, kvs: seq<KV>, x: string)
    requires Valid(m)
    ensures Find(InsertRange(m, kvs), x) == if Find(m, x).Some? then Find(m, x) else SchemaUtil.FirstValue(kvs, x)
    decreases |kvs|
  {
    if |kvs| > 0 {
      InsertRangeFind(InsertNew(m, kvs[0].key, kvs[0].value), kvs[1..], x);
    }
  }
}
