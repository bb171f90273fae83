// MilvusLocal (src/milvus_local.cpp): the engine facade that checks
// collection names and existence, keeps the stored collections and the
// loaded segments in step, and feeds rows to the segments.
//
// The SQLite store is represented by what it holds for each collection (its
// primary-key name, schema, index map and rows); whether each SQL write
// commits is an oracle passed in. Serialized schemas are passed as their
// decoded value.
module MilvusLocal {
  import opened Wrappers
  import opened Schema
  import opened MilvusStatus
  import StringUtil
  import SchemaUtil
  import StdMap
  import CC = CreateCollection
  import CollectionMeta
  import LocalIndex

  /** One stored row: its primary key as text and its serialized record. */
  datatype Row = Row(id: string, record: string)

  /** What the store keeps for one collection. */
  datatype Stored = Stored(pkName: string, schema: CollectionSchema, indexes: seq<KV>, rows: seq<Row>)

  /** The batch size LoadCollection reads rows in. */
  const LOAD_BATCH: nat := 200000

  /**
   * CheckCollectionName: non-empty, at most 255 characters, a letter or '_'
   * first and letters, digits or '_' after.
   */
  function CheckCollectionName(name: string): (s: Status)
    ensures s.IsOk() <==> CC.IsIdentifier(name)
    ensures s.IsErr() ==> s == ParameterInvalid("")
  {
    if |name| == 0 then ParameterInvalid("")
    else if |name| > 255 then ParameterInvalid("")
    else if name[0] != '_' && !StringUtil.IsAlpha(name[0]) then ParameterInvalid("")
    else if exists i | 0 <= i < |name| :: !CC.IsWordChar(name[i]) then ParameterInvalid("")
    else Ok()
  }

  /** Checked on the trimmed name, the collection-name rule is the field-name rule. */
  lemma CollectionNameIsFieldNameRule(name: string)
    ensures CheckCollectionName(StringUtil.Trim(name)) == CC.CheckFieldName(name)
  {
  }

  /** The first position whose status is an error, or the length when there is none. */
  function FirstFailure(statuses: seq<Status>): (k: nat)
    ensures k <= |statuses|
    ensures forall j | 0 <= j < k :: statuses[j].IsOk()
    ensures k < |statuses| ==> statuses[k].IsErr()
  {
    if |statuses| == 0 then 0
    else if statuses[0].IsErr() then 0
    else 1 + FirstFailure(statuses[1..])
  }

  /** The status a run of inserts stops with: the first error, else Ok. */
  function RunStatus(statuses: seq<Status>): (s: Status)
    ensures s.IsOk() <==> forall j | 0 <= j < |statuses| :: statuses[j].IsOk()
  {
    var k := FirstFailure(statuses);
    if k < |statuses| then statuses[k] else Ok()
  }

  /** What each Index::Insert returns: the segment's status, or CollectionNotFound for every row when not loaded. */
  function Effective(loaded: bool, statuses: seq<Status>): (r: seq<Status>)
    ensures |r| == |statuses|
  {
    if loaded then statuses else seq(|statuses|, _ => CollectionNotFound(""))
  }

  function Records(rows: seq<Row>): (r: seq<string>)
    ensures |r| == |rows| && forall i | 0 <= i < |rows| :: r[i] == rows[i].record
  {
    seq(|rows|, i requires 0 <= i < |rows| => rows[i].record)
  }

  function Ids(rows: seq<Row>): (r: seq<string>)
    ensures |r| == |rows| && forall i | 0 <= i < |rows| :: r[i] == rows[i].id
  {
    seq(|rows|, i requires 0 <= i < |rows| => rows[i].id)
  }

  /** An unloaded collection takes no row: its first insert already fails. */
  lemma UnloadedTakesNothing(statuses: seq<Status>)
    requires |statuses| > 0
    ensures FirstFailure(Effective(false, statuses)) == 0
    ensures RunStatus(Effective(false, statuses)) == CollectionNotFound("")
  {
    assert Effective(false, statuses)[0] == CollectionNotFound("");
  }

  /** A run of successes up to `p`, then a failure or the end, puts the first failure at `p`. */
  lemma {:induction false} FirstFailureAt(statuses: seq<Status>, p: nat)
    requires p <= |statuses|
    requires forall j | 0 <= j < p :: statuses[j].IsOk()
    requires p < |statuses| ==> statuses[p].IsErr()
    ensures FirstFailure(statuses) == p
  {
    if p > 0 {
      assert statuses[0].IsOk();
      FirstFailureAt(statuses[1..], p - 1);
    }
  }

  /** A failure inside a batch, after a run of successes, is the first failure overall. */
  lemma FirstFailureInBatch(statuses: seq<Status>, start: nat, end: nat)
    requires start <= end <= |statuses|
    requires forall j | 0 <= j < start :: statuses[j].IsOk()
    ensures RunStatus(statuses[start..end]).IsErr() <==> FirstFailure(statuses[start..end]) < end - start
    ensures FirstFailure(statuses[start..end]) < end - start ==>
              FirstFailure(statuses) == start + FirstFailure(statuses[start..end])
              && RunStatus(statuses) == RunStatus(statuses[start..end])
    ensures FirstFailure(statuses[start..end]) == end - start ==>
              forall j | 0 <= j < end :: statuses[j].IsOk()
  {
    var batch := statuses[start..end];
    var k := FirstFailure(batch);
    OkBeforeBatchFailure(statuses, start, end, k);
    if k < end - start {
      assert statuses[start + k] == batch[k];
      FirstFailureAt(statuses, start + k);
      assert RunStatus(statuses) == statuses[start + k];
    }
  }

  /** Successes before a batch, then k successes inside it, are start + k successes from the beginning. */
  lemma OkBeforeBatchFailure(statuses: seq<Status>, start: nat, end: nat, k: nat)
    requires start <= end <= |statuses| && k <= end - start
    requires forall j | 0 <= j < start :: statuses[j].IsOk()
    requires forall j | 0 <= j < k :: statuses[start..end][j].IsOk()
    ensures forall j | 0 <= j < start + k :: statuses[j].IsOk()
  {
    forall j | start <= j < start + k ensures statuses[j].IsOk() {
      assert statuses[j] == statuses[start..end][j - start];
    }
  }


  /** The loaded segments after `recs` were appended to the records of `name`'s segment. */
  function Appended(m: map<string, LocalIndex.Segment>, name: string, recs: seq<string>): map<string, LocalIndex.Segment>
    requires name in m
  {
    m[name := m[name].(records := m[name].records + recs)]
  }

  lemma AppendedNothing(m: map<string, LocalIndex.Segment>, name: string)
    requires name in m
    ensures Appended(m, name, []) == m
  {
    assert m[name].records + [] == m[name].records;
  }

  lemma AppendedTwice(m: map<string, LocalIndex.Segment>, name: string, x: seq<string>, y: seq<string>)
    requires name in m
    ensures Appended(Appended(m, name, x), name, y) == Appended(m, name, x + y)
  {
    assert m[name].records + x + y == m[name].records + (x + y);
  }

  /**
   * Feeds `rows` to the collection's segment one at a time until an insert
   * fails; `k` rows went in and `s` is the failing status, or Ok.
   */
  method InsertUntilFailure(index: LocalIndex.Index, name: string, rows: seq<Row>, statuses: seq<Status>)
    returns (k: nat, s: Status)
    requires |statuses| == |rows|
    modifies index
    ensures k == FirstFailure(Effective(name in old(index.collections), statuses))
    ensures s == RunStatus(Effective(name in old(index.collections), statuses))
    ensures index.collections.Keys == old(index.collections).Keys
    ensures name in index.collections ==> index.collections == Appended(old(index.collections), name, Records(rows[..k]))
    ensures name !in index.collections ==> index.collections == old(index.collections)
  {
    ghost var loaded := name in index.collections;
    ghost var eff := Effective(loaded, statuses);
    ghost var before := index.collections;
    k := 0;
    if loaded {
      AppendedNothing(before, name);
    }
    while k < |rows|
      invariant k <= |rows|
      invariant forall j | 0 <= j < k :: eff[j].IsOk()
      invariant index.collections.Keys == before.Keys
      invariant loaded ==> index.collections == Appended(before, name, Records(rows[..k]))
      invariant !loaded ==> index.collections == before
    {
      var r := index.Insert(name, 1, rows[k].record, statuses[k]);
      assert r == eff[k];
      if r.IsErr() {
        return k, r;
      }
      assert Records(rows[..k + 1]) == Records(rows[..k]) + [rows[k].record];
      if loaded {
        AppendedTwice(before, name, Records(rows[..k]), [rows[k].record]);
      }
      k := k + 1;
    }
    return k, Ok();
  }

  /**
   * The row loop of LoadCollection: batches of LOAD_BATCH stored rows, each
   * row inserted on its own, until an empty batch or a failing insert.
   */
  method LoadRows(index: LocalIndex.Index, name: string, rows: seq<Row>, inserted: seq<Status>) returns (s: Status)
    requires |inserted| == |rows| && name in index.collections
    modifies index
    ensures s == RunStatus(inserted)
    ensures index.collections == Appended(old(index.collections), name, Records(rows[..FirstFailure(inserted)]))
  {
    ghost var before := index.collections;
    var start := 0;
    AppendedNothing(before, name);
    while true
      invariant start <= |rows|
      invariant forall j | 0 <= j < start :: inserted[j].IsOk()
      invariant index.collections == Appended(before, name, Records(rows[..start]))
      decreases |rows| - start
    {
      if start == |rows| {
        // the next batch is empty
        assert rows[..start] == rows;
        return Ok();
      }
      var end, r := LoadBatch(index, name, rows, inserted, start, before);
      if r.IsErr() {
        return r;
      }
      start := end;
    }
  }

  lemma RecordsSplit(rows: seq<Row>, start: nat, end: nat, k: nat)
    requires start <= end <= |rows| && k <= end - start
    ensures Records(rows[..start + k]) == Records(rows[..start]) + Records(rows[start..end][..k])
  {
    assert rows[..start] + rows[start..end][..k] == rows[..start + k];
  }

  /** One non-empty batch of LoadRows, after `start` rows went in without failure. */
  method LoadBatch(index: LocalIndex.Index, name: string, rows: seq<Row>, inserted: seq<Status>, start: nat,
                   ghost before: map<string, LocalIndex.Segment>)
    returns (end: nat, r: Status)
    requires |inserted| == |rows| && start < |rows| && name in before
    requires forall j | 0 <= j < start :: inserted[j].IsOk()
    requires index.collections == Appended(before, name, Records(rows[..start]))
    modifies index
    ensures start < end <= |rows| && end == if start + LOAD_BATCH <= |rows| then start + LOAD_BATCH else |rows|
    ensures r.IsErr() ==>
              r == RunStatus(inserted)
              && index.collections == Appended(before, name, Records(rows[..FirstFailure(inserted)]))
    ensures r.IsOk() ==>
              (forall j | 0 <= j < end :: inserted[j].IsOk())
              && index.collections == Appended(before, name, Records(rows[..end]))
  {
    end := if start + LOAD_BATCH <= |rows| then start + LOAD_BATCH else |rows|;
    var batch := rows[start..end];
    var k;
    k, r := InsertUntilFailure(index, name, batch, inserted[start..end]);
    assert Effective(true, inserted[start..end]) == inserted[start..end];
    FirstFailureInBatch(inserted, start, end);
    RecordsSplit(rows, start, end, k);
    AppendedTwice(before, name, Records(rows[..start]), Records(batch[..k]));
  }

  class MilvusLocal {
    /** index_: the loaded segments. */
    const index: LocalIndex.Index
    /** initialized: Init has succeeded. */
    var initialized: bool
    /** storage_: what the store holds for each collection. */
    var stored: map<string, Stored>

    ghost predicate Valid()
      reads this
    {
      forall n | n in stored :: StdMap.Valid(stored[n].indexes)
    }

    constructor()
      ensures Valid() && !initialized && stored == map[] && fresh(index) && index.collections == map[]
    {
      index := new LocalIndex.Index();
      initialized := false;
      stored := map[];
    }

    /**
     * CHECK_COLLECTION_EXIST: the trimmed name must pass the name rule and the
     * untrimmed name must be stored; None when both hold.
     */
    function ExistCheck(name: string): (r: Option<Status>)
      reads this
      ensures r.None? <==> CC.IsIdentifier(StringUtil.Trim(name)) && name in stored
      ensures r.Some? ==> r.value.IsErr()
    {
      var c := CheckCollectionName(StringUtil.Trim(name));
      if c.IsErr() then Some(c)
      else if name !in stored then Some(CollectionNotFound(""))
      else None
    }

    /** Opens the store once; a second call, or a store that fails to open, returns false. */
    method Init(storageOpened: bool) returns (b: bool)
      modifies this
      ensures b <==> !old(initialized) && storageOpened
      ensures initialized == (old(initialized) || b)
      ensures stored == old(stored)
    {
      if initialized {
        return false;
      }
      if !storageOpened {
        return false;
      }
      initialized := true;
      return true;
    }

    /**
     * Loads a stored collection into the index: a loaded one is left alone;
     * otherwise the segment is created, given the merged index meta and fed
     * the stored rows in batches of LOAD_BATCH until an insert fails.
     */
    method LoadCollection(name: string, setInfo: Status, setMeta: Status, inserted: seq<Status>) returns (s: Status)
      requires name in stored ==> |inserted| == |stored[name].rows|
      modifies index
      ensures ExistCheck(name).Some? ==> s == ExistCheck(name).value && index.collections == old(index.collections)
      ensures ExistCheck(name).None? && name in old(index.collections) ==>
                s == Ok() && index.collections == old(index.collections)
      ensures ExistCheck(name).None? && name !in old(index.collections) && setInfo.IsErr() ==>
                s == setInfo && index.collections == old(index.collections)
      ensures ExistCheck(name).None? && name !in old(index.collections) && setInfo.IsOk() && setMeta.IsErr() ==>
                s == setMeta
                && index.collections == old(index.collections)[name := LocalIndex.Segment(name, stored[name].schema, None, [], [])]
      ensures ExistCheck(name).None? && name !in old(index.collections) && setInfo.IsOk() && setMeta.IsOk() ==>
                s == RunStatus(inserted)
                && index.collections == old(index.collections)[name := LocalIndex.Segment(name, stored[name].schema,
                     Some(LocalIndex.MergeIndexs(CollectionMeta.ValuesExcept(stored[name].indexes, ""))),
                     Records(stored[name].rows[..FirstFailure(inserted)]), [])]
    {
      var check := ExistCheck(name);
      if check.Some? {
        return check.value;
      }
      if index.HasLoaded(name) {
        return Ok();
      }
      var entry := stored[name];
      s := index.CreateCollection(name, entry.schema, setInfo);
      if s.IsErr() {
        return s;
      }
      var meta := LocalIndex.MergeIndexs(CollectionMeta.ValuesExcept(entry.indexes, ""));
      s := index.CreateIndex(name, meta, setMeta);
      if s.IsErr() {
        return s;
      }
      s := LoadRows(index, name, entry.rows, inserted);
      assert [] + Records(entry.rows[..FirstFailure(inserted)]) == Records(entry.rows[..FirstFailure(inserted)]);
    }

    /** Reports whether a stored collection is loaded. */
    method GetLoadState(name: string) returns (s: Status)
      ensures ExistCheck(name).Some? ==> s == ExistCheck(name).value
      ensures ExistCheck(name).None? ==>
                s == if name in index.collections then CollectionLoaded("") else CollectionNotLoaded("")
    {
      var check := ExistCheck(name);
      if check.Some? {
        return check.value;
      }
      if !index.HasLoaded(name) {
        return CollectionNotLoaded("");
      }
      return CollectionLoaded("");
    }

    /** Unloads a stored collection. */
    method ReleaseCollection(name: string) returns (s: Status)
      modifies index
      ensures ExistCheck(name).Some? ==> s == ExistCheck(name).value && index.collections == old(index.collections)
      ensures ExistCheck(name).None? ==> s == Ok() && index.collections == old(index.collections) - {name}
    {
      var check := ExistCheck(name);
      if check.Some? {
        return check.value;
      }
      // Index::DropCollection always reports success, so SegcoreErr is never returned.
      var _ := index.DropCollection(name);
      return Ok();
    }

    /**
     * Creates a collection: an existing name is accepted only with an equal
     * schema; otherwise the segment is created and then the store written.
     */
    method CreateCollection(name: string, pkName: string, schema: CollectionSchema, setInfo: Status, committed: bool)
      returns (s: Status)
      requires Valid()
      modifies this, index
      ensures Valid() && initialized == old(initialized)
      ensures CheckCollectionName(StringUtil.Trim(name)).IsErr() ==>
                s == CheckCollectionName(StringUtil.Trim(name))
                && stored == old(stored) && index.collections == old(index.collections)
      ensures CheckCollectionName(StringUtil.Trim(name)).IsOk() && name in old(stored) ==>
                s == (if SchemaUtil.SchemaEquals(schema, old(stored)[name].schema) then Ok() else ParameterInvalid(""))
                && stored == old(stored) && index.collections == old(index.collections)
      ensures CheckCollectionName(StringUtil.Trim(name)).IsOk() && name !in old(stored) ==>
                (s.IsOk() <==> (name in old(index.collections) || setInfo.IsOk()) && committed)
                && (s.IsErr() ==> stored == old(stored))
                && (s.IsOk() ==> stored == old(stored)[name := Stored(pkName, schema, [], [])])
                && (name in old(index.collections) || setInfo.IsOk() ==> name in index.collections)
    {
      var c := CheckCollectionName(StringUtil.Trim(name));
      if c.IsErr() {
        return c;
      }
      if name in stored {
        if !SchemaUtil.SchemaEquals(schema, stored[name].schema) {
          return ParameterInvalid("");
        }
        return Ok();
      }
      s := index.CreateCollection(name, schema, setInfo);
      if s.IsErr() {
        return s;
      }
      if !committed {
        return ServiceInternal("");
      }
      stored := stored[name := Stored(pkName, schema, [], [])];
      return Ok();
    }

    /** Drops a collection from the index and the store; a missing one is already gone. */
    method DropCollection(name: string, committed: bool) returns (b: bool)
      modifies this, index
      ensures initialized == old(initialized)
      ensures name !in old(stored) ==> b && stored == old(stored) && index.collections == old(index.collections)
      ensures name in old(stored) ==> b == committed && index.collections == old(index.collections) - {name}
      ensures name in old(stored) ==> stored == if committed then old(stored) - {name} else old(stored)
      ensures b ==> name !in stored
    {
      if name !in stored {
        return true;
      }
      var dropped := index.DropCollection(name);
      b := dropped && committed;
      if b {
        stored := stored - {name};
      }
    }

    /**
     * Adds an index: an existing name is an Ok no-op; otherwise the segment
     * gets the merge of every stored index plus the new one, then the store
     * records it.
     */
    method CreateIndex(name: string, indexName: string, proto: string, setMeta: Status, committed: bool)
      returns (s: Status)
      requires Valid()
      modifies this, index
      ensures Valid() && initialized == old(initialized) && old(stored).Keys == stored.Keys
      ensures index.collections.Keys == old(index.collections).Keys
      ensures ExistCheck(name).Some? ==> s == ExistCheck(name).value && stored == old(stored)
      ensures ExistCheck(name).None? && StdMap.Find(old(stored)[name].indexes, indexName).Some? ==>
                s == Ok() && stored == old(stored) && index.collections == old(index.collections)
      ensures ExistCheck(name).None? && StdMap.Find(old(stored)[name].indexes, indexName).None? ==>
                (s.IsOk() <==> name in index.collections && setMeta.IsOk() && committed)
                && (s.IsOk() ==>
                      index.collections[name].indexMeta == Some(LocalIndex.MergeIndexs(CollectionMeta.ValuesExcept(old(stored)[name].indexes, "") + [proto])))
                && (s.IsOk() ==> stored == old(stored)[name := old(stored)[name].(indexes :=
                      StdMap.InsertNew(old(stored)[name].indexes, indexName, CollectionMeta.CStr(proto)))])
                && (s.IsErr() ==> stored == old(stored))
    {
      var check := ExistCheck(name);
      if check.Some? {
        return check.value;
      }
      var entry := stored[name];
      if StdMap.Find(entry.indexes, indexName).Some? {
        return Ok();
      }
      var all := CollectionMeta.ValuesExcept(entry.indexes, "") + [proto];
      s := index.CreateIndex(name, LocalIndex.MergeIndexs(all), setMeta);
      if s.IsErr() {
        return s;
      }
      if !committed {
        return ServiceInternal("");
      }
      stored := stored[name := entry.(indexes := StdMap.InsertNew(entry.indexes, indexName, CollectionMeta.CStr(proto)))];
      return Ok();
    }

    /**
     * Drops an index: a missing name is an Ok no-op; otherwise the segment
     * gets the merge of the remaining indexes, then the store forgets it.
     */
    method DropIndex(name: string, indexName: string, setMeta: Status, committed: bool) returns (s: Status)
      requires Valid()
      modifies this, index
      ensures Valid() && initialized == old(initialized) && old(stored).Keys == stored.Keys
      ensures index.collections.Keys == old(index.collections).Keys
      ensures ExistCheck(name).Some? ==> s == ExistCheck(name).value && stored == old(stored)
      ensures ExistCheck(name).None? && StdMap.Find(old(stored)[name].indexes, indexName).None? ==>
                s == Ok() && stored == old(stored) && index.collections == old(index.collections)
      ensures ExistCheck(name).None? && StdMap.Find(old(stored)[name].indexes, indexName).Some? ==>
                (s.IsOk() <==> name in index.collections && setMeta.IsOk() && committed)
                && (s.IsOk() ==> stored == old(stored)[name := old(stored)[name].(indexes :=
                      StdMap.Erase(old(stored)[name].indexes, indexName))])
                && (s.IsOk() ==>
                      index.collections[name].indexMeta == Some(LocalIndex.MergeIndexs(CollectionMeta.Values(stored[name].indexes))))
                && (s.IsErr() ==> stored == old(stored))
    {
      var check := ExistCheck(name);
      if check.Some? {
        return check.value;
      }
      var entry := stored[name];
      if StdMap.Find(entry.indexes, indexName).None? {
        return Ok();
      }
      var all := CollectionMeta.ValuesExcept(entry.indexes, indexName);
      CollectionMeta.ValuesExceptErase(entry.indexes, indexName);
      s := index.CreateIndex(name, LocalIndex.MergeIndexs(all), setMeta);
      if s.IsErr() {
        return s;
      }
      if !committed {
        return ServiceInternal("");
      }
      stored := stored[name := entry.(indexes := StdMap.Erase(entry.indexes, indexName))];
      return Ok();
    }

    /**
     * Inserts rows: each goes to the segment in turn until one fails, and
     * exactly that prefix has its id reported and is written to the store.
     */
    method Insert(name: string, rows: seq<Row>, ids: seq<string>, inserted: seq<Status>, committed: bool)
      returns (s: Status, idsOut: seq<string>)
      requires |inserted| == |rows|
      modifies this, index
      ensures initialized == old(initialized) && stored.Keys == old(stored).Keys
      ensures index.collections.Keys == old(index.collections).Keys
      ensures ExistCheck(name).Some? ==>
                s == ExistCheck(name).value && idsOut == ids
                && stored == old(stored) && index.collections == old(index.collections)
      ensures ExistCheck(name).None? ==>
                var k := FirstFailure(Effective(name in old(index.collections), inserted));
                s == Ok() && idsOut == ids + Ids(rows[..k])
                && stored == (if committed then old(stored)[name := old(stored)[name].(rows := old(stored)[name].rows + rows[..k])]
                              else old(stored))
                && (name in index.collections ==>
                      index.collections[name].records == old(index.collections)[name].records + Records(rows[..k]))
    {
      var check := ExistCheck(name);
      if check.Some? {
        return check.value, ids;
      }
      var k, _ := InsertUntilFailure(index, name, rows, inserted);
      idsOut := ids + Ids(rows[..k]);
      if committed {
        stored := stored[name := stored[name].(rows := stored[name].rows + rows[..k])];
      }
      return Ok(), idsOut;
    }

    /** Upsert only checks that the collection exists. */
    method Upsert(name: string, rows: seq<Row>, ids: seq<string>) returns (s: Status)
      ensures s == match ExistCheck(name) case Some(e) => e case None => Ok()
    {
      var check := ExistCheck(name);
      if check.Some? {
        return check.value;
      }
      return Ok();
    }
  }
}
