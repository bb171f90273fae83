// The insert task: the RowID and Timestamp system columns, the dynamic $meta
// column, the name -> column map with a generated auto-id primary key, the
// vector dimension checks, and one single-row insert record per row tagged
// with its primary key.
module InsertTask {
  import opened Wrappers
  import opened Schema
  import MilvusStatus
  import Decimal
  import SchemaUtil

  /** milvus.InsertRequest (the MsgBase header is not modelled). */
  datatype InsertRequest = InsertRequest(
    dbName: string,
    collectionName: string,
    partitionName: string,
    fieldsData: seq<FieldData>,
    hashKeys: seq<int>,
    numRows: int)

  const UINT32_MOD: int := 0x1_0000_0000

  /** num_rows_ is a uint32_t: the request's int64 num_rows wraps into it. */
  function U32(n: int): nat
  {
    n % UINT32_MOD
  }

  // ---------------------------------------------------------------------------
  // AddSystemField

  /** GetTimestamp: the clock's milliseconds shifted left by 18 bits, plus the row-id counter. */
  function Timestamp(nowMs: nat, curId: int): int
  {
    nowMs * 262144 + curId
  }

  /** GetRowIds: row i of the batch gets i + cur_id_ + timestamps[i]. */
  function RowIdsOf(curId: int, tss: seq<int>): (r: seq<int>)
  {
    seq(|tss|, i requires 0 <= i < |tss| => i + curId + tss[i])
  }

  function IntCells(vs: seq<int>): (r: seq<Cell>)
  {
    seq(|vs|, i requires 0 <= i < |vs| => IntCell(vs[i]))
  }

  /** An Int64 column with the given header and values in its long_data. */
  function Int64Column(name: string, id: int, vs: seq<int>): FieldData
  {
    FieldData(Int64, name, id, false, 0, 0, NoneType, IntCells(vs))
  }

  /** The n timestamps of a batch: one clock reading for every row. */
  function Timestamps(ts: int, n: nat): seq<int>
  {
    seq(n, _ => ts)
  }

  /** The two columns AddSystemField appends for a batch of n rows. */
  function SystemColumns(curId: int, nowMs: nat, n: nat): seq<FieldData>
  {
    var tss := Timestamps(Timestamp(nowMs, curId), n);
    [Int64Column(ROW_ID_FIELD_NAME, ROW_ID_FIELD, RowIdsOf(curId, tss)),
     Int64Column(TIMESTAMP_FIELD_NAME, TIMESTAMP_FIELD, tss)]
  }

  /**
   * Row ids rise with the row within a batch, and a later batch (the counter
   * advanced by the earlier batch's size, the clock not gone back) only has
   * ids above every id of the earlier one: no row id is handed out twice.
   */
  lemma RowIdsIncrease(curId: int, nowMs: nat, n: nat, laterMs: nat, m: nat)
    requires nowMs <= laterMs
    ensures var a := RowIdsOf(curId, Timestamps(Timestamp(nowMs, curId), n));
            var b := RowIdsOf(curId + n, Timestamps(Timestamp(laterMs, curId + n), m));
            |a| == n && |b| == m &&
            (forall i, j | 0 <= i < j < n :: a[i] < a[j]) &&
            (forall i, j | 0 <= i < n && 0 <= j < m :: a[i] < b[j])
  {
  }

  // ---------------------------------------------------------------------------
  // CheckDynamicFieldData

  /** Position of the first column flagged dynamic. */
  function FirstDynamic(fields: seq<FieldData>): (r: Option<nat>)
    ensures r.Some? ==> r.value < |fields| && fields[r.value].isDynamic &&
                        forall j | 0 <= j < r.value :: !fields[j].isDynamic
    ensures r.None? ==> forall j | 0 <= j < |fields| :: !fields[j].isDynamic
    decreases |fields|
  {
    if |fields| == 0 then None
    else if fields[0].isDynamic then Some(0)
    else
      var r := FirstDynamic(fields[1..]);
      if r.None? then None else Some(r.value + 1)
  }

  /** The id of the first dynamic schema field; a FieldData's id stays 0 when there is none. */
  function DynamicFieldId(sfs: seq<FieldSchema>): int
    decreases |sfs|
  {
    if |sfs| == 0 then 0
    else if sfs[0].isDynamic then sfs[0].fieldId
    else DynamicFieldId(sfs[1..])
  }

  /** The default $meta column, as written: a single "{}" whatever the number of rows. */
  function MetaDefaultAsWritten(schema: CollectionSchema): FieldData
  {
    FieldData(JSON, META_FIELD_NAME, DynamicFieldId(schema.fields), true, 0, 0, NoneType, [TextCell("{}")])
  }

  /** The default $meta column: an empty JSON object "{}" for each of the n rows. */
  function MetaDefault(schema: CollectionSchema, n: nat): FieldData
  {
    FieldData(JSON, META_FIELD_NAME, DynamicFieldId(schema.fields), true, 0, 0, NoneType, seq(n, _ => TextCell("{}")))
  }

  /**
   * The columns after CheckDynamicFieldData: untouched without a dynamic
   * schema; otherwise the first dynamic column is renamed $meta, or, when
   * there is none, the default $meta column is appended.
   */
  function DynamicColumns(schema: CollectionSchema, fields: seq<FieldData>, n: nat): (r: seq<FieldData>)
  {
    if !schema.enableDynamicField then fields
    else match FirstDynamic(fields)
      case Some(k) => fields[k := fields[k].(fieldName := META_FIELD_NAME)]
      case None => fields + [MetaDefault(schema, n)]
  }

  /** A dynamic schema ends up with exactly one more column or one renamed column, and a $meta column in either case. */
  lemma DynamicColumnsSpec(schema: CollectionSchema, fields: seq<FieldData>, n: nat)
    ensures var r := DynamicColumns(schema, fields, n);
            (!schema.enableDynamicField ==> r == fields) &&
            (schema.enableDynamicField ==>
               (exists k | 0 <= k < |r| :: r[k].fieldName == META_FIELD_NAME && r[k].isDynamic) &&
               (FirstDynamic(fields).Some? ==> |r| == |fields|) &&
               (FirstDynamic(fields).None? ==> r == fields + [MetaDefault(schema, n)] && |r[|fields|].cells| == n))
  {
    var r := DynamicColumns(schema, fields, n);
    if schema.enableDynamicField {
      match FirstDynamic(fields)
      case Some(k) => assert r[k].fieldName == META_FIELD_NAME && r[k].isDynamic;
      case None => assert r[|fields|].fieldName == META_FIELD_NAME && r[|fields|].isDynamic;
    }
  }

  // ---------------------------------------------------------------------------
  // GenFieldMap

  /** Column k is the first one called `name`. */
  predicate FirstNamed(fields: seq<FieldData>, name: string, k: nat)
  {
    k < |fields| && fields[k].fieldName == name && forall j | 0 <= j < k :: fields[j].fieldName != name
  }

  /** field_data_map_ after the emplace loop: a name keeps the position of its first column. */
  function NameMap(fields: seq<FieldData>): (m: map<string, nat>)
    decreases |fields|
  {
    if |fields| == 0 then map[]
    else
      var m := NameMap(fields[..|fields| - 1]);
      var name := fields[|fields| - 1].fieldName;
      if name in m then m else m[name := |fields| - 1]
  }

  /** A name is in the map exactly when some column has it, and it maps to the first such column. */
  lemma {:induction false} NameMapSpec(fields: seq<FieldData>, name: string)
    ensures name in NameMap(fields) <==> exists k | 0 <= k < |fields| :: fields[k].fieldName == name
    ensures name in NameMap(fields) ==> FirstNamed(fields, name, NameMap(fields)[name])
    decreases |fields|
  {
    if |fields| > 0 {
      var pre := fields[..|fields| - 1];
      NameMapSpec(pre, name);
      if exists k | 0 <= k < |fields| :: fields[k].fieldName == name {
        var k :| 0 <= k < |fields| && fields[k].fieldName == name;
        if k < |pre| { assert pre[k] == fields[k]; }
      }
      if name in NameMap(pre) {
        var k := NameMap(pre)[name];
        assert forall j | 0 <= j <= k :: pre[j] == fields[j];
      }
    }
  }

  /** The decimal text of each value, as std::to_string prints an int64. */
  function TextCells(vs: seq<int>): (r: seq<Cell>)
  {
    seq(|vs|, i requires 0 <= i < |vs| => TextCell(Decimal.ToString(vs[i])))
  }

  /** The primary-key column GenFieldMap builds for an auto-id key: the row ids, as decimal text for a VarChar key. */
  function PkColumn(f: FieldSchema, rowIds: seq<int>): FieldData
  {
    FieldData(f.dataType, f.name, f.fieldId, false, 0, 0, NoneType,
              if f.dataType == VarChar then TextCells(rowIds) else IntCells(rowIds))
  }

  /** The column GenFieldMap would generate for each schema field. */
  function PkColumns(sfs: seq<FieldSchema>, rowIds: seq<int>): (pks: seq<FieldData>)
    ensures |pks| == |sfs|
  {
    seq(|sfs|, j requires 0 <= j < |sfs| => PkColumn(sfs[j], rowIds))
  }

  /** Each generated column carries its schema field's name. */
  predicate PksNamed(sfs: seq<FieldSchema>, pks: seq<FieldData>)
  {
    |pks| == |sfs| && forall j | 0 <= j < |sfs| :: pks[j].fieldName == sfs[j].name
  }

  lemma PkColumnsNamed(sfs: seq<FieldSchema>, rowIds: seq<int>)
    ensures PksNamed(sfs, PkColumns(sfs, rowIds))
  {
  }

  /** Where GenFieldMap stands: still going, the columns of the request and the name map. */
  datatype Gen = Gen(ok: bool, fields: seq<FieldData>, fmap: map<string, nat>)

  /**
   * One turn of GenFieldMap's schema loop: a field whose name has a column is
   * skipped; a missing auto-id primary key gets a column made from the row
   * ids; any other missing field stops the loop with false.
   */
  function GenNext(f: FieldSchema, pk: FieldData, prev: Gen): Gen
  {
    if !prev.ok || f.name in prev.fmap then prev
    else if f.isPrimaryKey && f.autoId then
      Gen(true, prev.fields + [pk], prev.fmap[f.name := |prev.fields|])
    else Gen(false, prev.fields, prev.fmap)
  }

  /** GenFieldMap over the first k schema fields, starting from the emplace loop's map. */
  function GenUpTo(sfs: seq<FieldSchema>, k: nat, fields0: seq<FieldData>, pks: seq<FieldData>): (g: Gen)
    requires k <= |sfs| == |pks|
    decreases k
  {
    if k == 0 then Gen(true, fields0, NameMap(fields0))
    else GenNext(sfs[k - 1], pks[k - 1], GenUpTo(sfs, k - 1, fields0, pks))
  }

  /** Once GenFieldMap has failed, the later schema fields change nothing. */
  lemma {:induction false} GenFailedStays(sfs: seq<FieldSchema>, k: nat, m: nat, fields0: seq<FieldData>, pks: seq<FieldData>)
    requires k <= m <= |sfs| == |pks| && !GenUpTo(sfs, k, fields0, pks).ok
    ensures GenUpTo(sfs, m, fields0, pks) == GenUpTo(sfs, k, fields0, pks)
    decreases m
  {
    if m > k {
      GenFailedStays(sfs, k, m - 1, fields0, pks);
    }
  }

  /** Schema field j's name has a request column, or some schema field up to j of that name is an auto-id primary key. */
  predicate Covered(sfs: seq<FieldSchema>, j: nat, m0: map<string, nat>)
    requires j < |sfs|
  {
    sfs[j].name in m0 ||
    exists i | 0 <= i <= j :: sfs[i].name == sfs[j].name && sfs[i].isPrimaryKey && sfs[i].autoId
  }

  /**
   * The map after k schema fields, against the emplace loop's map m0: every
   * name points at a column of that name, the request's columns stay in
   * front with their names mapped as before, and every other name is that
   * of an auto-id key among the first k schema fields, mapped to its
   * generated column.
   */
  predicate MapSound(g: Gen, sfs: seq<FieldSchema>, k: nat, fields0: seq<FieldData>, m0: map<string, nat>, pks: seq<FieldData>)
    requires k <= |sfs| == |pks|
  {
    |fields0| <= |g.fields| && g.fields[..|fields0|] == fields0 &&
    NamesPoint(g.fields, g.fmap) && BaseKept(g.fmap, m0) && ExtrasGenerated(g, sfs, k, |fields0|, m0, pks)
  }

  /** Every name in the map points at a column of that name. */
  predicate NamesPoint(fields: seq<FieldData>, fmap: map<string, nat>)
  {
    forall name | name in fmap :: fmap[name] < |fields| && fields[fmap[name]].fieldName == name
  }

  /** The names of the emplace loop's map are kept, each at its column. */
  predicate BaseKept(fmap: map<string, nat>, m0: map<string, nat>)
  {
    forall name | name in m0 :: name in fmap && fmap[name] == m0[name]
  }

  /** col is the generated column of an auto-id key called name among the first k schema fields. */
  predicate GenKeyed(sfs: seq<FieldSchema>, k: nat, pks: seq<FieldData>, name: string, col: FieldData)
    requires k <= |sfs| == |pks|
  {
    exists i | 0 <= i < k :: sfs[i].name == name && sfs[i].isPrimaryKey && sfs[i].autoId && col == pks[i]
  }

  /** Every other name points past the request's base columns, at a generated key column. */
  predicate ExtrasGenerated(g: Gen, sfs: seq<FieldSchema>, k: nat, base: nat, m0: map<string, nat>, pks: seq<FieldData>)
    requires k <= |sfs| == |pks|
  {
    NamesPoint(g.fields, g.fmap) &&
    forall name | name in g.fmap && name !in m0 :: g.fmap[name] >= base && GenKeyed(sfs, k, pks, name, g.fields[g.fmap[name]])
  }

  /** What GenSpec states of the loop after k schema fields. */
  predicate GenHolds(g: Gen, sfs: seq<FieldSchema>, k: nat, fields0: seq<FieldData>, m0: map<string, nat>, pks: seq<FieldData>)
    requires k <= |sfs| == |pks|
  {
    MapSound(g, sfs, k, fields0, m0, pks) &&
    (g.ok <==> AllCovered(sfs, k, m0)) &&
    (g.ok ==> AllNamed(sfs, k, g.fmap))
  }

  /** Every one of the first k schema fields is covered. */
  predicate AllCovered(sfs: seq<FieldSchema>, k: nat, m0: map<string, nat>)
    requires k <= |sfs|
  {
    forall j | 0 <= j < k :: Covered(sfs, j, m0)
  }

  /** The names of the first k schema fields are all in the map. */
  predicate AllNamed(sfs: seq<FieldSchema>, k: nat, fmap: map<string, nat>)
    requires k <= |sfs|
  {
    forall j | 0 <= j < k :: sfs[j].name in fmap
  }

  lemma AllCoveredStep(sfs: seq<FieldSchema>, k: nat, m0: map<string, nat>)
    requires 0 < k <= |sfs|
    ensures AllCovered(sfs, k, m0) <==> AllCovered(sfs, k - 1, m0) && Covered(sfs, k - 1, m0)
  {
  }

  lemma AllNamedStep(sfs: seq<FieldSchema>, k: nat, fmap: map<string, nat>, fmap1: map<string, nat>)
    requires 0 < k <= |sfs| && AllNamed(sfs, k - 1, fmap) && fmap.Keys <= fmap1.Keys && sfs[k - 1].name in fmap1
    ensures AllNamed(sfs, k, fmap1)
  {
  }

  /**
   * GenFieldMap succeeds exactly when every schema field is covered; it then
   * maps every schema field's name, keeps the request's columns in front and
   * appends only generated primary-key columns.
   */
  lemma {:induction false} GenSpec(sfs: seq<FieldSchema>, k: nat, fields0: seq<FieldData>, pks: seq<FieldData>)
    requires k <= |sfs| && PksNamed(sfs, pks)
    ensures GenHolds(GenUpTo(sfs, k, fields0, pks), sfs, k, fields0, NameMap(fields0), pks)
    decreases k
  {
    var m0 := NameMap(fields0);
    if k == 0 {
      forall name | name in m0
        ensures m0[name] < |fields0| && fields0[m0[name]].fieldName == name
      {
        NameMapSpec(fields0, name);
      }
      assert fields0[..|fields0|] == fields0;
    } else {
      GenSpec(sfs, k - 1, fields0, pks);
      GenStep(sfs, k, fields0, m0, pks, GenUpTo(sfs, k - 1, fields0, pks));
    }
  }

  /** GenSpec's step from k - 1 schema fields to k. */
  lemma GenStep(sfs: seq<FieldSchema>, k: nat, fields0: seq<FieldData>, m0: map<string, nat>, pks: seq<FieldData>, prev: Gen)
    requires 0 < k <= |sfs| && PksNamed(sfs, pks) && GenHolds(prev, sfs, k - 1, fields0, m0, pks)
    ensures GenHolds(GenNext(sfs[k - 1], pks[k - 1], prev), sfs, k, fields0, m0, pks)
  {
    var f := sfs[k - 1];
    AllCoveredStep(sfs, k, m0);
    if !prev.ok {
      GenKeep(sfs, k, fields0, m0, pks, prev);
    } else if f.name in prev.fmap {
      GenKeep(sfs, k, fields0, m0, pks, prev);
      SkipCovered(sfs, k, fields0, m0, pks, prev);
      AllNamedStep(sfs, k, prev.fmap, prev.fmap);
    } else if f.isPrimaryKey && f.autoId {
      GenAppendSound(sfs, k, fields0, m0, pks, prev);
      assert Covered(sfs, k - 1, m0);
      AllNamedStep(sfs, k, prev.fmap, prev.fmap[f.name := |prev.fields|]);
    } else {
      GenKeep(sfs, k, fields0, m0, pks, prev);
      MissingNotCovered(sfs, k, fields0, m0, pks, prev);
    }
  }

  /** A name the map already holds is covered. */
  lemma SkipCovered(sfs: seq<FieldSchema>, k: nat, fields0: seq<FieldData>, m0: map<string, nat>, pks: seq<FieldData>, prev: Gen)
    requires 0 < k <= |sfs| == |pks| && MapSound(prev, sfs, k - 1, fields0, m0, pks) && sfs[k - 1].name in prev.fmap
    ensures Covered(sfs, k - 1, m0)
  {
    var name := sfs[k - 1].name;
    if name !in m0 {
      assert GenKeyed(sfs, k - 1, pks, name, prev.fields[prev.fmap[name]]);
      var i :| 0 <= i < k - 1 && sfs[i].name == name && sfs[i].isPrimaryKey && sfs[i].autoId &&
               prev.fields[prev.fmap[name]] == pks[i];
    }
  }

  /** A name missing from the map of a loop still going is not covered. */
  lemma MissingNotCovered(sfs: seq<FieldSchema>, k: nat, fields0: seq<FieldData>, m0: map<string, nat>, pks: seq<FieldData>, prev: Gen)
    requires 0 < k <= |sfs| == |pks| && MapSound(prev, sfs, k - 1, fields0, m0, pks) && AllNamed(sfs, k - 1, prev.fmap)
    requires sfs[k - 1].name !in prev.fmap && !(sfs[k - 1].isPrimaryKey && sfs[k - 1].autoId)
    ensures !Covered(sfs, k - 1, m0)
  {
    var f := sfs[k - 1];
    forall i | 0 <= i < k - 1
      ensures sfs[i].name != f.name
    {
      assert sfs[i].name in prev.fmap;
    }
  }

  lemma GenKeyedWiden(sfs: seq<FieldSchema>, k: nat, pks: seq<FieldData>, name: string, col: FieldData)
    requires 0 < k <= |sfs| == |pks| && GenKeyed(sfs, k - 1, pks, name, col)
    ensures GenKeyed(sfs, k, pks, name, col)
  {
    var i :| 0 <= i < k - 1 && sfs[i].name == name && sfs[i].isPrimaryKey && sfs[i].autoId && col == pks[i];
  }

  /** A map sound after k - 1 schema fields is sound after k when the turn adds nothing. */
  lemma GenKeep(sfs: seq<FieldSchema>, k: nat, fields0: seq<FieldData>, m0: map<string, nat>, pks: seq<FieldData>, prev: Gen)
    requires 0 < k <= |sfs| == |pks| && MapSound(prev, sfs, k - 1, fields0, m0, pks)
    ensures MapSound(prev, sfs, k, fields0, m0, pks)
    ensures MapSound(Gen(false, prev.fields, prev.fmap), sfs, k, fields0, m0, pks)
  {
    forall name | name in prev.fmap && name !in m0
      ensures GenKeyed(sfs, k, pks, name, prev.fields[prev.fmap[name]])
    {
      GenKeyedWiden(sfs, k, pks, name, prev.fields[prev.fmap[name]]);
    }
  }

  /** Appending a generated key column keeps the map sound. */
  lemma GenAppendSound(sfs: seq<FieldSchema>, k: nat, fields0: seq<FieldData>, m0: map<string, nat>, pks: seq<FieldData>, prev: Gen)
    requires 0 < k <= |sfs| == |pks| && MapSound(prev, sfs, k - 1, fields0, m0, pks) && prev.ok
    requires sfs[k - 1].name !in prev.fmap && sfs[k - 1].isPrimaryKey && sfs[k - 1].autoId
    requires pks[k - 1].fieldName == sfs[k - 1].name
    ensures MapSound(GenNext(sfs[k - 1], pks[k - 1], prev), sfs, k, fields0, m0, pks)
  {
    var f := sfs[k - 1];
    var g := Gen(true, prev.fields + [pks[k - 1]], prev.fmap[f.name := |prev.fields|]);
    assert GenNext(f, pks[k - 1], prev) == g;
    assert g.fields[..|fields0|] == prev.fields[..|fields0|];
    AppendNamesPoint(prev.fields, prev.fmap, pks[k - 1], f.name);
    assert BaseKept(g.fmap, m0);
    AppendExtras(sfs, k, fields0, m0, pks, prev, g);
  }

  lemma AppendNamesPoint(fields: seq<FieldData>, fmap: map<string, nat>, col: FieldData, name: string)
    requires NamesPoint(fields, fmap) && col.fieldName == name
    ensures NamesPoint(fields + [col], fmap[name := |fields|])
  {
  }

  lemma AppendExtras(sfs: seq<FieldSchema>, k: nat, fields0: seq<FieldData>, m0: map<string, nat>, pks: seq<FieldData>, prev: Gen, g: Gen)
    requires 0 < k <= |sfs| == |pks| && MapSound(prev, sfs, k - 1, fields0, m0, pks)
    requires sfs[k - 1].name !in prev.fmap && sfs[k - 1].isPrimaryKey && sfs[k - 1].autoId
    requires g == Gen(true, prev.fields + [pks[k - 1]], prev.fmap[sfs[k - 1].name := |prev.fields|])
    requires NamesPoint(g.fields, g.fmap)
    ensures ExtrasGenerated(g, sfs, k, |fields0|, m0, pks)
  {
    var f := sfs[k - 1];
    forall name | name in g.fmap && name !in m0
      ensures g.fmap[name] >= |fields0| && GenKeyed(sfs, k, pks, name, g.fields[g.fmap[name]])
    {
      if name == f.name {
        assert g.fields[g.fmap[name]] == pks[k - 1];
      } else {
        GenKeyedWiden(sfs, k, pks, name, prev.fields[prev.fmap[name]]);
        assert g.fields[g.fmap[name]] == prev.fields[prev.fmap[name]];
      }
    }
  }

  // ---------------------------------------------------------------------------
  // CheckOrSetVectorDim

  /** float_vector().data_size(): the payload of a FloatVector column; a column of any other type has no float data. */
  function FloatCount(col: FieldData): nat
  {
    if col.dtype == FloatVector then |col.cells| else 0
  }

  /**
   * The check of one FloatVector schema field against its column: the
   * schema's dim (GetDim of the field) must be positive, the float count
   * must divide by it, and the count divided by the column's own dim must
   * equal num_rows. The column's dim is the request's and may be negative;
   * the count is never negative, so Dafny's quotient here is the truncating
   * quotient of C++.
   */
  function FloatCheck(dim: int, col: FieldData, numRows: int): (s: MilvusStatus.Status)
    requires col.dim != 0
  {
    if dim <= 0 then MilvusStatus.ParameterInvalid("")
    else if FloatCount(col) % dim != 0 then MilvusStatus.Undefined("")
    else if FloatCount(col) / col.dim != numRows then MilvusStatus.ParameterInvalid("")
    else MilvusStatus.Ok()
  }

  /** A count divided by a negative dim is never positive. */
  lemma DivNegative(a: nat, b: int)
    requires b < 0
    ensures a / b <= 0
  {
  }

  /**
   * A request column with a negative dim never passes the check on rows to
   * check: ParameterInvalid, or Undefined when the float count does not
   * divide by the schema's dim.
   */
  lemma NegativeDimRejected(dim: int, col: FieldData, numRows: int)
    requires col.dim < 0 && numRows > 0
    ensures FloatCheck(dim, col, numRows) in {MilvusStatus.ParameterInvalid(""), MilvusStatus.Undefined("")}
    ensures dim > 0 && FloatCount(col) % dim == 0 ==> FloatCheck(dim, col, numRows) == MilvusStatus.ParameterInvalid("")
  {
    DivNegative(FloatCount(col), col.dim);
  }

  /** A passed check with rows to check was made on a FloatVector column of positive dim. */
  lemma FloatCheckPassedShape(dim: int, col: FieldData, numRows: int)
    requires col.dim != 0 && numRows > 0 && FloatCheck(dim, col, numRows) == MilvusStatus.Ok()
    ensures col.dtype == FloatVector && col.dim > 0
  {
    MilvusStatus.FactoryCodes("");
    if col.dim < 0 {
      DivNegative(FloatCount(col), col.dim);
    }
    assert FloatCount(col) > 0;
  }

  /** A quotient of a length by a positive width q: q rows of that width fit in the length. */
  lemma QuotientRowsFit(len: nat, d: int, i: nat)
    requires d > 0 && i < len / d
    ensures SchemaUtil.Offset(i + 1, d) <= len
  {
    SchemaUtil.OffsetIsProduct(i + 1, d);
    var q := len / d;
    assert q * d <= len;
    MulLe(i + 1, q, d);
  }

  lemma MulLe(a: nat, b: nat, c: nat)
    requires a <= b
    ensures a * c <= b * c
  {
  }

  /** A passed float check means the column holds at least num_rows rows of its dim, so every row below num_rows reads. */
  lemma FloatCheckRows(dim: int, col: FieldData, numRows: int, i: nat)
    requires col.dim != 0 && FloatCheck(dim, col, numRows) == MilvusStatus.Ok()
    requires i < numRows
    ensures SchemaUtil.RowReadable(col, i)
  {
    FloatCheckPassedShape(dim, col, numRows);
    MilvusStatus.FactoryCodes("");
    QuotientRowsFit(|col.cells|, col.dim, i);
  }

  /** A passed float check on positive num_rows makes the column readable for num_rows_ (the uint32 value) rows. */
  lemma FloatCheckReady(dim: int, col: FieldData, numRows: int)
    requires col.dim != 0 && numRows > 0 && FloatCheck(dim, col, numRows) == MilvusStatus.Ok()
    ensures ColumnReady(col, U32(numRows))
  {
    FloatCheckPassedShape(dim, col, numRows);
    assert U32(numRows) <= numRows;
    forall i | 0 <= i < U32(numRows)
      ensures SchemaUtil.RowReadable(col, i)
    {
      FloatCheckRows(dim, col, numRows, i);
    }
  }

  function SparseEntries(c: Cell): seq<SparseEntry>
  {
    if c.SparseCell? then c.entries else []
  }

  function Max(a: int, b: int): int { if a >= b then a else b }

  /** One row's dim as written: from 0, every 8-byte entry sets dim to max(dim, key) + 1 in uint32 arithmetic. */
  function RowDimAsWritten(es: seq<SparseEntry>): nat
    decreases |es|
  {
    if |es| == 0 then 0
    else U32(Max(RowDimAsWritten(es[..|es| - 1]), U32(es[|es| - 1].key)) + 1)
  }

  /** The sparse dim as written: each row restarts from 0, and the value set is the last row's. */
  function SparseDimAsWritten(rows: seq<Cell>): nat
  {
    if |rows| == 0 then 0 else RowDimAsWritten(SparseEntries(rows[|rows| - 1]))
  }

  /** One more than the largest key of a row, 0 for an empty row. */
  function RowDim(es: seq<SparseEntry>): (d: nat)
    ensures forall e | e in es :: U32(e.key) < d
    ensures d == 0 || exists e | e in es :: U32(e.key) + 1 == d
    decreases |es|
  {
    if |es| == 0 then 0
    else
      var pre := RowDim(es[..|es| - 1]);
      assert forall e | e in es :: e in es[..|es| - 1] || e == es[|es| - 1];
      Max(pre, U32(es[|es| - 1].key) + 1)
  }

  /** The dim of a sparse column: one more than the largest key in any row. */
  function SparseDim(rows: seq<Cell>): nat
    decreases |rows|
  {
    if |rows| == 0 then 0
    else Max(SparseDim(rows[..|rows| - 1]), RowDim(SparseEntries(rows[|rows| - 1])))
  }

  /** The corrected dim exceeds every key of every row and is reached by one of them (or is 0 with no entries). */
  lemma {:induction false} SparseDimSpec(rows: seq<Cell>)
    ensures forall r, e | 0 <= r < |rows| && e in SparseEntries(rows[r]) :: U32(e.key) < SparseDim(rows)
    ensures SparseDim(rows) == 0 ||
            exists r, e | 0 <= r < |rows| && e in SparseEntries(rows[r]) :: U32(e.key) + 1 == SparseDim(rows)
    decreases |rows|
  {
    if |rows| > 0 {
      var d := SparseDim(rows);
      var last := SparseEntries(rows[|rows| - 1]);
      var pre := rows[..|rows| - 1];
      SparseDimSpec(pre);
      assert forall r | 0 <= r < |pre| :: pre[r] == rows[r];
      if d != 0 {
        if d == RowDim(last) {
          var e :| e in last && U32(e.key) + 1 == RowDim(last);
          assert e in SparseEntries(rows[|rows| - 1]);
        } else {
          var r, e :| 0 <= r < |pre| && e in SparseEntries(pre[r]) && U32(e.key) + 1 == SparseDim(pre);
          assert e in SparseEntries(rows[r]);
        }
      }
    }
  }

  /** Two rows whose last row has the smaller key: the dim as written forgets the first row's key 9. */
  lemma SparseDimAsWrittenForgetsRows()
    ensures var rows := [SparseCell([SparseEntry(9, 1.0)]), SparseCell([SparseEntry(1, 1.0)])];
            SparseDimAsWritten(rows) == 2 && SparseDim(rows) == 10 &&
            U32(rows[0].entries[0].key) >= SparseDimAsWritten(rows)
  {
    var rows := [SparseCell([SparseEntry(9, 1.0)]), SparseCell([SparseEntry(1, 1.0)])];
    var es := [SparseEntry(1, 1.0)];
    assert es[..0] == [];
    assert RowDimAsWritten(es) == 2;
    var es9 := [SparseEntry(9, 1.0)];
    assert es9[..0] == [];
    assert RowDim(es9) == 10;
    assert rows[..1][..0] == [];
    assert SparseDim(rows[..1]) == 10;
  }

  /** The dim GetDim reads from each schema field's type params; the checks below take these as dims. */
  function SchemaDims(sfs: seq<FieldSchema>): (dims: seq<int>)
    ensures |dims| == |sfs|
  {
    seq(|sfs|, j requires 0 <= j < |sfs| => SchemaUtil.GetDim(sfs[j]))
  }

  /** Where CheckOrSetVectorDim stands: its status and the columns with the sparse dims set so far. */
  datatype Checked = Checked(status: MilvusStatus.Status, fields: seq<FieldData>)

  /** Every schema field is mapped to a column, and the column of a FloatVector field has a non-zero dim (the check divides by it). */
  predicate CheckReady(sfs: seq<FieldSchema>, dims: seq<int>, fields: seq<FieldData>, fmap: map<string, nat>)
  {
    |dims| == |sfs| && forall j | 0 <= j < |sfs| :: FieldReady(sfs[j], fields, fmap)
  }

  predicate FieldReady(sf: FieldSchema, fields: seq<FieldData>, fmap: map<string, nat>)
  {
    sf.name in fmap && fmap[sf.name] < |fields| &&
    (sf.dataType == FloatVector ==> fields[fmap[sf.name]].dim != 0)
  }

  /**
   * The turn of CheckOrSetVectorDim's loop for schema field sf, over the
   * columns as they came (fields0; setting sparse dims changes nothing the
   * checks read) and the columns updated so far (fields).
   */
  function CheckField(sf: FieldSchema, dim: int, fields0: seq<FieldData>, fields: seq<FieldData>, fmap: map<string, nat>, numRows: int): (c: Checked)
    requires FieldReady(sf, fields0, fmap) && |fields| == |fields0|
    ensures |c.fields| == |fields|
  {
    var j := fmap[sf.name];
    var col := fields0[j];
    if sf.dataType == FloatVector then Checked(FloatCheck(dim, col, numRows), fields)
    else if sf.dataType == SparseFloatVector && |col.cells| > 0 then
      Checked(MilvusStatus.Ok(), fields[j := fields[j].(sparseDim := SparseDim(col.cells))])
    else Checked(MilvusStatus.Ok(), fields)
  }

  /** CheckOrSetVectorDim's loop over the first k schema fields, stopping at the first failed check. */
  function CheckUpTo(sfs: seq<FieldSchema>, dims: seq<int>, k: nat, fields0: seq<FieldData>, fmap: map<string, nat>, numRows: int): (c: Checked)
    requires k <= |sfs| && CheckReady(sfs, dims, fields0, fmap)
    ensures |c.fields| == |fields0|
    decreases k
  {
    if k == 0 then Checked(MilvusStatus.Ok(), fields0)
    else
      var prev := CheckUpTo(sfs, dims, k - 1, fields0, fmap, numRows);
      if prev.status != MilvusStatus.Ok() then prev
      else CheckField(sfs[k - 1], dims[k - 1], fields0, prev.fields, fmap, numRows)
  }

  /** Once a check has failed, the later schema fields change nothing. */
  lemma {:induction false} CheckFailedStays(sfs: seq<FieldSchema>, dims: seq<int>, k: nat, m: nat, fields0: seq<FieldData>, fmap: map<string, nat>, numRows: int)
    requires k <= m <= |sfs| && CheckReady(sfs, dims, fields0, fmap)
    requires CheckUpTo(sfs, dims, k, fields0, fmap, numRows).status != MilvusStatus.Ok()
    ensures CheckUpTo(sfs, dims, m, fields0, fmap, numRows) == CheckUpTo(sfs, dims, k, fields0, fmap, numRows)
    decreases m
  {
    if m > k {
      CheckFailedStays(sfs, dims, k, m - 1, fields0, fmap, numRows);
    }
  }

  /** One more schema field after a run that has not failed: its check on the columns so far. */
  lemma CheckUpToStep(sfs: seq<FieldSchema>, k: nat, fields0: seq<FieldData>, fields: seq<FieldData>, fmap: map<string, nat>, numRows: int)
    requires k < |sfs| && CheckReady(sfs, SchemaDims(sfs), fields0, fmap)
    requires CheckUpTo(sfs, SchemaDims(sfs), k, fields0, fmap, numRows) == Checked(MilvusStatus.Ok(), fields)
    ensures CheckUpTo(sfs, SchemaDims(sfs), k + 1, fields0, fmap, numRows)
            == CheckField(sfs[k], SchemaUtil.GetDim(sfs[k]), fields0, fields, fmap, numRows)
  {
  }

  /** Setting sparse dims leaves every column's type, dim and payload as they came. */
  lemma {:induction false} CheckUpToShape(sfs: seq<FieldSchema>, dims: seq<int>, k: nat, fields0: seq<FieldData>, fmap: map<string, nat>, numRows: int, j: nat)
    requires k <= |sfs| && CheckReady(sfs, dims, fields0, fmap) && j < |fields0|
    ensures var c := CheckUpTo(sfs, dims, k, fields0, fmap, numRows).fields;
            c[j] == fields0[j].(sparseDim := c[j].sparseDim)
    decreases k
  {
    if k > 0 {
      CheckUpToShape(sfs, dims, k - 1, fields0, fmap, numRows, j);
    }
  }

  /** CheckOrSetVectorDim: num_rows must be positive, then every schema field is checked in order. */
  function CheckAll(sfs: seq<FieldSchema>, dims: seq<int>, fields0: seq<FieldData>, fmap: map<string, nat>, numRows: int): Checked
    requires CheckReady(sfs, dims, fields0, fmap)
  {
    if numRows <= 0 then Checked(MilvusStatus.ParameterInvalid(""), fields0)
    else CheckUpTo(sfs, dims, |sfs|, fields0, fmap, numRows)
  }

  /** FloatVector field j passed its float check. */
  predicate FloatPassed(sfs: seq<FieldSchema>, dims: seq<int>, j: nat, fields0: seq<FieldData>, fmap: map<string, nat>, numRows: int)
    requires j < |sfs| == |dims| && FieldReady(sfs[j], fields0, fmap)
  {
    sfs[j].dataType == FloatVector ==> FloatCheck(dims[j], fields0[fmap[sfs[j].name]], numRows) == MilvusStatus.Ok()
  }

  /** Every one of the first k schema fields passed its float check. */
  predicate AllFloatPassed(sfs: seq<FieldSchema>, dims: seq<int>, k: nat, fields0: seq<FieldData>, fmap: map<string, nat>, numRows: int)
    requires k <= |sfs| && CheckReady(sfs, dims, fields0, fmap)
  {
    forall j | 0 <= j < k :: FloatPassed(sfs, dims, j, fields0, fmap, numRows)
  }

  /** The status of some FloatVector field among the first k that failed its check. */
  predicate FailedAt(s: MilvusStatus.Status, sfs: seq<FieldSchema>, dims: seq<int>, k: nat, fields0: seq<FieldData>, fmap: map<string, nat>, numRows: int)
    requires k <= |sfs| && CheckReady(sfs, dims, fields0, fmap)
  {
    exists j | 0 <= j < k && sfs[j].dataType == FloatVector ::
      s == FloatCheck(dims[j], fields0[fmap[sfs[j].name]], numRows)
  }

  lemma AllFloatPassedStep(sfs: seq<FieldSchema>, dims: seq<int>, k: nat, fields0: seq<FieldData>, fmap: map<string, nat>, numRows: int)
    requires 0 < k <= |sfs| && CheckReady(sfs, dims, fields0, fmap)
    ensures AllFloatPassed(sfs, dims, k, fields0, fmap, numRows) <==>
            AllFloatPassed(sfs, dims, k - 1, fields0, fmap, numRows) && FloatPassed(sfs, dims, k - 1, fields0, fmap, numRows)
  {
  }

  lemma FailedAtWiden(s: MilvusStatus.Status, sfs: seq<FieldSchema>, dims: seq<int>, k: nat, fields0: seq<FieldData>, fmap: map<string, nat>, numRows: int)
    requires 0 < k <= |sfs| && CheckReady(sfs, dims, fields0, fmap) && FailedAt(s, sfs, dims, k - 1, fields0, fmap, numRows)
    ensures FailedAt(s, sfs, dims, k, fields0, fmap, numRows)
  {
    var j :| 0 <= j < k - 1 && sfs[j].dataType == FloatVector && s == FloatCheck(dims[j], fields0[fmap[sfs[j].name]], numRows);
  }

  /**
   * The loop passes exactly when every FloatVector schema field's column
   * passed its float check; a failed loop returns the status of one that
   * failed.
   */
  lemma {:induction false} CheckUpToSpec(sfs: seq<FieldSchema>, dims: seq<int>, k: nat, fields0: seq<FieldData>, fmap: map<string, nat>, numRows: int)
    requires k <= |sfs| && CheckReady(sfs, dims, fields0, fmap)
    ensures var c := CheckUpTo(sfs, dims, k, fields0, fmap, numRows);
            (c.status == MilvusStatus.Ok() <==> AllFloatPassed(sfs, dims, k, fields0, fmap, numRows)) &&
            (c.status != MilvusStatus.Ok() ==> FailedAt(c.status, sfs, dims, k, fields0, fmap, numRows))
    decreases k
  {
    if k > 0 {
      CheckUpToSpec(sfs, dims, k - 1, fields0, fmap, numRows);
      AllFloatPassedStep(sfs, dims, k, fields0, fmap, numRows);
      var prev := CheckUpTo(sfs, dims, k - 1, fields0, fmap, numRows);
      var sf := sfs[k - 1];
      assert FieldReady(sf, fields0, fmap);
      if prev.status != MilvusStatus.Ok() {
        FailedAtWiden(prev.status, sfs, dims, k, fields0, fmap, numRows);
      } else if sf.dataType == FloatVector {
        var st := FloatCheck(dims[k - 1], fields0[fmap[sf.name]], numRows);
        assert CheckUpTo(sfs, dims, k, fields0, fmap, numRows).status == st;
        if st != MilvusStatus.Ok() {
          assert FailedAt(st, sfs, dims, k, fields0, fmap, numRows);
        }
      } else {
        assert CheckUpTo(sfs, dims, k, fields0, fmap, numRows).status == MilvusStatus.Ok();
      }
    }
  }

  // ---------------------------------------------------------------------------
  // Emitting the rows

  /** One insert record: segcore.InsertRecord. */
  datatype InsertRecord = InsertRecord(numRows: int, fieldsData: seq<FieldData>)

  /** One element of the Rows output: the primary key as text and the record. */
  datatype Row = Row(pk: string, record: InsertRecord)

  /** The columns the schema fields look up, in schema order. */
  function ColumnsOf(sfs: seq<FieldSchema>, fields: seq<FieldData>, fmap: map<string, nat>): (cols: seq<FieldData>)
    requires forall j | 0 <= j < |sfs| :: sfs[j].name in fmap && fmap[sfs[j].name] < |fields|
    ensures |cols| == |sfs|
  {
    seq(|sfs|, j requires 0 <= j < |sfs| => fields[fmap[sfs[j].name]])
  }

  /** The column of a record for schema field sf: row i of its column, under the schema field's header. */
  function RecordField(sf: FieldSchema, col: FieldData, i: nat): FieldData
    requires SchemaUtil.WellFormedDim(col) && SchemaUtil.RowReadable(col, i)
  {
    SchemaUtil.SliceIndexesSingle(i, 1);
    assert SchemaUtil.Range(i, i + 1) == [i];
    SchemaUtil.PickResult(col, SchemaUtil.SliceIndexes([(i, 1)]), EmptyField(sf.dataType, sf.name, sf.fieldId, false))
  }

  /** The key text of a record column: an Int64 key printed in decimal, any other the string it holds ("" when the payload is of another kind). */
  function PkText(t: DType, fd: FieldData): string
  {
    if |fd.cells| == 0 then ""
    else if t == Int64 then (if fd.cells[0].IntCell? then Decimal.ToString(fd.cells[0].i) else "")
    else if fd.cells[0].TextCell? then fd.cells[0].s else ""
  }

  /** Every row below n of the column can be read. */
  predicate ColumnReady(col: FieldData, n: nat)
  {
    SchemaUtil.WellFormedDim(col) && forall i | 0 <= i < n :: SchemaUtil.RowReadable(col, i)
  }

  /** Every column is readable for n rows. */
  predicate Emittable(cols: seq<FieldData>, n: nat)
  {
    forall j | 0 <= j < |cols| :: ColumnReady(cols[j], n)
  }

  /** The record columns of row i: for each schema field, row i of its column under the field's header. */
  function RowPicks(sfs: seq<FieldSchema>, cols: seq<FieldData>, n: nat, i: nat): (picks: seq<FieldData>)
    requires |sfs| == |cols| && i < n && Emittable(cols, n)
    ensures |picks| == |sfs|
  {
    seq(|sfs|, j requires 0 <= j < |sfs| => RecordField(sfs[j], cols[j], i))
  }

  /** Field k's record column for row i is RecordField of its column, which row i of can be read. */
  lemma RowPickAt(sfs: seq<FieldSchema>, cols: seq<FieldData>, n: nat, i: nat, k: nat)
    requires |sfs| == |cols| && i < n && Emittable(cols, n) && k < |sfs|
    ensures SchemaUtil.WellFormedDim(cols[k]) && SchemaUtil.RowReadable(cols[k], i)
    ensures RowPicks(sfs, cols, n, i)[k] == RecordField(sfs[k], cols[k], i)
  {
    assert ColumnReady(cols[k], n);
  }

  /** A record column carries the schema field's header and exactly row i of the column's payload. */
  lemma RecordFieldSpec(sf: FieldSchema, col: FieldData, i: nat)
    requires SchemaUtil.WellFormedDim(col) && SchemaUtil.RowReadable(col, i)
    ensures var fd := RecordField(sf, col, i);
            fd.dtype == sf.dataType && fd.fieldName == sf.name && fd.fieldId == sf.fieldId && !fd.isDynamic &&
            fd.cells == SchemaUtil.RowCells(col, i)
  {
    SchemaUtil.SliceIndexesSingle(i, 1);
    assert SchemaUtil.Range(i, i + 1) == [i];
    assert [i][..0] == [];
    assert SchemaUtil.Picked(col, [i]) == SchemaUtil.Picked(col, []) + SchemaUtil.RowCells(col, i);
  }

  /** Where building one record stands: still going, its columns, and the key text so far. */
  datatype Rec = Rec(ok: bool, fieldsData: seq<FieldData>, pk: string)

  /**
   * The record of one row over the first k schema fields, cols[j] being
   * field j's column and picks[j] that column's slice for the row; a column
   * without data stops it.
   */
  function RecordUpTo(sfs: seq<FieldSchema>, cols: seq<FieldData>, picks: seq<FieldData>, k: nat, pkName: string): Rec
    requires k <= |sfs| == |cols| == |picks|
    decreases k
  {
    if k == 0 then Rec(true, [], "")
    else
      var prev := RecordUpTo(sfs, cols, picks, k - 1, pkName);
      var sf := sfs[k - 1];
      if !prev.ok then prev
      else if cols[k - 1].dtype == NoneType then Rec(false, prev.fieldsData, prev.pk)
      else Rec(true, prev.fieldsData + [picks[k - 1]], if sf.name == pkName then PkText(sf.dataType, picks[k - 1]) else prev.pk)
  }

  /** The key text comes from the last schema field named pkName, "" when there is none. */
  function PkFrom(sfs: seq<FieldSchema>, picks: seq<FieldData>, k: nat, pkName: string): string
    requires k <= |sfs| == |picks|
    decreases k
  {
    if k == 0 then ""
    else if sfs[k - 1].name == pkName then PkText(sfs[k - 1].dataType, picks[k - 1])
    else PkFrom(sfs, picks, k - 1, pkName)
  }

  /** Once a record has failed, the later schema fields change nothing. */
  lemma {:induction false} RecordFailedStays(sfs: seq<FieldSchema>, cols: seq<FieldData>, picks: seq<FieldData>, k: nat, m: nat, pkName: string)
    requires k <= m <= |sfs| == |cols| == |picks| && !RecordUpTo(sfs, cols, picks, k, pkName).ok
    ensures RecordUpTo(sfs, cols, picks, m, pkName) == RecordUpTo(sfs, cols, picks, k, pkName)
    decreases m
  {
    if m > k {
      RecordFailedStays(sfs, cols, picks, k, m - 1, pkName);
    }
  }

  /** Some column among the first k has no data. */
  predicate HasEmptyColumn(cols: seq<FieldData>, k: nat)
    requires k <= |cols|
  {
    exists j | 0 <= j < k :: cols[j].dtype == NoneType
  }

  /**
   * A record is built exactly when no schema field's column is without data;
   * it then holds the slices of every schema field's column, in schema order,
   * and the key text of the last field named pkName.
   */
  lemma {:induction false} RecordUpToSpec(sfs: seq<FieldSchema>, cols: seq<FieldData>, picks: seq<FieldData>, k: nat, pkName: string)
    requires k <= |sfs| == |cols| == |picks|
    ensures var r := RecordUpTo(sfs, cols, picks, k, pkName);
            (r.ok <==> !HasEmptyColumn(cols, k)) &&
            (r.ok ==> r.fieldsData == picks[..k] && r.pk == PkFrom(sfs, picks, k, pkName))
    decreases k
  {
    if k > 0 {
      RecordUpToSpec(sfs, cols, picks, k - 1, pkName);
      var prev := RecordUpTo(sfs, cols, picks, k - 1, pkName);
      if prev.ok && cols[k - 1].dtype != NoneType {
        assert picks[..k] == picks[..k - 1] + [picks[k - 1]];
      }
      if HasEmptyColumn(cols, k) {
        var j :| 0 <= j < k && cols[j].dtype == NoneType;
        if j < k - 1 { assert HasEmptyColumn(cols, k - 1); }
      }
    }
  }

  /** Where the row loop stands: its status and the rows pushed so far. */
  datatype Emitted = Emitted(status: MilvusStatus.Status, rows: seq<Row>)

  /** The row of row r when its record can be built. */
  function RowOf(sfs: seq<FieldSchema>, cols: seq<FieldData>, n: nat, r: nat, pkName: string): Row
    requires r < n && |sfs| == |cols| && Emittable(cols, n)
  {
    var picks := RowPicks(sfs, cols, n, r);
    Row(PkFrom(sfs, picks, |sfs|, pkName), InsertRecord(1, picks))
  }

  /** Process's row loop over rows 0 .. i-1; a record that cannot be built gives FieldNotFound and keeps the rows pushed before it. */
  function RowsUpTo(sfs: seq<FieldSchema>, cols: seq<FieldData>, n: nat, i: nat, pkName: string): Emitted
    requires i <= n && |sfs| == |cols| && Emittable(cols, n)
    decreases i
  {
    if i == 0 then Emitted(MilvusStatus.Ok(), [])
    else
      var prev := RowsUpTo(sfs, cols, n, i - 1, pkName);
      if prev.status != MilvusStatus.Ok() then prev
      else
        var r := RecordUpTo(sfs, cols, RowPicks(sfs, cols, n, i - 1), |sfs|, pkName);
        if !r.ok then Emitted(MilvusStatus.FieldNotFound(""), prev.rows)
        else Emitted(MilvusStatus.Ok(), prev.rows + [Row(r.pk, InsertRecord(1, r.fieldsData))])
  }

  /** Once the row loop has failed, the later rows change nothing. */
  lemma {:induction false} RowsFailedStays(sfs: seq<FieldSchema>, cols: seq<FieldData>, n: nat, i: nat, m: nat, pkName: string)
    requires i <= m <= n && |sfs| == |cols| && Emittable(cols, n)
    requires RowsUpTo(sfs, cols, n, i, pkName).status != MilvusStatus.Ok()
    ensures RowsUpTo(sfs, cols, n, m, pkName) == RowsUpTo(sfs, cols, n, i, pkName)
    decreases m
  {
    if m > i {
      RowsFailedStays(sfs, cols, n, i, m - 1, pkName);
    }
  }

  /** The first i rows, each as RowOf builds it. */
  predicate RowsAre(rows: seq<Row>, sfs: seq<FieldSchema>, cols: seq<FieldData>, n: nat, i: nat, pkName: string)
    requires i <= n && |sfs| == |cols| && Emittable(cols, n)
  {
    |rows| == i && forall r | 0 <= r < i :: rows[r] == RowOf(sfs, cols, n, r, pkName)
  }

  /** With every column holding data, the row loop pushes all i rows, row r built from row r of every column and tagged with its key text. */
  lemma {:induction false} RowsUpToOk(sfs: seq<FieldSchema>, cols: seq<FieldData>, n: nat, i: nat, pkName: string)
    requires i <= n && |sfs| == |cols| && Emittable(cols, n) && !HasEmptyColumn(cols, |cols|)
    ensures var e := RowsUpTo(sfs, cols, n, i, pkName);
            e.status == MilvusStatus.Ok() && RowsAre(e.rows, sfs, cols, n, i, pkName)
    decreases i
  {
    if i > 0 {
      RowsUpToOk(sfs, cols, n, i - 1, pkName);
      var picks := RowPicks(sfs, cols, n, i - 1);
      RecordUpToSpec(sfs, cols, picks, |sfs|, pkName);
      assert picks[..|sfs|] == picks;
      var prev := RowsUpTo(sfs, cols, n, i - 1, pkName);
      RowsAreSnoc(prev.rows, sfs, cols, n, i, pkName);
    }
  }

  lemma RowsAreSnoc(rows: seq<Row>, sfs: seq<FieldSchema>, cols: seq<FieldData>, n: nat, i: nat, pkName: string)
    requires 0 < i <= n && |sfs| == |cols| && Emittable(cols, n) && RowsAre(rows, sfs, cols, n, i - 1, pkName)
    ensures RowsAre(rows + [RowOf(sfs, cols, n, i - 1, pkName)], sfs, cols, n, i, pkName)
  {
  }

  /** A column without data stops the row loop at the first row with FieldNotFound, and no row is pushed. */
  lemma {:induction false} RowsUpToFails(sfs: seq<FieldSchema>, cols: seq<FieldData>, n: nat, i: nat, pkName: string)
    requires 0 < i <= n && |sfs| == |cols| && Emittable(cols, n) && HasEmptyColumn(cols, |cols|)
    ensures RowsUpTo(sfs, cols, n, i, pkName) == Emitted(MilvusStatus.FieldNotFound(""), [])
    decreases i
  {
    MilvusStatus.FactoryCodes("");
    if i > 1 {
      RowsUpToFails(sfs, cols, n, i - 1, pkName);
    } else {
      RecordUpToSpec(sfs, cols, RowPicks(sfs, cols, n, 0), |sfs|, pkName);
    }
  }

  // ---------------------------------------------------------------------------
  // What Process does, as a function of the request, the schema, the row-id
  // counter and the clock

  /** Some schema field called name, of FloatVector type or (isFloat false) of another type. */
  predicate NamedBy(sfs: seq<FieldSchema>, name: string, isFloat: bool)
  {
    exists j | 0 <= j < |sfs| :: sfs[j].name == name && (sfs[j].dataType == FloatVector) == isFloat
  }

  /**
   * What the float check needs of FloatVector schema field j: it is not named
   * like a system or $meta column nor like an auto-id key, and no request
   * column of its name has dim 0 (the check divides by that dim). A negative
   * dim or a column of another type is checked, and refused.
   */
  predicate FloatFieldReady(sfs: seq<FieldSchema>, j: nat, cols: seq<FieldData>)
    requires j < |sfs|
  {
    var name := sfs[j].name;
    name != ROW_ID_FIELD_NAME && name != TIMESTAMP_FIELD_NAME && name != META_FIELD_NAME &&
    (forall i | 0 <= i < |sfs| && sfs[i].name == name :: !(sfs[i].isPrimaryKey && sfs[i].autoId)) &&
    (forall c | c in cols && c.fieldName == name :: c.dim != 0)
  }

  /** The first n cells of a column are int64 values. */
  predicate HoldsInts(col: FieldData, n: nat)
  {
    n <= |col.cells| && forall i | 0 <= i < n :: col.cells[i].IntCell?
  }

  /**
   * What Process reads without checking: a request column called RowID
   * holds num_rows int64 values (GenFieldMap reads the row ids back through
   * that name, and the first such column is the request's), the float check
   * is defined for every FloatVector schema field, and every other column a
   * record is sliced from (one named like a schema field of another type, or
   * a dynamic one) has num_rows readable rows.
   */
  predicate ProcessReady(req: InsertRequest, schema: CollectionSchema)
  {
    var sfs := schema.fields;
    (forall c | c in req.fieldsData && c.fieldName == ROW_ID_FIELD_NAME :: HoldsInts(c, U32(req.numRows))) &&
    (forall j | 0 <= j < |sfs| && sfs[j].dataType == FloatVector :: FloatFieldReady(sfs, j, req.fieldsData)) &&
    (forall c | c in req.fieldsData && (c.isDynamic || NamedBy(sfs, c.fieldName, false)) :: ColumnReady(c, U32(req.numRows)))
  }

  /** The columns after AddSystemField and CheckDynamicFieldData. */
  function Prepared(req: InsertRequest, schema: CollectionSchema, curId: int, nowMs: nat): seq<FieldData>
  {
    var n := U32(req.numRows);
    DynamicColumns(schema, req.fieldsData + SystemColumns(curId, nowMs, n), n)
  }

  /** The row ids AddSystemField hands out. */
  function BatchRowIds(curId: int, nowMs: nat, n: nat): seq<int>
  {
    RowIdsOf(curId, Timestamps(Timestamp(nowMs, curId), n))
  }

  /** The int64 values of the first n cells of a column, as GetField reads long_data. */
  function LongValues(col: FieldData, n: nat): (vs: seq<int>)
    requires n <= |col.cells| && forall i | 0 <= i < n :: col.cells[i].IntCell?
    ensures |vs| == n
  {
    seq(n, i requires 0 <= i < n => col.cells[i].i)
  }

  /** The first column called RowID exists and holds n int64 values: what GenFieldMap reads for an auto-id key. */
  predicate RowIdsReadable(fields: seq<FieldData>, n: nat)
  {
    var m := NameMap(fields);
    ROW_ID_FIELD_NAME in m && m[ROW_ID_FIELD_NAME] < |fields| &&
    HoldsInts(fields[m[ROW_ID_FIELD_NAME]], n)
  }

  /** The row ids GenFieldMap reads back through the name RowID. */
  function RowIdsIn(fields: seq<FieldData>, n: nat): seq<int>
    requires RowIdsReadable(fields, n)
  {
    LongValues(fields[NameMap(fields)[ROW_ID_FIELD_NAME]], n)
  }

  /**
   * The row ids can be read back through the name RowID. They are the ids
   * AddSystemField handed out when no request column is called RowID; a
   * non-dynamic request column of that name comes first and supplies them
   * instead.
   */
  lemma PreparedRowIds(req: InsertRequest, schema: CollectionSchema, curId: int, nowMs: nat)
    requires ProcessReady(req, schema)
    ensures var f2 := Prepared(req, schema, curId, nowMs);
            var n := U32(req.numRows);
            RowIdsReadable(f2, n) &&
            ((forall c | c in req.fieldsData :: c.fieldName != ROW_ID_FIELD_NAME) ==> RowIdsIn(f2, n) == BatchRowIds(curId, nowMs, n)) &&
            ((exists j | 0 <= j < |req.fieldsData| :: req.fieldsData[j].fieldName == ROW_ID_FIELD_NAME && !req.fieldsData[j].isDynamic) ==>
               NameMap(f2)[ROW_ID_FIELD_NAME] < |req.fieldsData|)
  {
    var f2 := Prepared(req, schema, curId, nowMs);
    var n := U32(req.numRows);
    var k := |req.fieldsData|;
    assert ROW_ID_FIELD_NAME != META_FIELD_NAME by { assert ROW_ID_FIELD_NAME[0] != META_FIELD_NAME[0]; }
    PreparedAt(req, schema, curId, nowMs, k);
    assert f2[k].fieldName == ROW_ID_FIELD_NAME;
    NameMapSpec(f2, ROW_ID_FIELD_NAME);
    var r := NameMap(f2)[ROW_ID_FIELD_NAME];
    assert r <= k;
    if r < k {
      PreparedAt(req, schema, curId, nowMs, r);
      assert f2[r] == req.fieldsData[r];
      assert req.fieldsData[r] in req.fieldsData;
    } else {
      var ids := BatchRowIds(curId, nowMs, n);
      assert f2[r].cells == IntCells(ids);
      if forall c | c in req.fieldsData :: c.fieldName != ROW_ID_FIELD_NAME {
        assert LongValues(f2[r], n) == ids;
      }
    }
    if exists j | 0 <= j < k :: req.fieldsData[j].fieldName == ROW_ID_FIELD_NAME && !req.fieldsData[j].isDynamic {
      var j :| 0 <= j < k && req.fieldsData[j].fieldName == ROW_ID_FIELD_NAME && !req.fieldsData[j].isDynamic;
      PreparedAt(req, schema, curId, nowMs, j);
      assert f2[j].fieldName == ROW_ID_FIELD_NAME;
    }
  }

  /**
   * The ids an auto-id key is made from: those GenFieldMap reads back through
   * the name RowID (PreparedRowIds shows they are readable under
   * ProcessReady; the ids AddSystemField handed out stand in otherwise).
   */
  function KeyIds(req: InsertRequest, schema: CollectionSchema, curId: int, nowMs: nat): (ids: seq<int>)
    ensures |ids| == U32(req.numRows)
  {
    var f2 := Prepared(req, schema, curId, nowMs);
    var n := U32(req.numRows);
    if RowIdsReadable(f2, n) then RowIdsIn(f2, n) else BatchRowIds(curId, nowMs, n)
  }

  /** GenFieldMap's outcome over the prepared columns. */
  function Mapped(req: InsertRequest, schema: CollectionSchema, curId: int, nowMs: nat): Gen
  {
    var sfs := schema.fields;
    var pks := PkColumns(sfs, KeyIds(req, schema, curId, nowMs));
    GenUpTo(sfs, |sfs|, Prepared(req, schema, curId, nowMs), pks)
  }

  /**
   * Process: AddSystemField, CheckDynamicFieldData and GenFieldMap, any of
   * which failing gives ParameterInvalid; then CheckOrSetVectorDim's status;
   * a schema without primary key gives ParameterInvalid; then the row loop.
   */
  function ProcessSpec(req: InsertRequest, schema: CollectionSchema, curId: int, nowMs: nat): Emitted
    requires ProcessReady(req, schema)
  {
    var n := U32(req.numRows);
    var sfs := schema.fields;
    if n == 0 then Emitted(MilvusStatus.ParameterInvalid(""), [])
    else
      var g := Mapped(req, schema, curId, nowMs);
      if !g.ok then Emitted(MilvusStatus.ParameterInvalid(""), [])
      else
        MappedReady(req, schema, curId, nowMs);
        var c := CheckAll(sfs, SchemaDims(sfs), g.fields, g.fmap, req.numRows);
        if c.status != MilvusStatus.Ok() then Emitted(c.status, [])
        else
          var pkName := SchemaUtil.GetPkName(schema);
          if pkName.None? then Emitted(MilvusStatus.ParameterInvalid(""), [])
          else
            CheckedEmittable(req, schema, curId, nowMs);
            RowsUpTo(sfs, ColumnsOf(sfs, c.fields, g.fmap), n, n, pkName.value)
  }

  /** Process got past GenFieldMap: there are rows and every schema field has a column. */
  predicate MappedOk(req: InsertRequest, schema: CollectionSchema, curId: int, nowMs: nat)
  {
    ProcessReady(req, schema) && U32(req.numRows) > 0 && Mapped(req, schema, curId, nowMs).ok
  }

  /**
   * The prepared columns: the request's (the first dynamic one possibly
   * renamed $meta), then RowID and Timestamp, then possibly the default $meta.
   */
  lemma PreparedAt(req: InsertRequest, schema: CollectionSchema, curId: int, nowMs: nat, idx: nat)
    requires idx < |Prepared(req, schema, curId, nowMs)|
    ensures var f2 := Prepared(req, schema, curId, nowMs);
            var n := U32(req.numRows);
            var k := |req.fieldsData|;
            var sys := SystemColumns(curId, nowMs, n);
            (idx < k ==> f2[idx] == req.fieldsData[idx] ||
                         (req.fieldsData[idx].isDynamic && f2[idx] == req.fieldsData[idx].(fieldName := META_FIELD_NAME))) &&
            (idx == k ==> f2[idx] == sys[0]) &&
            (idx == k + 1 ==> f2[idx] == sys[1]) &&
            (idx >= k + 2 ==> idx == k + 2 && f2[idx] == MetaDefault(schema, n))
  {
    var n := U32(req.numRows);
    var f1 := req.fieldsData + SystemColumns(curId, nowMs, n);
    var k := |req.fieldsData|;
    assert f1[k] == SystemColumns(curId, nowMs, n)[0] && f1[k + 1] == SystemColumns(curId, nowMs, n)[1];
    if schema.enableDynamicField {
      match FirstDynamic(f1)
      case Some(d) =>
        assert !f1[k].isDynamic && !f1[k + 1].isDynamic;
        assert d < k;
      case None =>
    }
  }

  lemma Int64ColumnReady(name: string, id: int, vs: seq<int>)
    ensures ColumnReady(Int64Column(name, id, vs), |vs|)
  {
  }

  lemma MetaDefaultReady(schema: CollectionSchema, n: nat)
    ensures ColumnReady(MetaDefault(schema, n), n)
  {
  }

  /**
   * The default dynamic column as written holds a single "{}" whatever the
   * row count, so with two rows the second row has no cell to read; one "{}"
   * per row makes every row readable.
   */
  lemma MetaDefaultAsWrittenTooShort(schema: CollectionSchema)
    ensures !SchemaUtil.RowReadable(MetaDefaultAsWritten(schema), 1)
    ensures ColumnReady(MetaDefault(schema, 2), 2)
  {
    MetaDefaultReady(schema, 2);
  }

  /** A generated key column has a cell per row id (a vector-typed key has dim 0, so its rows are empty but readable). */
  lemma PkColumnReady(f: FieldSchema, rowIds: seq<int>)
    ensures ColumnReady(PkColumn(f, rowIds), |rowIds|)
  {
    var col := PkColumn(f, rowIds);
    forall i | 0 <= i < |rowIds|
      ensures SchemaUtil.RowReadable(col, i)
    {
      SchemaUtil.OffsetIsProduct(i, 0);
      SchemaUtil.OffsetIsProduct(i + 1, 0);
    }
  }

  lemma ColumnReadySparse(col: FieldData, d: int, n: nat)
    requires ColumnReady(col, n)
    ensures ColumnReady(col.(sparseDim := d), n)
  {
    forall i | 0 <= i < n
      ensures SchemaUtil.RowReadable(col.(sparseDim := d), i)
    {
      assert SchemaUtil.RowReadable(col, i);
    }
  }

  /** GenSpec over the prepared columns. */
  lemma MappedHolds(req: InsertRequest, schema: CollectionSchema, curId: int, nowMs: nat)
    ensures var sfs := schema.fields;
            var pks := PkColumns(sfs, KeyIds(req, schema, curId, nowMs));
            GenHolds(Mapped(req, schema, curId, nowMs), sfs, |sfs|, Prepared(req, schema, curId, nowMs),
                     NameMap(Prepared(req, schema, curId, nowMs)), pks)
  {
    var sfs := schema.fields;
    var pks := PkColumns(sfs, KeyIds(req, schema, curId, nowMs));
    PkColumnsNamed(sfs, KeyIds(req, schema, curId, nowMs));
    GenSpec(sfs, |sfs|, Prepared(req, schema, curId, nowMs), pks);
  }

  /** A FloatVector schema field is mapped to a request column with a non-zero dim. */
  lemma FloatColumnFacts(req: InsertRequest, schema: CollectionSchema, curId: int, nowMs: nat, j: nat)
    requires MappedOk(req, schema, curId, nowMs) && j < |schema.fields| && schema.fields[j].dataType == FloatVector
    ensures var g := Mapped(req, schema, curId, nowMs);
            var name := schema.fields[j].name;
            name in g.fmap && g.fmap[name] < |g.fields| &&
            g.fields[g.fmap[name]].dim != 0
  {
    var sfs := schema.fields;
    var f2 := Prepared(req, schema, curId, nowMs);
    var m0 := NameMap(f2);
    var g := Mapped(req, schema, curId, nowMs);
    var name := sfs[j].name;
    MappedHolds(req, schema, curId, nowMs);
    assert FloatFieldReady(sfs, j, req.fieldsData);
    assert Covered(sfs, j, m0);
    assert name in m0;
    var idx := m0[name];
    NameMapSpec(f2, name);
    assert g.fmap[name] == idx;
    assert g.fields[idx] == g.fields[..|f2|][idx] == f2[idx];
    PreparedAt(req, schema, curId, nowMs, idx);
    assert idx < |req.fieldsData| && f2[idx] == req.fieldsData[idx];
    assert req.fieldsData[idx] in req.fieldsData;
  }

  /** After GenFieldMap, the vector check is defined: every schema field is mapped and float columns have a dim. */
  lemma MappedReady(req: InsertRequest, schema: CollectionSchema, curId: int, nowMs: nat)
    requires MappedOk(req, schema, curId, nowMs)
    ensures var g := Mapped(req, schema, curId, nowMs);
            CheckReady(schema.fields, SchemaDims(schema.fields), g.fields, g.fmap)
  {
    var sfs := schema.fields;
    var g := Mapped(req, schema, curId, nowMs);
    MappedHolds(req, schema, curId, nowMs);
    forall j | 0 <= j < |sfs|
      ensures FieldReady(sfs[j], g.fields, g.fmap)
    {
      assert sfs[j].name in g.fmap;
      if sfs[j].dataType == FloatVector {
        FloatColumnFacts(req, schema, curId, nowMs, j);
      }
    }
  }

  /** The column GenFieldMap maps a schema field of another type to has num_rows readable rows. */
  lemma OtherColumnReady(req: InsertRequest, schema: CollectionSchema, curId: int, nowMs: nat, j: nat)
    requires MappedOk(req, schema, curId, nowMs) && j < |schema.fields| && schema.fields[j].dataType != FloatVector
    ensures var g := Mapped(req, schema, curId, nowMs);
            var name := schema.fields[j].name;
            name in g.fmap && g.fmap[name] < |g.fields| && ColumnReady(g.fields[g.fmap[name]], U32(req.numRows))
  {
    var sfs := schema.fields;
    var n := U32(req.numRows);
    var rowIds := KeyIds(req, schema, curId, nowMs);
    var pks := PkColumns(sfs, rowIds);
    var f2 := Prepared(req, schema, curId, nowMs);
    var m0 := NameMap(f2);
    var g := Mapped(req, schema, curId, nowMs);
    var name := sfs[j].name;
    MappedHolds(req, schema, curId, nowMs);
    assert name in g.fmap;
    var idx := g.fmap[name];
    if name in m0 {
      NameMapSpec(f2, name);
      assert idx == m0[name];
      assert g.fields[idx] == g.fields[..|f2|][idx] == f2[idx];
      PreparedAt(req, schema, curId, nowMs, idx);
      var k := |req.fieldsData|;
      if idx < k {
        var c := req.fieldsData[idx];
        assert c in req.fieldsData;
        if f2[idx] == c {
          assert NamedBy(sfs, c.fieldName, false);
          assert ColumnReady(c, n);
        } else {
          assert ColumnReady(c, n);
          ColumnReadyRenamed(c, META_FIELD_NAME, n);
        }
        assert ColumnReady(f2[idx], n);
      } else if idx == k {
        Int64ColumnReady(ROW_ID_FIELD_NAME, ROW_ID_FIELD, BatchRowIds(curId, nowMs, n));
        assert ColumnReady(f2[idx], n);
      } else if idx == k + 1 {
        Int64ColumnReady(TIMESTAMP_FIELD_NAME, TIMESTAMP_FIELD, Timestamps(Timestamp(nowMs, curId), n));
        assert ColumnReady(f2[idx], n);
      } else {
        MetaDefaultReady(schema, n);
        assert ColumnReady(f2[idx], n);
      }
    } else {
      assert GenKeyed(sfs, |sfs|, pks, name, g.fields[idx]);
      var i :| 0 <= i < |sfs| && sfs[i].name == name && sfs[i].isPrimaryKey && sfs[i].autoId && g.fields[idx] == pks[i];
      PkColumnReady(sfs[i], rowIds);
      assert ColumnReady(pks[i], n);
    }
  }

  lemma ColumnReadyRenamed(col: FieldData, name: string, n: nat)
    requires ColumnReady(col, n)
    ensures ColumnReady(col.(fieldName := name), n)
  {
    forall i | 0 <= i < n
      ensures SchemaUtil.RowReadable(col.(fieldName := name), i)
    {
      assert SchemaUtil.RowReadable(col, i);
    }
  }

  /** CheckOrSetVectorDim's status is either Ok or one CHECK_STATUS rejects. */
  lemma CheckAllStatus(sfs: seq<FieldSchema>, dims: seq<int>, fields0: seq<FieldData>, fmap: map<string, nat>, numRows: int)
    requires CheckReady(sfs, dims, fields0, fmap)
    ensures var s := CheckAll(sfs, dims, fields0, fmap, numRows).status;
            s == MilvusStatus.Ok() || !s.IsOk()
  {
    MilvusStatus.FactoryCodes("");
    if numRows > 0 {
      CheckUpToSpec(sfs, dims, |sfs|, fields0, fmap, numRows);
    }
  }

  /** What a passed vector check after GenFieldMap means: there are rows, the check was defined and it passed. */
  predicate CheckedOk(req: InsertRequest, schema: CollectionSchema, curId: int, nowMs: nat)
  {
    MappedOk(req, schema, curId, nowMs) &&
    var g := Mapped(req, schema, curId, nowMs);
    CheckReady(schema.fields, SchemaDims(schema.fields), g.fields, g.fmap) &&
    CheckAll(schema.fields, SchemaDims(schema.fields), g.fields, g.fmap, req.numRows).status == MilvusStatus.Ok()
  }

  /** A FloatVector schema field's column, having passed its float check, has num_rows readable rows. */
  lemma FloatColumnReady(req: InsertRequest, schema: CollectionSchema, curId: int, nowMs: nat, j: nat)
    requires CheckedOk(req, schema, curId, nowMs) && j < |schema.fields| && schema.fields[j].dataType == FloatVector
    ensures var g := Mapped(req, schema, curId, nowMs);
            ColumnReady(g.fields[g.fmap[schema.fields[j].name]], U32(req.numRows))
  {
    var sfs := schema.fields;
    var dims := SchemaDims(sfs);
    var g := Mapped(req, schema, curId, nowMs);
    MilvusStatus.FactoryCodes("");
    assert req.numRows > 0;
    CheckUpToSpec(sfs, dims, |sfs|, g.fields, g.fmap, req.numRows);
    FloatColumnFacts(req, schema, curId, nowMs, j);
    assert FloatPassed(sfs, dims, j, g.fields, g.fmap, req.numRows);
    FloatCheckReady(dims[j], g.fields[g.fmap[sfs[j].name]], req.numRows);
  }

  /** Schema field j's column after the vector check has num_rows readable rows. */
  lemma CheckedColumnReady(req: InsertRequest, schema: CollectionSchema, curId: int, nowMs: nat, j: nat)
    requires CheckedOk(req, schema, curId, nowMs) && j < |schema.fields|
    ensures var g := Mapped(req, schema, curId, nowMs);
            var c := CheckAll(schema.fields, SchemaDims(schema.fields), g.fields, g.fmap, req.numRows);
            ColumnReady(ColumnsOf(schema.fields, c.fields, g.fmap)[j], U32(req.numRows))
  {
    var sfs := schema.fields;
    var dims := SchemaDims(sfs);
    var n := U32(req.numRows);
    var g := Mapped(req, schema, curId, nowMs);
    var c := CheckAll(sfs, dims, g.fields, g.fmap, req.numRows);
    MilvusStatus.FactoryCodes("");
    assert req.numRows > 0;
    assert FieldReady(sfs[j], g.fields, g.fmap);
    var idx := g.fmap[sfs[j].name];
    CheckUpToShape(sfs, dims, |sfs|, g.fields, g.fmap, req.numRows, idx);
    if sfs[j].dataType == FloatVector {
      FloatColumnReady(req, schema, curId, nowMs, j);
    } else {
      OtherColumnReady(req, schema, curId, nowMs, j);
    }
    ColumnReadySparse(g.fields[idx], c.fields[idx].sparseDim, n);
    assert ColumnsOf(sfs, c.fields, g.fmap)[j] == c.fields[idx];
  }

  /** After a passed vector check, every schema field's column has num_rows readable rows. */
  lemma CheckedEmittable(req: InsertRequest, schema: CollectionSchema, curId: int, nowMs: nat)
    requires CheckedOk(req, schema, curId, nowMs)
    ensures var g := Mapped(req, schema, curId, nowMs);
            var c := CheckAll(schema.fields, SchemaDims(schema.fields), g.fields, g.fmap, req.numRows);
            Emittable(ColumnsOf(schema.fields, c.fields, g.fmap), U32(req.numRows))
  {
    forall j | 0 <= j < |schema.fields|
      ensures var g := Mapped(req, schema, curId, nowMs);
              var c := CheckAll(schema.fields, SchemaDims(schema.fields), g.fields, g.fmap, req.numRows);
              ColumnReady(ColumnsOf(schema.fields, c.fields, g.fmap)[j], U32(req.numRows))
    {
      CheckedColumnReady(req, schema, curId, nowMs, j);
    }
  }
}
