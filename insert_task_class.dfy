/**
 * The InsertTask object: the steps of an insert as they run, each proved
 * against the functions of module InsertTask that say what the step does.
 */
module InsertTaskClass {
  import opened Wrappers
  import opened Schema
  import MilvusStatus
  import Decimal
  import SchemaUtil
  import opened IT = InsertTask

  /** InsertTask's static row-id counter cur_id_, shared by every insert; it starts at 0. */
  class RowIdCounter {
    var curId: int

    constructor()
      ensures curId == 0
    {
      curId := 0;
    }
  }

  class InsertTask {
    var request: InsertRequest
    const schema: CollectionSchema
    const counter: RowIdCounter
    var numRows: nat
    var fieldMap: map<string, nat>
    var pkType: DType

    /** The task holds the request it extends and the schema; num_rows_ is 0 and the map is empty. */
    constructor(r: InsertRequest, s: CollectionSchema, c: RowIdCounter)
      ensures request == r && schema == s && counter == c
      ensures numRows == 0 && fieldMap == map[] && pkType == NoneType
    {
      request := r;
      schema := s;
      counter := c;
      numRows := 0;
      fieldMap := map[];
      pkType := NoneType;
    }

    /** GetTimestamp: the clock reading (a parameter) shifted by 18 bits, plus the counter. */
    method GetTimestamp(nowMs: nat) returns (ts: int)
      ensures ts == Timestamp(nowMs, counter.curId)
    {
      ts := nowMs * 262144 + counter.curId;
    }

    /** GetTimestamps: size copies of one timestamp. */
    method GetTimestamps(nowMs: nat, size: nat) returns (tss: seq<int>)
      ensures tss == Timestamps(Timestamp(nowMs, counter.curId), size)
    {
      var ts := GetTimestamp(nowMs);
      tss := seq(size, _ => ts);
    }

    /** GetRowIds: row i gets i + cur_id_ + timestamps[i], then the counter advances by the batch size. */
    method GetRowIds(tss: seq<int>) returns (ids: seq<int>)
      modifies counter
      ensures ids == RowIdsOf(old(counter.curId), tss)
      ensures counter.curId == old(counter.curId) + |tss|
    {
      ids := [];
      var i := 0;
      while i < |tss|
        invariant 0 <= i <= |tss| && counter.curId == old(counter.curId)
        invariant |ids| == i && forall j | 0 <= j < i :: ids[j] == j + counter.curId + tss[j]
      {
        ids := ids + [i + counter.curId + tss[i]];
        i := i + 1;
      }
      counter.curId := counter.curId + |tss|;
    }

    /** An Int64 column filled value by value. */
    static method LongColumn(name: string, id: int, vs: seq<int>) returns (fd: FieldData)
      ensures fd == Int64Column(name, id, vs)
    {
      var cells: seq<Cell> := [];
      var i := 0;
      while i < |vs|
        invariant 0 <= i <= |vs| && cells == IntCells(vs[..i])
      {
        cells := cells + [IntCell(vs[i])];
        i := i + 1;
      }
      assert vs[..i] == vs;
      fd := FieldData(Int64, name, id, false, 0, 0, NoneType, cells);
    }

    /**
     * AddSystemField: num_rows_ takes the request's num_rows as a uint32; zero
     * rows fail, otherwise the RowID and Timestamp columns are appended and
     * the counter has advanced by num_rows_.
     */
    method AddSystemField(nowMs: nat) returns (ok: bool)
      modifies this, counter
      ensures numRows == U32(request.numRows) && (ok <==> numRows > 0)
      ensures ok ==> request == old(request).(fieldsData := old(request.fieldsData) + SystemColumns(old(counter.curId), nowMs, numRows))
      ensures !ok ==> request == old(request)
      ensures counter.curId == old(counter.curId) + numRows
      ensures fieldMap == old(fieldMap) && pkType == old(pkType)
    {
      numRows := U32(request.numRows);
      if numRows == 0 {
        return false;
      }
      var tss := GetTimestamps(nowMs, numRows);
      var ids := GetRowIds(tss);
      var rowField := LongColumn(ROW_ID_FIELD_NAME, ROW_ID_FIELD, ids);
      var timeField := LongColumn(TIMESTAMP_FIELD_NAME, TIMESTAMP_FIELD, tss);
      request := request.(fieldsData := request.fieldsData + [rowField, timeField]);
      ok := true;
    }

    /** DynamicFieldId: the id of the first dynamic schema field, by a scan that stops there. */
    static method FindDynamicFieldId(sfs: seq<FieldSchema>) returns (id: int)
      ensures id == DynamicFieldId(sfs)
    {
      id := 0;
      var j := 0;
      while j < |sfs|
        invariant 0 <= j <= |sfs| && DynamicFieldId(sfs) == DynamicFieldId(sfs[j..])
      {
        assert sfs[j..][1..] == sfs[j + 1..];
        if sfs[j].isDynamic {
          id := sfs[j].fieldId;
          return;
        }
        j := j + 1;
      }
    }

    /** The default $meta column: one "{}" per row. */
    static method MetaColumn(schema: CollectionSchema, n: nat) returns (fd: FieldData)
      ensures fd == MetaDefault(schema, n)
    {
      var id := FindDynamicFieldId(schema.fields);
      var cells: seq<Cell> := [];
      while |cells| < n
        invariant |cells| <= n && cells == seq(|cells|, _ => TextCell("{}"))
      {
        cells := cells + [TextCell("{}")];
      }
      fd := FieldData(JSON, META_FIELD_NAME, id, true, 0, 0, NoneType, cells);
    }

    /**
     * CheckDynamicFieldData: with a dynamic schema the first dynamic column is
     * renamed $meta, or the default $meta column is appended; it never fails.
     */
    method CheckDynamicFieldData() returns (ok: bool)
      modifies this
      ensures ok
      ensures request == old(request).(fieldsData := DynamicColumns(schema, old(request.fieldsData), numRows))
      ensures numRows == old(numRows) && fieldMap == old(fieldMap) && pkType == old(pkType)
    {
      ok := true;
      if !schema.enableDynamicField {
        return;
      }
      var fields := request.fieldsData;
      var i := 0;
      while i < |fields|
        invariant 0 <= i <= |fields| && request.fieldsData == fields
        invariant forall j | 0 <= j < i :: !fields[j].isDynamic
      {
        if fields[i].isDynamic {
          request := request.(fieldsData := fields[i := fields[i].(fieldName := META_FIELD_NAME)]);
          return;
        }
        i := i + 1;
      }
      var dyField := MetaColumn(schema, numRows);
      request := request.(fieldsData := fields + [dyField]);
    }

    /** The primary-key column built for an auto-id key from n row ids: decimal text for VarChar, the ids otherwise. */
    static method BuildPkColumn(f: FieldSchema, rowCol: FieldData, n: nat) returns (pk: FieldData)
      requires n <= |rowCol.cells| && forall i | 0 <= i < n :: rowCol.cells[i].IntCell?
      ensures pk == PkColumn(f, LongValues(rowCol, n))
    {
      ghost var ids := LongValues(rowCol, n);
      var cells: seq<Cell> := [];
      var i := 0;
      while i < n
        invariant 0 <= i <= n
        invariant cells == if f.dataType == VarChar then TextCells(ids[..i]) else IntCells(ids[..i])
      {
        var id := rowCol.cells[i].i;
        if f.dataType == VarChar {
          cells := cells + [TextCell(Decimal.ToString(id))];
        } else {
          cells := cells + [IntCell(id)];
        }
        i := i + 1;
      }
      assert ids[..i] == ids;
      pk := FieldData(f.dataType, f.name, f.fieldId, false, 0, 0, NoneType, cells);
    }

    /**
     * GenFieldMap: every column's name is mapped to its first position, then
     * every schema field must have a column, a missing auto-id primary key
     * getting one made from the row ids read back through RowID.
     */
    method GenFieldMap() returns (ok: bool)
      requires fieldMap == map[] && RowIdsReadable(request.fieldsData, numRows)
      modifies this
      ensures numRows == old(numRows) && pkType == old(pkType)
      ensures var sfs := schema.fields;
              var g := GenUpTo(sfs, |sfs|, old(request.fieldsData), PkColumns(sfs, RowIdsIn(old(request.fieldsData), numRows)));
              ok == g.ok && (ok ==> request.fieldsData == g.fields && fieldMap == g.fmap)
      ensures request == old(request).(fieldsData := request.fieldsData)
    {
      var fields0 := request.fieldsData;
      var m := NameMapOf(fields0);
      var g := GenSchemaLoop(schema.fields, fields0, m, numRows);
      fieldMap := g.fmap;
      request := request.(fieldsData := g.fields);
      ok := g.ok;
    }

    /** The emplace loop of GenFieldMap: each column's name is mapped to the position of its first column. */
    static method NameMapOf(fields: seq<FieldData>) returns (m: map<string, nat>)
      ensures m == NameMap(fields)
    {
      m := map[];
      var i := 0;
      while i < |fields|
        invariant 0 <= i <= |fields| && m == NameMap(fields[..i])
      {
        assert fields[..i + 1][..i] == fields[..i];
        var name := fields[i].fieldName;
        if name !in m {
          m := m[name := i];
        }
        i := i + 1;
      }
      assert fields[..i] == fields;
    }

    /** The schema loop of GenFieldMap over the columns and the name map, stopping at a missing field. */
    static method GenSchemaLoop(sfs: seq<FieldSchema>, fields0: seq<FieldData>, m0: map<string, nat>, n: nat) returns (g: Gen)
      requires m0 == NameMap(fields0) && RowIdsReadable(fields0, n)
      ensures g == GenUpTo(sfs, |sfs|, fields0, PkColumns(sfs, RowIdsIn(fields0, n)))
    {
      var r0 := m0[ROW_ID_FIELD_NAME];
      g := GenLoop(sfs, fields0, m0, r0, n, PkColumns(sfs, RowIdsIn(fields0, n)));
    }

    static method GenLoop(sfs: seq<FieldSchema>, fields0: seq<FieldData>, m0: map<string, nat>, r0: nat, n: nat, ghost pks: seq<FieldData>)
      returns (g: Gen)
      requires m0 == NameMap(fields0) && r0 < |fields0|
      requires n <= |fields0[r0].cells| && forall i | 0 <= i < n :: fields0[r0].cells[i].IntCell?
      requires pks == PkColumns(sfs, LongValues(fields0[r0], n))
      ensures g == GenUpTo(sfs, |sfs|, fields0, pks)
    {
      var acc := Gen(true, fields0, m0);
      var k := 0;
      while k < |sfs| && acc.ok
        invariant 0 <= k <= |sfs|
        invariant GenUpTo(sfs, k, fields0, pks) == acc
        invariant r0 < |acc.fields| && acc.fields[r0] == fields0[r0]
      {
        acc := GenOne(sfs[k], fields0[r0], n, r0, acc, pks[k]);
        k := k + 1;
      }
      if k < |sfs| {
        GenFailedStays(sfs, k, |sfs|, fields0, pks);
      }
      g := acc;
    }

    /** One turn of GenFieldMap's schema loop, the row-id column sitting at r0. */
    static method GenOne(f: FieldSchema, rowCol: FieldData, n: nat, r0: nat, prev: Gen, ghost pk: FieldData) returns (g: Gen)
      requires prev.ok && r0 < |prev.fields| && prev.fields[r0] == rowCol
      requires n <= |rowCol.cells| && forall i | 0 <= i < n :: rowCol.cells[i].IntCell?
      requires pk == PkColumn(f, LongValues(rowCol, n))
      ensures g == GenNext(f, pk, prev)
      ensures r0 < |g.fields| && g.fields[r0] == rowCol
    {
      if f.name in prev.fmap {
        return prev;
      }
      if f.isPrimaryKey && f.autoId {
        var pkField := BuildPkColumn(f, rowCol, n);
        return Gen(true, prev.fields + [pkField], prev.fmap[f.name := |prev.fields|]);
      }
      return Gen(false, prev.fields, prev.fmap);
    }

    /** One more than the largest key of a sparse row, entry by entry. */
    static method RowDimOf(es: seq<SparseEntry>) returns (d: nat)
      ensures d == RowDim(es)
    {
      d := 0;
      var p := 0;
      while p < |es|
        invariant 0 <= p <= |es| && d == RowDim(es[..p])
      {
        assert es[..p + 1][..p] == es[..p];
        d := Max(d, U32(es[p].key) + 1);
        p := p + 1;
      }
      assert es[..p] == es;
    }

    /** The dim of a sparse column over all of its rows. */
    static method SparseDimOf(rows: seq<Cell>) returns (d: nat)
      ensures d == SparseDim(rows)
    {
      d := 0;
      var i := 0;
      while i < |rows|
        invariant 0 <= i <= |rows| && d == SparseDim(rows[..i])
      {
        assert rows[..i + 1][..i] == rows[..i];
        var rd := RowDimOf(SparseEntries(rows[i]));
        d := Max(d, rd);
        i := i + 1;
      }
      assert rows[..i] == rows;
    }

    /**
     * CheckOrSetVectorDim: num_rows must be positive; each FloatVector field's
     * column must hold num_rows vectors of the schema's dim; each sparse
     * field's column gets its dim set.
     */
    method CheckOrSetVectorDim() returns (s: MilvusStatus.Status)
      requires CheckReady(schema.fields, SchemaDims(schema.fields), request.fieldsData, fieldMap)
      modifies this
      ensures numRows == old(numRows) && fieldMap == old(fieldMap) && pkType == old(pkType)
      ensures Checked(s, request.fieldsData) ==
              CheckAll(schema.fields, SchemaDims(schema.fields), old(request.fieldsData), fieldMap, request.numRows)
      ensures request == old(request).(fieldsData := request.fieldsData)
    {
      var numRowsReq := request.numRows;
      if numRowsReq <= 0 {
        return MilvusStatus.ParameterInvalid("");
      }
      var c := CheckFields(schema.fields, request.fieldsData, fieldMap, numRowsReq);
      request := request.(fieldsData := c.fields);
      s := c.status;
    }

    /** The loop of CheckOrSetVectorDim over the schema fields, stopping at the first failed check. */
    static method CheckFields(sfs: seq<FieldSchema>, fields0: seq<FieldData>, fmap: map<string, nat>, numRowsReq: int)
      returns (c: Checked)
      requires CheckReady(sfs, SchemaDims(sfs), fields0, fmap)
      ensures c == CheckUpTo(sfs, SchemaDims(sfs), |sfs|, fields0, fmap, numRowsReq)
    {
      var acc := Checked(MilvusStatus.Ok(), fields0);
      var k := 0;
      while k < |sfs| && acc.status == MilvusStatus.Ok()
        invariant 0 <= k <= |sfs|
        invariant CheckUpTo(sfs, SchemaDims(sfs), k, fields0, fmap, numRowsReq) == acc
      {
        acc := CheckNext(sfs, k, fields0, acc.fields, fmap, numRowsReq);
        k := k + 1;
      }
      if k < |sfs| {
        CheckFailedStays(sfs, SchemaDims(sfs), k, |sfs|, fields0, fmap, numRowsReq);
      }
      c := acc;
    }

    /** Schema field k's turn after k checks that passed. */
    static method CheckNext(sfs: seq<FieldSchema>, k: nat, fields0: seq<FieldData>, fields: seq<FieldData>, fmap: map<string, nat>, numRowsReq: int)
      returns (next: Checked)
      requires k < |sfs| && CheckReady(sfs, SchemaDims(sfs), fields0, fmap)
      requires CheckUpTo(sfs, SchemaDims(sfs), k, fields0, fmap, numRowsReq) == Checked(MilvusStatus.Ok(), fields)
      ensures next == CheckUpTo(sfs, SchemaDims(sfs), k + 1, fields0, fmap, numRowsReq)
    {
      assert FieldReady(sfs[k], fields0, fmap);
      CheckUpToShape(sfs, SchemaDims(sfs), k, fields0, fmap, numRowsReq, fmap[sfs[k].name]);
      next := CheckOne(sfs[k], fields0, fields, fmap, numRowsReq);
      CheckUpToStep(sfs, k, fields0, fields, fmap, numRowsReq);
    }

    /** One turn of CheckOrSetVectorDim's loop: the float check, or the sparse dim set on the column. */
    static method CheckOne(sf: FieldSchema, ghost fields0: seq<FieldData>, fields: seq<FieldData>, fmap: map<string, nat>, numRowsReq: int)
      returns (c: Checked)
      requires FieldReady(sf, fields0, fmap) && |fields| == |fields0|
      requires fields[fmap[sf.name]] == fields0[fmap[sf.name]].(sparseDim := fields[fmap[sf.name]].sparseDim)
      ensures c == CheckField(sf, SchemaUtil.GetDim(sf), fields0, fields, fmap, numRowsReq)
    {
      var idx := fmap[sf.name];
      var fieldData := fields[idx];
      c := Checked(MilvusStatus.Ok(), fields);
      if sf.dataType == FloatVector {
        var dim := SchemaUtil.GetDim(sf);
        if dim <= 0 {
          return Checked(MilvusStatus.ParameterInvalid(""), fields);
        }
        var vectSize := if fieldData.dtype == FloatVector then |fieldData.cells| else 0;
        if vectSize % dim != 0 {
          return Checked(MilvusStatus.Undefined(""), fields);
        }
        var vecRows := vectSize / fieldData.dim;
        if vecRows != numRowsReq {
          return Checked(MilvusStatus.ParameterInvalid(""), fields);
        }
      } else if sf.dataType == SparseFloatVector && |fieldData.cells| > 0 {
        var d := SparseDimOf(fieldData.cells);
        c := Checked(MilvusStatus.Ok(), fields[idx := fieldData.(sparseDim := d)]);
      }
    }

    /** The record of row i: row i of every schema field's column under the field's header, and the key text. */
    static method BuildRecord(sfs: seq<FieldSchema>, cols: seq<FieldData>, n: nat, i: nat, pkName: string) returns (r: Rec)
      requires |sfs| == |cols| && i < n && Emittable(cols, n)
      ensures r == RecordUpTo(sfs, cols, RowPicks(sfs, cols, n, i), |sfs|, pkName)
    {
      ghost var picks := RowPicks(sfs, cols, n, i);
      var acc := Rec(true, [], "");
      var k := 0;
      while k < |sfs| && acc.ok
        invariant 0 <= k <= |sfs|
        invariant RecordUpTo(sfs, cols, picks, k, pkName) == acc
      {
        RowPickAt(sfs, cols, n, i, k);
        acc := RecordNext(sfs[k], cols[k], i, pkName, acc, picks[k]);
        k := k + 1;
      }
      if k < |sfs| {
        RecordFailedStays(sfs, cols, picks, k, |sfs|, pkName);
      }
      r := acc;
    }

    /** One schema field's column sliced to row i and added to the record; a column without data stops it. */
    static method RecordNext(sf: FieldSchema, col: FieldData, i: nat, pkName: string, prev: Rec, ghost pick: FieldData) returns (r: Rec)
      requires SchemaUtil.WellFormedDim(col) && SchemaUtil.RowReadable(col, i)
      requires pick == RecordField(sf, col, i)
      ensures r == if col.dtype == NoneType then Rec(false, prev.fieldsData, prev.pk)
                   else Rec(true, prev.fieldsData + [pick], if sf.name == pkName then PkText(sf.dataType, pick) else prev.pk)
    {
      SchemaUtil.SliceIndexesSingle(i, 1);
      assert SchemaUtil.Range(i, i + 1) == [i];
      var ok, fieldData := SchemaUtil.SliceFieldData(col, [(i, 1)], EmptyField(sf.dataType, sf.name, sf.fieldId, false));
      if !ok {
        return Rec(false, prev.fieldsData, prev.pk);
      }
      var pk := prev.pk;
      if sf.name == pkName {
        pk := PkText(sf.dataType, fieldData);
      }
      r := Rec(true, prev.fieldsData + [fieldData], pk);
    }

    /** The row loop of Process: one single-row record per row, stopping at the first record that cannot be built. */
    static method EmitRows(sfs: seq<FieldSchema>, cols: seq<FieldData>, n: nat, pkName: string) returns (e: Emitted)
      requires |sfs| == |cols| && Emittable(cols, n)
      ensures e == RowsUpTo(sfs, cols, n, n, pkName)
    {
      var rows: seq<Row> := [];
      var i := 0;
      while i < n
        invariant 0 <= i <= n
        invariant RowsUpTo(sfs, cols, n, i, pkName) == Emitted(MilvusStatus.Ok(), rows)
      {
        var r := BuildRecord(sfs, cols, n, i, pkName);
        if !r.ok {
          RowsFailedStays(sfs, cols, n, i + 1, n, pkName);
          return Emitted(MilvusStatus.FieldNotFound(""), rows);
        }
        rows := rows + [Row(r.pk, InsertRecord(1, r.fieldsData))];
        i := i + 1;
      }
      e := Emitted(MilvusStatus.Ok(), rows);
    }

    /**
     * Process: the system columns, the $meta column and the name map (any
     * failing gives ParameterInvalid), the vector check, the primary key
     * name, then one record per row; the outcome is ProcessSpec of the
     * request as it came, the counter before the call and the clock.
     */
    method Process(nowMs: nat) returns (s: MilvusStatus.Status, rows: seq<Row>)
      requires ProcessReady(request, schema) && fieldMap == map[]
      modifies this, counter
      ensures Emitted(s, rows) == ProcessSpec(old(request), schema, old(counter.curId), nowMs)
      ensures counter.curId == old(counter.curId) + U32(old(request).numRows)
    {
      ghost var req := old(request);
      ghost var curId := counter.curId;
      var ok := AddSystemField(nowMs);
      if !ok {
        return MilvusStatus.ParameterInvalid(""), [];
      }
      ok := CheckDynamicFieldData();
      assert request.fieldsData == Prepared(req, schema, curId, nowMs);
      PreparedRowIds(req, schema, curId, nowMs);
      assert RowIdsIn(request.fieldsData, numRows) == KeyIds(req, schema, curId, nowMs);
      ok := GenFieldMap();
      if !ok {
        return MilvusStatus.ParameterInvalid(""), [];
      }
      MappedReady(req, schema, curId, nowMs);
      ghost var g := Mapped(req, schema, curId, nowMs);
      s := CheckOrSetVectorDim();
      CheckAllStatus(schema.fields, SchemaDims(schema.fields), g.fields, g.fmap, req.numRows);
      if !s.IsOk() {
        return s, [];
      }
      var pkName := SchemaUtil.GetPkName(schema);
      if pkName.None? {
        return MilvusStatus.ParameterInvalid(""), [];
      }
      assert pkName.value in fieldMap;
      pkType := request.fieldsData[fieldMap[pkName.value]].dtype;
      CheckedEmittable(req, schema, curId, nowMs);
      var e := EmitRows(schema.fields, ColumnsOf(schema.fields, request.fieldsData, fieldMap), numRows, pkName.value);
      s, rows := e.status, e.rows;
    }
  }
}
