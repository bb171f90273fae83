// The upsert task: an upsert becomes a delete of the primary keys it carries
// followed by an insert of the same rows.
module UpsertTask {
  import opened Wrappers
  import opened Schema
  import MilvusStatus
  import MilvusIds
  import InsertTask

  /** milvus.UpsertRequest (the MsgBase header is not modelled). */
  datatype UpsertRequest = UpsertRequest(
    dbName: string,
    collectionName: string,
    partitionName: string,
    fieldsData: seq<FieldData>,
    hashKeys: seq<int>,
    numRows: int)

  /** An InsertRequest nobody has written to yet. */
  const EMPTY_INSERT: InsertTask.InsertRequest := InsertTask.InsertRequest("", "", "", [], [], 0)

  /** The long_data payload of a column: its int64 cells, in order. */
  function LongData(cells: seq<Cell>): (vs: seq<int>)
    ensures |vs| <= |cells|
    decreases |cells|
  {
    if |cells| == 0 then []
    else (if cells[0].IntCell? then [cells[0].i] else []) + LongData(cells[1..])
  }

  /** The string_data payload of a column: its string cells, in order. */
  function StringData(cells: seq<Cell>): (vs: seq<string>)
    ensures |vs| <= |cells|
    decreases |cells|
  {
    if |cells| == 0 then []
    else (if cells[0].TextCell? then [cells[0].s] else []) + StringData(cells[1..])
  }

  /** A column holding only int64 cells yields all of them as its long_data. */
  lemma {:induction false} LongDataAll(cells: seq<Cell>)
    requires forall i | 0 <= i < |cells| :: cells[i].IntCell?
    ensures |LongData(cells)| == |cells| && forall i | 0 <= i < |cells| :: LongData(cells)[i] == cells[i].i
    decreases |cells|
  {
    if |cells| > 0 {
      LongDataAll(cells[1..]);
    }
  }

  /** Position of the first field marked primary key. */
  function FirstPrimary(sfs: seq<FieldSchema>): (r: Option<nat>)
    ensures r.Some? ==> r.value < |sfs| && sfs[r.value].isPrimaryKey && forall j | 0 <= j < r.value :: !sfs[j].isPrimaryKey
    ensures r.None? ==> forall j | 0 <= j < |sfs| :: !sfs[j].isPrimaryKey
    decreases |sfs|
  {
    if |sfs| == 0 then None
    else if sfs[0].isPrimaryKey then Some(0)
    else
      var r := FirstPrimary(sfs[1..]);
      if r.None? then None else Some(r.value + 1)
  }

  /** Position of the first column called name. */
  function FirstColumn(fields: seq<FieldData>, name: string): (r: Option<nat>)
    ensures r.Some? ==> r.value < |fields| && fields[r.value].fieldName == name &&
                        forall j | 0 <= j < r.value :: fields[j].fieldName != name
    ensures r.None? ==> forall j | 0 <= j < |fields| :: fields[j].fieldName != name
    decreases |fields|
  {
    if |fields| == 0 then None
    else if fields[0].fieldName == name then Some(0)
    else
      var r := FirstColumn(fields[1..], name);
      if r.None? then None else Some(r.value + 1)
  }

  /** The ids a key column is copied into: int ids for Int64, string ids for VarChar, nothing for another type. */
  function KeyIds(col: FieldData): Option<MilvusIds.IDs>
  {
    if col.dtype == Int64 then Some(MilvusIds.IntId(LongData(col.cells)))
    else if col.dtype == VarChar then Some(MilvusIds.StrId(StringData(col.cells)))
    else None
  }

  /** The insert request an upsert becomes: the same collection, columns, hash keys and row count. */
  function AsInsert(u: UpsertRequest): InsertTask.InsertRequest
  {
    InsertTask.InsertRequest(u.dbName, u.collectionName, u.partitionName, u.fieldsData, u.hashKeys, u.numRows)
  }

  /** The outcome of Process: its status, the insert request and the delete ids it wrote. */
  datatype Split = Split(status: MilvusStatus.Status, insert: InsertTask.InsertRequest, deleteIds: MilvusIds.IDs)

  /**
   * What Process does: no primary key is an internal error; the first column
   * named like the key gives the delete ids (a column of another type than
   * Int64 or VarChar is rejected before the insert request is written);
   * without such a column the delete ids stay empty.
   */
  function ProcessSpec(u: UpsertRequest, schema: CollectionSchema): Split
  {
    var pk := FirstPrimary(schema.fields);
    if pk.None? then Split(MilvusStatus.ServiceInternal(""), EMPTY_INSERT, MilvusIds.NoId)
    else
      var c := FirstColumn(u.fieldsData, schema.fields[pk.value].name);
      if c.None? then Split(MilvusStatus.Ok(), AsInsert(u), MilvusIds.NoId)
      else
        var ids := KeyIds(u.fieldsData[c.value]);
        if ids.None? then Split(MilvusStatus.ParameterInvalid(""), EMPTY_INSERT, MilvusIds.NoId)
        else Split(MilvusStatus.Ok(), AsInsert(u), ids.value)
  }

  /**
   * UpsertTask::Process, writing into an empty insert request and empty
   * delete ids: a find-first over the schema for the primary key, then a
   * find-first over the columns for its data.
   */
  method Process(u: UpsertRequest, schema: CollectionSchema)
    returns (s: MilvusStatus.Status, insertQ: InsertTask.InsertRequest, deleteIds: MilvusIds.IDs)
    ensures Split(s, insertQ, deleteIds) == ProcessSpec(u, schema)
  {
    insertQ, deleteIds := EMPTY_INSERT, MilvusIds.NoId;
    var primary: Option<FieldSchema> := None;
    var j := 0;
    while j < |schema.fields|
      invariant 0 <= j <= |schema.fields|
      invariant forall i | 0 <= i < j :: !schema.fields[i].isPrimaryKey
    {
      if schema.fields[j].isPrimaryKey {
        primary := Some(schema.fields[j]);
        break;
      }
      j := j + 1;
    }
    if primary.None? {
      return MilvusStatus.ServiceInternal(""), insertQ, deleteIds;
    }
    assert FirstPrimary(schema.fields) == Some(j);
    var k := 0;
    while k < |u.fieldsData|
      invariant 0 <= k <= |u.fieldsData|
      invariant forall i | 0 <= i < k :: u.fieldsData[i].fieldName != primary.value.name
    {
      var fd := u.fieldsData[k];
      if fd.fieldName == primary.value.name {
        if fd.dtype == Int64 {
          deleteIds := MilvusIds.IntId(LongData(fd.cells));
        } else if fd.dtype == VarChar {
          deleteIds := MilvusIds.StrId(StringData(fd.cells));
        } else {
          return MilvusStatus.ParameterInvalid(""), insertQ, deleteIds;
        }
        break;
      }
      k := k + 1;
    }
    insertQ := AsInsert(u);
    s := MilvusStatus.Ok();
  }

  /** A schema without a primary key gives ServiceInternal and writes nothing. */
  lemma NoPrimaryKey(u: UpsertRequest, schema: CollectionSchema)
    requires forall j | 0 <= j < |schema.fields| :: !schema.fields[j].isPrimaryKey
    ensures ProcessSpec(u, schema).status.code == 5
    ensures ProcessSpec(u, schema).deleteIds == MilvusIds.NoId
  {
  }

  /**
   * With a primary key and a column of its name holding only int64 cells, the
   * delete ids are exactly that column's values, and the insert request
   * carries the upsert's collection, columns, hash keys and row count.
   */
  lemma Int64KeyDeletes(u: UpsertRequest, schema: CollectionSchema, p: nat, c: nat)
    requires p < |schema.fields| && schema.fields[p].isPrimaryKey && forall j | 0 <= j < p :: !schema.fields[j].isPrimaryKey
    requires c < |u.fieldsData| && u.fieldsData[c].fieldName == schema.fields[p].name && u.fieldsData[c].dtype == Int64
    requires forall i | 0 <= i < c :: u.fieldsData[i].fieldName != schema.fields[p].name
    requires forall i | 0 <= i < |u.fieldsData[c].cells| :: u.fieldsData[c].cells[i].IntCell?
    ensures var r := ProcessSpec(u, schema);
            r.status.IsOk() && r.deleteIds.IntId? && |r.deleteIds.ints| == |u.fieldsData[c].cells| &&
            (forall i | 0 <= i < |r.deleteIds.ints| :: r.deleteIds.ints[i] == u.fieldsData[c].cells[i].i) &&
            r.insert.collectionName == u.collectionName && r.insert.fieldsData == u.fieldsData &&
            r.insert.hashKeys == u.hashKeys && r.insert.numRows == u.numRows
  {
    FirstPrimaryAt(schema.fields, p);
    FirstColumnAt(u.fieldsData, schema.fields[p].name, c);
    LongDataAll(u.fieldsData[c].cells);
  }

  /** A key column of VarChar type gives string delete ids; any type other than Int64 or VarChar gives ParameterInvalid. */
  lemma KeyTypeDecides(u: UpsertRequest, schema: CollectionSchema, p: nat, c: nat)
    requires p < |schema.fields| && schema.fields[p].isPrimaryKey && forall j | 0 <= j < p :: !schema.fields[j].isPrimaryKey
    requires c < |u.fieldsData| && u.fieldsData[c].fieldName == schema.fields[p].name
    requires forall i | 0 <= i < c :: u.fieldsData[i].fieldName != schema.fields[p].name
    ensures var r := ProcessSpec(u, schema);
            var t := u.fieldsData[c].dtype;
            (t == VarChar ==> r.status.IsOk() && r.deleteIds == MilvusIds.StrId(StringData(u.fieldsData[c].cells))) &&
            (t != VarChar && t != Int64 ==> r.status.code == 1100 && r.insert == EMPTY_INSERT)
  {
    FirstPrimaryAt(schema.fields, p);
    FirstColumnAt(u.fieldsData, schema.fields[p].name, c);
  }

  /** Without a column named like the key, the delete ids stay empty and the insert still goes ahead. */
  lemma NoKeyColumn(u: UpsertRequest, schema: CollectionSchema, p: nat)
    requires p < |schema.fields| && schema.fields[p].isPrimaryKey
    requires forall i | 0 <= i < |u.fieldsData| :: u.fieldsData[i].fieldName != schema.fields[p].name
    requires forall j | 0 <= j < p :: !schema.fields[j].isPrimaryKey
    ensures ProcessSpec(u, schema) == Split(MilvusStatus.Ok(), AsInsert(u), MilvusIds.NoId)
  {
    FirstPrimaryAt(schema.fields, p);
  }

  lemma FirstPrimaryAt(sfs: seq<FieldSchema>, p: nat)
    requires p < |sfs| && sfs[p].isPrimaryKey && forall j | 0 <= j < p :: !sfs[j].isPrimaryKey
    ensures FirstPrimary(sfs) == Some(p)
  {
  }

  lemma FirstColumnAt(fields: seq<FieldData>, name: string, c: nat)
    requires c < |fields| && fields[c].fieldName == name && forall i | 0 <= i < c :: fields[i].fieldName != name
    ensures FirstColumn(fields, name) == Some(c)
  {
  }
}
