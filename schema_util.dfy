// schema_util: lookups on a collection schema and the column operations the
// tasks use to slice, pick and de-duplicate result data.
module SchemaUtil {
  import opened Schema
  import opened Wrappers
  import Lex
  import StringUtil
  import Decimal
  import MilvusStatus
  import MilvusIds

  predicate IsDenseVector(t: DType)
  {
    t == FloatVector || t == BinaryVector || t == Float16Vector || t == BFloat16Vector
  }

  /** IsVectorField: the four dense vector types and the sparse one. */
  predicate IsVectorField(t: DType)
  {
    IsDenseVector(t) || t == SparseFloatVector
  }

  predicate IsSparseVectorType(t: DType) { t == SparseFloatVector }

  /** plan.VectorType. */
  datatype VectorType = BinaryVectorType | FloatVectorType | Float16VectorType | BFloat16VectorType | SparseFloatVectorType

  /** DataTypeToVectorType: defined exactly on the vector types, one plan type for each. */
  function DataTypeToVectorType(t: DType): (r: Option<VectorType>)
    ensures r.Some? <==> IsVectorField(t)
    ensures r == Some(FloatVectorType) <==> t == FloatVector
    ensures r == Some(SparseFloatVectorType) <==> t == SparseFloatVector
  {
    match t
    case FloatVector => Some(FloatVectorType)
    case BinaryVector => Some(BinaryVectorType)
    case Float16Vector => Some(Float16VectorType)
    case BFloat16Vector => Some(BFloat16VectorType)
    case SparseFloatVector => Some(SparseFloatVectorType)
    case _ => None
  }

  /** Distinct vector types map to distinct plan vector types. */
  lemma DataTypeToVectorTypeInjective(a: DType, b: DType)
    requires IsVectorField(a) && IsVectorField(b) && DataTypeToVectorType(a) == DataTypeToVectorType(b)
    ensures a == b
  {
  }

  // ---------------------------------------------------------------------------
  // Key-value parameter lists

  /** `v` is the value of the first pair in kvs whose key is `key`. */
  predicate IsFirstValue(kvs: seq<KV>, key: string, v: string)
  {
    exists i | 0 <= i < |kvs| :: kvs[i].key == key && kvs[i].value == v
      && forall j | 0 <= j < i :: kvs[j].key != key
  }

  predicate HasKey(kvs: seq<KV>, key: string)
  {
    exists i | 0 <= i < |kvs| :: kvs[i].key == key
  }

  /** The find-first loop over a parameter list. */
  function FirstValue(kvs: seq<KV>, key: string): (r: Option<string>)
    ensures r.None? <==> !HasKey(kvs, key)
    ensures r.Some? ==> IsFirstValue(kvs, key, r.value)
    decreases |kvs|
  {
    if |kvs| == 0 then None
    else if kvs[0].key == key then Some(kvs[0].value)
    else
      FirstValueShift(kvs, key);
      FirstValue(kvs[1..], key)
  }

  lemma FirstValueShift(kvs: seq<KV>, key: string)
    requires |kvs| > 0 && kvs[0].key != key
    ensures HasKey(kvs, key) <==> HasKey(kvs[1..], key)
    ensures forall v :: IsFirstValue(kvs[1..], key, v) ==> IsFirstValue(kvs, key, v)
  {
    forall v | IsFirstValue(kvs[1..], key, v) ensures IsFirstValue(kvs, key, v) {
      var i :| 0 <= i < |kvs[1..]| && kvs[1..][i].key == key && kvs[1..][i].value == v
        && forall j | 0 <= j < i :: kvs[1..][j].key != key;
      assert kvs[i + 1].key == key && kvs[i + 1].value == v;
      forall j | 0 <= j < i + 1 ensures kvs[j].key != key {
        if j > 0 { assert kvs[j] == kvs[1..][j - 1]; }
      }
    }
    if HasKey(kvs, key) {
      var i :| 0 <= i < |kvs| && kvs[i].key == key;
      assert kvs[1..][i - 1] == kvs[i];
    }
  }

  /** The first value of a key is unique: whichever index witnesses it, the value is the same. */
  lemma FirstValueUnique(kvs: seq<KV>, key: string, v: string, w: string)
    requires IsFirstValue(kvs, key, v) && IsFirstValue(kvs, key, w)
    ensures v == w
  {
    var i :| 0 <= i < |kvs| && kvs[i].key == key && kvs[i].value == v && forall j | 0 <= j < i :: kvs[j].key != key;
    var k :| 0 <= k < |kvs| && kvs[k].key == key && kvs[k].value == w && forall j | 0 <= j < k :: kvs[j].key != key;
    assert !(i < k) && !(k < i);
  }

  /** The value of the last parameter with this key. */
  function LastValue(kvs: seq<KV>, key: string): Option<string>
    decreases |kvs|
  {
    if |kvs| == 0 then None
    else if kvs[|kvs| - 1].key == key then Some(kvs[|kvs| - 1].value)
    else LastValue(kvs[..|kvs| - 1], key)
  }

  /** LastValue is None exactly when no parameter has the key, and otherwise the value of the last one that does. */
  lemma {:induction false} LastValueIsLast(kvs: seq<KV>, key: string)
    ensures LastValue(kvs, key).None? <==> forall i | 0 <= i < |kvs| :: kvs[i].key != key
    ensures LastValue(kvs, key).Some? ==>
              exists i | 0 <= i < |kvs| :: kvs[i] == KV(key, LastValue(kvs, key).value) && forall j | i < j < |kvs| :: kvs[j].key != key
  {
    LastValueNone(kvs, key);
    if LastValue(kvs, key).Some? {
      var i := LastValueWitness(kvs, key);
    }
  }

  lemma {:induction false} LastValueNone(kvs: seq<KV>, key: string)
    ensures LastValue(kvs, key).None? <==> forall i | 0 <= i < |kvs| :: kvs[i].key != key
    decreases |kvs|
  {
    if |kvs| > 0 && kvs[|kvs| - 1].key != key {
      var pre := kvs[..|kvs| - 1];
      LastValueNone(pre, key);
      assert forall i | 0 <= i < |pre| :: pre[i] == kvs[i];
    }
  }

  lemma {:induction false} LastValueWitness(kvs: seq<KV>, key: string) returns (i: nat)
    requires LastValue(kvs, key).Some?
    ensures i < |kvs| && kvs[i] == KV(key, LastValue(kvs, key).value)
    ensures forall j | i < j < |kvs| :: kvs[j].key != key
    decreases |kvs|
  {
    var n := |kvs| - 1;
    if kvs[n].key == key {
      i := n;
    } else {
      var pre := kvs[..n];
      i := LastValueWitness(pre, key);
      assert pre[i] == kvs[i];
    }
  }

  /** The text a string key ends with: its last value, or the initial one. */
  function TextOr(kvs: seq<KV>, key: string, dflt: string): string
  {
    match LastValue(kvs, key) case Some(v) => v case None => dflt
  }

  /** The number a number key ends with: stoll of its last value, or the initial one. */
  function NumberOr(kvs: seq<KV>, key: string, dflt: int): int
  {
    match LastValue(kvs, key)
    case Some(v) => (match Decimal.Stoll(v) case Parsed(n) => n case _ => dflt)
    case None => dflt
  }

  /** A parameter with another key leaves a key's last value as it was. */
  lemma LastValueOther(kvs: seq<KV>, key: string)
    requires |kvs| > 0 && kvs[|kvs| - 1].key != key
    ensures LastValue(kvs, key) == LastValue(kvs[..|kvs| - 1], key)
  {
  }

  /** A KVMap filled from a list with `map[key] = value`: later pairs overwrite earlier ones. */
  function KVMapOf(kvs: seq<KV>): (m: map<string, string>)
    ensures forall k :: k in m <==> HasKey(kvs, k)
    decreases |kvs|
  {
    if |kvs| == 0 then map[]
    else
      var m := KVMapOf(kvs[..|kvs| - 1]);
      assert forall k :: HasKey(kvs, k) <==> HasKey(kvs[..|kvs| - 1], k) || kvs[|kvs| - 1].key == k by {
        forall k ensures HasKey(kvs, k) <==> HasKey(kvs[..|kvs| - 1], k) || kvs[|kvs| - 1].key == k {
          if HasKey(kvs, k) {
            var i :| 0 <= i < |kvs| && kvs[i].key == k;
            if i < |kvs| - 1 { assert kvs[..|kvs| - 1][i] == kvs[i]; }
          }
          if HasKey(kvs[..|kvs| - 1], k) {
            var i :| 0 <= i < |kvs| - 1 && kvs[..|kvs| - 1][i].key == k;
            assert kvs[i].key == k;
          }
        }
      }
      m[kvs[|kvs| - 1].key := kvs[|kvs| - 1].value]
  }

  /** The map holds, for each key, the value of the LAST pair with that key. */
  lemma {:induction false} KVMapOfLast(kvs: seq<KV>, i: int)
    requires 0 <= i < |kvs|
    requires forall j | i < j < |kvs| :: kvs[j].key != kvs[i].key
    ensures kvs[i].key in KVMapOf(kvs) && KVMapOf(kvs)[kvs[i].key] == kvs[i].value
    decreases |kvs|
  {
    if i < |kvs| - 1 {
      var pre := kvs[..|kvs| - 1];
      assert pre[i] == kvs[i];
      forall j | i < j < |pre| ensures pre[j].key != pre[i].key {
        assert pre[j] == kvs[j];
      }
      KVMapOfLast(pre, i);
    }
  }

  /**
   * CheckParamsEqual: equal sizes, and every left pair's key maps to the same
   * value in the map built from the right list.
   */
  predicate CheckParamsEqual(left: seq<KV>, right: seq<KV>)
  {
    var rm := KVMapOf(right);
    |left| == |right| && forall i | 0 <= i < |left| :: left[i].key in rm && rm[left[i].key] == left[i].value
  }

  predicate DistinctKeys(kvs: seq<KV>)
  {
    forall i, j | 0 <= i < j < |kvs| :: kvs[i].key != kvs[j].key
  }

  /** A parameter list with distinct keys is equal to itself. */
  lemma CheckParamsEqualReflexive(kvs: seq<KV>)
    requires DistinctKeys(kvs)
    ensures CheckParamsEqual(kvs, kvs)
  {
    forall i | 0 <= i < |kvs| ensures kvs[i].key in KVMapOf(kvs) && KVMapOf(kvs)[kvs[i].key] == kvs[i].value {
      KVMapOfLast(kvs, i);
    }
  }

  /** With a repeated key holding two values, a list is not equal to itself. */
  lemma CheckParamsEqualDuplicateKey()
    ensures !CheckParamsEqual([KV("k", "1"), KV("k", "2")], [KV("k", "1"), KV("k", "2")])
  {
    var kvs := [KV("k", "1"), KV("k", "2")];
    KVMapOfLast(kvs, 1);
    assert kvs[0].key in KVMapOf(kvs) && KVMapOf(kvs)[kvs[0].key] != kvs[0].value;
  }

  /** Equal parameter lists have the same size, and every left key occurs on the right. */
  lemma CheckParamsEqualSizes(left: seq<KV>, right: seq<KV>)
    requires CheckParamsEqual(left, right)
    ensures |left| == |right|
    ensures forall i | 0 <= i < |left| :: HasKey(right, left[i].key)
  {
  }

  // ---------------------------------------------------------------------------
  // Dimensions

  /** FindDimFromFieldParams: the first "dim" in the type params, otherwise the first in the index params. */
  function FindDimFromFieldParams(field: FieldSchema): (r: Option<string>)
    ensures r.None? <==> !HasKey(field.typeParams, DIM_KEY) && !HasKey(field.indexParams, DIM_KEY)
    ensures HasKey(field.typeParams, DIM_KEY) ==> r.Some? && IsFirstValue(field.typeParams, DIM_KEY, r.value)
    ensures !HasKey(field.typeParams, DIM_KEY) && r.Some? ==> IsFirstValue(field.indexParams, DIM_KEY, r.value)
  {
    var t := FirstValue(field.typeParams, DIM_KEY);
    if t.Some? then t else FirstValue(field.indexParams, DIM_KEY)
  }

  /**
   * GetDim: the parsed "dim" of a dense vector field; -1 for a non-vector or
   * sparse field, for a missing dim and for text std::stoll rejects.
   */
  function GetDim(field: FieldSchema): (d: int)
    ensures !IsDenseVector(field.dataType) ==> d == -1
    ensures FindDimFromFieldParams(field).None? ==> d == -1
    ensures d != -1 ==>
              (IsDenseVector(field.dataType) && FindDimFromFieldParams(field).Some? &&
               Decimal.Stoll(FindDimFromFieldParams(field).value) == Decimal.Parsed(d))
    ensures (IsDenseVector(field.dataType) && FindDimFromFieldParams(field).Some? &&
             Decimal.Stoll(FindDimFromFieldParams(field).value).Parsed?) ==>
              d == Decimal.Stoll(FindDimFromFieldParams(field).value).value
  {
    if !IsVectorField(field.dataType) then -1
    else if IsSparseVectorType(field.dataType) then -1
    else
      var s := FindDimFromFieldParams(field);
      if s.None? then -1
      else
        match Decimal.Stoll(s.value)
        case Parsed(v) => v
        case InvalidArgument => -1
        case OutOfRange => -1
  }

  /** A dense vector field declared with type param dim = to_string(n) has dimension n. */
  lemma GetDimOfPrinted(field: FieldSchema, n: int)
    requires IsDenseVector(field.dataType) && Decimal.IsInt64(n)
    requires |field.typeParams| > 0 && field.typeParams[0] == KV(DIM_KEY, Decimal.ToString(n))
    ensures GetDim(field) == n
  {
    assert IsFirstValue(field.typeParams, DIM_KEY, Decimal.ToString(n));
    FirstValueUnique(field.typeParams, DIM_KEY, FindDimFromFieldParams(field).value, Decimal.ToString(n));
    Decimal.StollToString(n);
  }

  // ---------------------------------------------------------------------------
  // Primary key and vector field lookup

  predicate NoPkBefore(fields: seq<FieldSchema>, i: int)
    requires 0 <= i <= |fields|
  {
    forall j | 0 <= j < i :: !fields[j].isPrimaryKey
  }

  /** Position of the first primary-key field. */
  function FirstPkIndex(fields: seq<FieldSchema>): (r: Option<nat>)
    ensures r.None? <==> NoPkBefore(fields, |fields|)
    ensures r.Some? ==> r.value < |fields| && fields[r.value].isPrimaryKey && NoPkBefore(fields, r.value)
    decreases |fields|
  {
    if |fields| == 0 then None
    else if fields[0].isPrimaryKey then Some(0)
    else
      var r := FirstPkIndex(fields[1..]);
      assert forall j | 0 < j <= |fields[1..]| :: fields[j] == fields[1..][j - 1];
      if r.None? then None else Some(r.value + 1)
  }

  /** GetPkId: the id of the first field marked primary key, if any. */
  function GetPkId(schema: CollectionSchema): (r: Option<int>)
    ensures r.None? <==> NoPkBefore(schema.fields, |schema.fields|)
    ensures r.Some? ==> exists i | 0 <= i < |schema.fields| ::
              schema.fields[i].isPrimaryKey && schema.fields[i].fieldId == r.value && NoPkBefore(schema.fields, i)
  {
    var i := FirstPkIndex(schema.fields);
    if i.None? then None else Some(schema.fields[i.value].fieldId)
  }

  /** GetPkName: the name of the first field marked primary key, if any. */
  function GetPkName(schema: CollectionSchema): (r: Option<string>)
    ensures r.None? <==> NoPkBefore(schema.fields, |schema.fields|)
    ensures r.Some? ==> exists i | 0 <= i < |schema.fields| ::
              schema.fields[i].isPrimaryKey && schema.fields[i].name == r.value && NoPkBefore(schema.fields, i)
  {
    var i := FirstPkIndex(schema.fields);
    if i.None? then None else Some(schema.fields[i.value].name)
  }

  /** Id and name both come from the same (first) primary-key field. */
  lemma PkIdAndNameAgree(schema: CollectionSchema)
    ensures GetPkId(schema).Some? <==> GetPkName(schema).Some?
    ensures GetPkId(schema).Some? ==> exists i | 0 <= i < |schema.fields| ::
              schema.fields[i].fieldId == GetPkId(schema).value && schema.fields[i].name == GetPkName(schema).value
  {
  }

  /** Names of the vector fields: the keys of FindVectorField's std::map. */
  function VectorNames(fields: seq<FieldSchema>): set<string>
  {
    set f | f in fields && IsVectorField(f.dataType) :: f.name
  }

  /** The field the map holds under `name`: the last vector field with that name. */
  function LastVectorNamed(fields: seq<FieldSchema>, name: string): (r: Option<FieldSchema>)
    ensures r.None? <==> name !in VectorNames(fields)
    ensures r.Some? ==> r.value in fields && r.value.name == name && IsVectorField(r.value.dataType)
    decreases |fields|
  {
    if |fields| == 0 then None
    else
      var last := fields[|fields| - 1];
      var pre := fields[..|fields| - 1];
      assert forall f :: f in fields <==> f in pre || f == last;
      if IsVectorField(last.dataType) && last.name == name then Some(last)
      else LastVectorNamed(pre, name)
  }

  /** The first vector field in declaration order. */
  function FirstVector(fields: seq<FieldSchema>): (r: Option<FieldSchema>)
    ensures r.None? <==> VectorNames(fields) == {}
    ensures r.Some? ==> r.value in fields && IsVectorField(r.value.dataType)
    decreases |fields|
  {
    if |fields| == 0 then None
    else if IsVectorField(fields[0].dataType) then
      assert fields[0].name in VectorNames(fields);
      Some(fields[0])
    else
      assert forall f :: f in fields <==> f == fields[0] || f in fields[1..];
      FirstVector(fields[1..])
  }

  /**
   * FindVectorField: with no vector field, or no anns_field named while
   * several vector fields exist, or a named field that is not a vector field,
   * the result is ParameterInvalid; otherwise the vector field of that name.
   */
  function FindVectorField(schema: CollectionSchema, annField: string): (r: MilvusStatus.Outcome<FieldSchema>)
    ensures r.Success? <==>
              (VectorNames(schema.fields) != {} &&
               (annField == "" ==> |VectorNames(schema.fields)| == 1) &&
               (annField != "" ==> annField in VectorNames(schema.fields)))
    ensures r.Success? ==>
              (r.value in schema.fields && IsVectorField(r.value.dataType) &&
               (annField != "" ==> r.value.name == annField))
    ensures r.Failure? ==> r.status.code == 1100
  {
    var names := VectorNames(schema.fields);
    if |names| == 0 then
      MilvusStatus.Failure(MilvusStatus.ParameterInvalid("Can not found vector field in collection " + schema.name))
    else if annField == "" then
      if |names| > 1 then
        MilvusStatus.Failure(MilvusStatus.ParameterInvalid(
          "multiple anns_fields exist, please specify a anns_field insearch_params"))
      else
        var first := FirstVector(schema.fields).value;
        MilvusStatus.Success(LastVectorNamed(schema.fields, first.name).value)
    else if annField !in names then
      MilvusStatus.Failure(MilvusStatus.ParameterInvalid("fieldName(" + annField + ") not found"))
    else
      MilvusStatus.Success(LastVectorNamed(schema.fields, annField).value)
  }

  /** In a schema with exactly one vector field, naming it or naming nothing finds the same field. */
  lemma FindVectorFieldSingle(schema: CollectionSchema, v: FieldSchema)
    requires v in schema.fields && IsVectorField(v.dataType)
    requires forall f | f in schema.fields && IsVectorField(f.dataType) :: f == v
    ensures FindVectorField(schema, "") == FindVectorField(schema, v.name) == MilvusStatus.Success(v)
  {
    assert VectorNames(schema.fields) == {v.name};
  }

  /**
   * GetIndexMetricType: the first metric_type among the type params, then the
   * index params, then the user index params; "" when none carries one.
   */
  function GetIndexMetricType(meta: FieldIndexMeta): (r: string)
    ensures HasKey(meta.typeParams, METRIC_TYPE_KEY) ==> IsFirstValue(meta.typeParams, METRIC_TYPE_KEY, r)
    ensures !HasKey(meta.typeParams, METRIC_TYPE_KEY) && HasKey(meta.indexParams, METRIC_TYPE_KEY) ==>
              IsFirstValue(meta.indexParams, METRIC_TYPE_KEY, r)
    ensures (!HasKey(meta.typeParams, METRIC_TYPE_KEY) && !HasKey(meta.indexParams, METRIC_TYPE_KEY) &&
             HasKey(meta.userIndexParams, METRIC_TYPE_KEY)) ==>
              IsFirstValue(meta.userIndexParams, METRIC_TYPE_KEY, r)
    ensures (!HasKey(meta.typeParams, METRIC_TYPE_KEY) && !HasKey(meta.indexParams, METRIC_TYPE_KEY) &&
             !HasKey(meta.userIndexParams, METRIC_TYPE_KEY)) ==> r == ""
  {
    var t := FirstValue(meta.typeParams, METRIC_TYPE_KEY);
    if t.Some? then t.value
    else
      var i := FirstValue(meta.indexParams, METRIC_TYPE_KEY);
      if i.Some? then i.value
      else
        var u := FirstValue(meta.userIndexParams, METRIC_TYPE_KEY);
        if u.Some? then u.value else ""
  }

  // ---------------------------------------------------------------------------
  // Column access (GetField) and picking rows

  /** Dense vector columns carry a non-negative dimension. */
  predicate WellFormedDim(fd: FieldData)
  {
    IsDenseVector(fd.dtype) ==> fd.dim >= 0
  }

  /** Payload elements per row: dim floats, dim/8 bytes, 2*dim bytes, or one cell. */
  function RowWidth(fd: FieldData): int
  {
    if fd.dtype == FloatVector then fd.dim
    else if fd.dtype == BinaryVector then fd.dim / 8
    else if IsHalfVector(fd.dtype) then fd.dim * 2
    else 1
  }

  /** The two 16-bit float vector types, stored as two bytes per dimension. */
  predicate IsHalfVector(t: DType)
  {
    t == Float16Vector || t == BFloat16Vector
  }

  /**
   * Row i can be read: a float vector reads data(i*dim .. (i+1)*dim - 1); a byte
   * vector takes substr(i*w, w), which needs i*w within the string; every other
   * column reads data(i).
   */
  predicate RowReadable(fd: FieldData, i: int)
  {
    0 <= i &&
    if fd.dtype == NoneType then true
    else if fd.dtype == FloatVector then Offset(i + 1, fd.dim) <= |fd.cells|
    else if IsDenseVector(fd.dtype) then Offset(i, RowWidth(fd)) <= |fd.cells|
    else i < |fd.cells|
  }

  /** i * w, the start of row i in a payload of rows of width w, spelled as repeated addition. */
  function Offset(i: nat, w: int): int
  {
    if i == 0 then 0 else Offset(i - 1, w) + w
  }

  lemma {:induction false} OffsetIsProduct(i: nat, w: int)
    ensures Offset(i, w) == i * w
  {
    if i > 0 {
      OffsetIsProduct(i - 1, w);
    }
  }

  lemma {:induction false} OffsetMono(a: nat, b: nat, w: int)
    requires a <= b && w >= 0
    ensures 0 <= Offset(a, w) <= Offset(b, w)
    decreases b
  {
    if a < b {
      OffsetMono(a, b - 1, w);
    } else if a > 0 {
      OffsetMono(a - 1, a - 1, w);
    }
  }

  function Min(a: int, b: int): int { if a <= b then a else b }

  /** GetField(field_data, i): the payload of row i (substr clips at the end of the string). */
  function RowCells(fd: FieldData, i: int): (r: seq<Cell>)
    requires WellFormedDim(fd) && RowReadable(fd, i)
    ensures fd.dtype == FloatVector ==> |r| == fd.dim
    ensures !IsDenseVector(fd.dtype) && fd.dtype != NoneType ==> r == [fd.cells[i]]
  {
    if fd.dtype == NoneType then []
    else if fd.dtype == FloatVector then
      OffsetMono(i, i + 1, fd.dim);
      fd.cells[Offset(i, fd.dim) .. Offset(i + 1, fd.dim)]
    else if IsDenseVector(fd.dtype) then
      OffsetMono(i, i + 1, RowWidth(fd));
      fd.cells[Offset(i, RowWidth(fd)) .. Min(Offset(i + 1, RowWidth(fd)), |fd.cells|)]
    else [fd.cells[i]]
  }

  predicate AllReadable(fd: FieldData, indexes: seq<int>)
  {
    forall k | 0 <= k < |indexes| :: RowReadable(fd, indexes[k])
  }

  /** The rows at `indexes`, one after the other. */
  function Picked(src: FieldData, indexes: seq<int>): seq<Cell>
    requires WellFormedDim(src) && AllReadable(src, indexes)
    decreases |indexes|
  {
    if |indexes| == 0 then []
    else Picked(src, indexes[..|indexes| - 1]) + RowCells(src, indexes[|indexes| - 1])
  }

  /**
   * dst after PickFieldDataByIndex appended the picked rows: the payload grows
   * by the picked rows; a dense vector column also takes the source dim, a
   * sparse one the source sparse dim, an array column the element type.
   */
  function PickResult(src: FieldData, indexes: seq<int>, dst: FieldData): FieldData
    requires WellFormedDim(src) && AllReadable(src, indexes)
  {
    if |indexes| == 0 then dst
    else dst.(cells := dst.cells + Picked(src, indexes),
              dim := if IsDenseVector(src.dtype) then src.dim else dst.dim,
              sparseDim := if src.dtype == SparseFloatVector then src.sparseDim else dst.sparseDim,
              elementType := if src.dtype == Array then src.elementType else dst.elementType)
  }

  lemma PrefixReadable(src: FieldData, indexes: seq<int>, k: int)
    requires AllReadable(src, indexes) && 0 <= k <= |indexes|
    ensures AllReadable(src, indexes[..k])
  {
    forall j | 0 <= j < k ensures RowReadable(src, indexes[..k][j]) {
      assert indexes[..k][j] == indexes[j];
    }
  }

  lemma PickResultStep(src: FieldData, indexes: seq<int>, dst: FieldData, k: int)
    requires WellFormedDim(src) && AllReadable(src, indexes) && 0 <= k < |indexes|
    ensures AllReadable(src, indexes[..k]) && AllReadable(src, indexes[..k + 1])
    ensures var before := PickResult(src, indexes[..k], dst);
            PickResult(src, indexes[..k + 1], dst) ==
              before.(cells := before.cells + RowCells(src, indexes[k]),
                      dim := if IsDenseVector(src.dtype) then src.dim else before.dim,
                      sparseDim := if src.dtype == SparseFloatVector then src.sparseDim else before.sparseDim,
                      elementType := if src.dtype == Array then src.elementType else before.elementType)
  {
    PrefixReadable(src, indexes, k);
    PrefixReadable(src, indexes, k + 1);
    var pre := indexes[..k + 1];
    assert pre[..k] == indexes[..k] && pre[k] == indexes[k];
    assert Picked(src, pre) == Picked(src, indexes[..k]) + RowCells(src, indexes[k]);
    if k > 0 {
      assert dst.cells + Picked(src, indexes[..k + 1])
          == (dst.cells + Picked(src, indexes[..k])) + RowCells(src, indexes[k]);
    }
  }

  /**
   * PickFieldDataByIndex: appends row i of src to dst for each i in order; a
   * column of unknown type fails (before touching dst) as soon as a row is asked for.
   */
  method PickFieldDataByIndex(src: FieldData, indexes: seq<int>, dst: FieldData) returns (ok: bool, out: FieldData)
    requires WellFormedDim(src) && AllReadable(src, indexes)
    ensures ok <==> |indexes| == 0 || src.dtype != NoneType
    ensures ok ==> out == PickResult(src, indexes, dst)
    ensures !ok ==> out == dst
  {
    out := dst;
    var k := 0;
    while k < |indexes|
      invariant 0 <= k <= |indexes|
      invariant out == PickResult(src, indexes[..k], dst)
      invariant src.dtype == NoneType ==> k == 0
    {
      var i := indexes[k];
      PickResultStep(src, indexes, dst, k);
      match src.dtype {
        case NoneType =>
          return false, dst;
        case FloatVector =>
          out := out.(dim := src.dim, cells := out.cells + RowCells(src, i));
        case BinaryVector =>
          out := out.(dim := src.dim, cells := out.cells + RowCells(src, i));
        case Float16Vector =>
          out := out.(dim := src.dim, cells := out.cells + RowCells(src, i));
        case BFloat16Vector =>
          out := out.(dim := src.dim, cells := out.cells + RowCells(src, i));
        case Array =>
          out := out.(elementType := src.elementType, cells := out.cells + [src.cells[i]]);
        case SparseFloatVector =>
          out := out.(sparseDim := src.sparseDim, cells := out.cells + [src.cells[i]]);
        case _ =>
          out := out.(cells := out.cells + [src.cells[i]]);
      }
      k := k + 1;
    }
    assert indexes[..k] == indexes;
    ok := true;
  }

  /** Picking a + b is picking a, then b. */
  lemma {:induction false} PickedAppend(src: FieldData, a: seq<int>, b: seq<int>)
    requires WellFormedDim(src) && AllReadable(src, a) && AllReadable(src, b)
    ensures AllReadable(src, a + b)
    ensures Picked(src, a + b) == Picked(src, a) + Picked(src, b)
    decreases |b|
  {
    if |b| > 0 {
      var b' := b[..|b| - 1];
      assert (a + b)[..|a + b| - 1] == a + b';
      PickedAppend(src, a, b');
    } else {
      assert a + b == a;
    }
  }

  /** [lo, lo+1, ..., hi-1]; empty when hi <= lo. */
  function Range(lo: int, hi: int): (r: seq<int>)
    ensures |r| == if hi <= lo then 0 else hi - lo
    ensures forall k | 0 <= k < |r| :: r[k] == lo + k
    decreases hi - lo
  {
    if hi <= lo then [] else Range(lo, hi - 1) + [hi - 1]
  }

  /** In a payload of exactly n full rows of width w, row i < n is the slice [Offset(i), Offset(i+1)). */
  lemma RowCellsFull(src: FieldData, i: nat, n: nat)
    requires WellFormedDim(src) && src.dtype != NoneType && i < n
    requires RowWidth(src) >= 0 && |src.cells| == Offset(n, RowWidth(src))
    requires !IsDenseVector(src.dtype) ==> n == |src.cells|
    ensures RowReadable(src, i)
    ensures 0 <= Offset(i, RowWidth(src)) <= Offset(i + 1, RowWidth(src)) <= |src.cells|
    ensures RowCells(src, i) == src.cells[Offset(i, RowWidth(src)) .. Offset(i + 1, RowWidth(src))]
  {
    var w := RowWidth(src);
    OffsetMono(i + 1, n, w);
    OffsetMono(i, i + 1, w);
    if !IsDenseVector(src.dtype) {
      OffsetIsProduct(i, 1);
      OffsetIsProduct(i + 1, 1);
      assert src.cells[i .. i + 1] == [src.cells[i]];
    }
  }

  /** Every row below m <= n of a payload of exactly n full rows is readable. */
  lemma RangeReadable(src: FieldData, m: nat, n: nat)
    requires WellFormedDim(src) && src.dtype != NoneType && m <= n
    requires RowWidth(src) >= 0 && |src.cells| == Offset(n, RowWidth(src))
    requires !IsDenseVector(src.dtype) ==> n == |src.cells|
    ensures AllReadable(src, Range(0, m))
  {
    forall k | 0 <= k < m ensures RowReadable(src, Range(0, m)[k]) {
      RowCellsFull(src, k, n);
    }
  }

  /** Picking the first m rows of a payload of exactly n full rows gives the payload's first m rows. */
  lemma {:induction false} PickedPrefix(src: FieldData, m: nat, n: nat)
    requires WellFormedDim(src) && src.dtype != NoneType && m <= n
    requires RowWidth(src) >= 0 && |src.cells| == Offset(n, RowWidth(src))
    requires !IsDenseVector(src.dtype) ==> n == |src.cells|
    ensures AllReadable(src, Range(0, m))
    ensures 0 <= Offset(m, RowWidth(src)) <= |src.cells|
    ensures Picked(src, Range(0, m)) == src.cells[..Offset(m, RowWidth(src))]
    decreases m
  {
    OffsetMono(m, n, RowWidth(src));
    RangeReadable(src, m, n);
    if m > 0 {
      PickedPrefix(src, m - 1, n);
      PickedPrefixStep(src, m, n);
    }
  }

  lemma PickedPrefixStep(src: FieldData, m: nat, n: nat)
    requires WellFormedDim(src) && src.dtype != NoneType && 0 < m <= n
    requires RowWidth(src) >= 0 && |src.cells| == Offset(n, RowWidth(src))
    requires !IsDenseVector(src.dtype) ==> n == |src.cells|
    requires AllReadable(src, Range(0, m)) && AllReadable(src, Range(0, m - 1))
    requires 0 <= Offset(m - 1, RowWidth(src)) <= Offset(m, RowWidth(src)) <= |src.cells|
    requires Picked(src, Range(0, m - 1)) == src.cells[..Offset(m - 1, RowWidth(src))]
    ensures Picked(src, Range(0, m)) == src.cells[..Offset(m, RowWidth(src))]
  {
    var w := RowWidth(src);
    var lo := Offset(m - 1, w);
    var hi := Offset(m, w);
    PickedRangeSnoc(src, m);
    RowCellsBelow(src, m, n);
    ConcatSlices(src.cells, Picked(src, Range(0, m - 1)), src.cells[lo .. hi], lo, hi);
  }

  /** RowCellsFull for row m - 1, stated with the end offset Offset(m). */
  lemma RowCellsBelow(src: FieldData, m: nat, n: nat)
    requires WellFormedDim(src) && src.dtype != NoneType && 0 < m <= n
    requires RowWidth(src) >= 0 && |src.cells| == Offset(n, RowWidth(src))
    requires !IsDenseVector(src.dtype) ==> n == |src.cells|
    ensures RowReadable(src, m - 1)
    ensures 0 <= Offset(m - 1, RowWidth(src)) <= Offset(m, RowWidth(src)) <= |src.cells|
    ensures RowCells(src, m - 1) == src.cells[Offset(m - 1, RowWidth(src)) .. Offset(m, RowWidth(src))]
  {
    var i: nat := m - 1;
    RowCellsFull(src, i, n);
    assert i + 1 == m;
  }

  /** Picking rows 0 .. m-1 is picking rows 0 .. m-2 and then row m-1. */
  lemma PickedRangeSnoc(src: FieldData, m: nat)
    requires WellFormedDim(src) && m > 0
    requires AllReadable(src, Range(0, m)) && AllReadable(src, Range(0, m - 1))
    ensures RowReadable(src, m - 1)
    ensures Picked(src, Range(0, m)) == Picked(src, Range(0, m - 1)) + RowCells(src, m - 1)
  {
    RangeSnoc(m);
    var r := Range(0, m);
    assert RowReadable(src, r[m - 1]);
  }

  lemma RangeSnoc(m: nat)
    requires m > 0
    ensures Range(0, m)[..m - 1] == Range(0, m - 1) && Range(0, m)[m - 1] == m - 1
  {
  }

  lemma ConcatSlices(c: seq<Cell>, prev: seq<Cell>, row: seq<Cell>, lo: int, hi: int)
    requires 0 <= lo <= hi <= |c| && prev == c[..lo] && row == c[lo .. hi]
    ensures prev + row == c[..hi]
  {
  }

  /** Picking every row of a payload of exactly n full rows gives the payload back. */
  lemma PickedAllRows(src: FieldData, n: nat)
    requires WellFormedDim(src) && src.dtype != NoneType
    requires RowWidth(src) >= 0 && |src.cells| == n * RowWidth(src)
    requires !IsDenseVector(src.dtype) ==> n == |src.cells|
    ensures AllReadable(src, Range(0, n))
    ensures Picked(src, Range(0, n)) == src.cells
  {
    var w := RowWidth(src);
    OffsetIsProduct(n, w);
    var end := Offset(n, w);
    assert |src.cells| == end;
    PickedPrefix(src, n, n);
    assert src.cells[..end] == src.cells;
  }

  // ---------------------------------------------------------------------------
  // SliceFieldData

  /** The index list SliceFieldData builds: [offset, offset+limit) for each range, in order. */
  function SliceIndexes(ranges: seq<(int, int)>): seq<int>
    decreases |ranges|
  {
    if |ranges| == 0 then []
    else
      var last := ranges[|ranges| - 1];
      SliceIndexes(ranges[..|ranges| - 1]) + Range(last.0, last.0 + last.1)
  }

  /** An index is sliced exactly when it lies in one of the ranges. */
  lemma {:induction false} SliceIndexesMembership(ranges: seq<(int, int)>, x: int)
    ensures x in SliceIndexes(ranges) <==> exists r | 0 <= r < |ranges| :: ranges[r].0 <= x < ranges[r].0 + ranges[r].1
    decreases |ranges|
  {
    if |ranges| > 0 {
      var pre := ranges[..|ranges| - 1];
      var last := ranges[|ranges| - 1];
      SliceIndexesMembership(pre, x);
      var rg := Range(last.0, last.0 + last.1);
      assert x in rg <==> last.0 <= x < last.0 + last.1 by {
        if last.0 <= x < last.0 + last.1 { assert rg[x - last.0] == x; }
      }
      if exists r | 0 <= r < |pre| :: pre[r].0 <= x < pre[r].0 + pre[r].1 {
        var r :| 0 <= r < |pre| && pre[r].0 <= x < pre[r].0 + pre[r].1;
        assert ranges[r] == pre[r];
      }
      if exists r | 0 <= r < |ranges| :: ranges[r].0 <= x < ranges[r].0 + ranges[r].1 {
        var r :| 0 <= r < |ranges| && ranges[r].0 <= x < ranges[r].0 + ranges[r].1;
        if r < |pre| { assert pre[r] == ranges[r]; }
      }
    }
  }

  /** Number of indexes a list of ranges contributes: the sum of the positive limits. */
  function RangeCount(ranges: seq<(int, int)>): nat
    decreases |ranges|
  {
    if |ranges| == 0 then 0
    else
      var l := ranges[|ranges| - 1].1;
      RangeCount(ranges[..|ranges| - 1]) + (if l > 0 then l else 0)
  }

  lemma {:induction false} SliceIndexesLength(ranges: seq<(int, int)>)
    ensures |SliceIndexes(ranges)| == RangeCount(ranges)
    decreases |ranges|
  {
    if |ranges| > 0 { SliceIndexesLength(ranges[..|ranges| - 1]); }
  }

  /** One range (offset, limit) selects offset, offset+1, ... offset+limit-1. */
  lemma SliceIndexesSingle(offset: int, limit: int)
    ensures SliceIndexes([(offset, limit)]) == Range(offset, offset + limit)
  {
    assert [(offset, limit)][..0] == [];
  }

  /** SliceFieldData: pick the rows of every (offset, limit) range, in order. */
  method SliceFieldData(src: FieldData, ranges: seq<(int, int)>, dst: FieldData) returns (ok: bool, out: FieldData)
    requires WellFormedDim(src) && AllReadable(src, SliceIndexes(ranges))
    ensures ok <==> |SliceIndexes(ranges)| == 0 || src.dtype != NoneType
    ensures ok ==> out == PickResult(src, SliceIndexes(ranges), dst)
    ensures !ok ==> out == dst
  {
    var indexes := SliceIndexList(ranges);
    ok, out := PickFieldDataByIndex(src, indexes, dst);
  }

  /** The index loops of SliceFieldData: every range's indexes, range after range. */
  method SliceIndexList(ranges: seq<(int, int)>) returns (indexes: seq<int>)
    ensures indexes == SliceIndexes(ranges)
  {
    indexes := [];
    var r := 0;
    while r < |ranges|
      invariant 0 <= r <= |ranges|
      invariant indexes == SliceIndexes(ranges[..r])
    {
      indexes := AppendRange(indexes, ranges[r].0, ranges[r].1);
      assert ranges[..r + 1][..r] == ranges[..r];
      r := r + 1;
    }
    assert ranges[..r] == ranges;
  }

  /** The inner loop of SliceFieldData: offset, offset + 1, ... up to offset + limit, appended. */
  method AppendRange(indexes0: seq<int>, offset: int, limit: int) returns (indexes: seq<int>)
    ensures indexes == indexes0 + Range(offset, offset + limit)
  {
    indexes := indexes0;
    var i := offset;
    while i < offset + limit
      invariant offset <= i && (i <= offset + limit || i == offset)
      invariant indexes == indexes0 + Range(offset, i)
      decreases offset + limit - i
    {
      indexes := indexes + [i];
      i := i + 1;
    }
  }

  // ---------------------------------------------------------------------------
  // ReduceFieldByIDs

  /** The strings the de-duplication compares: std::to_string of int ids, the str ids as they are. */
  function IdKeys(ids: MilvusIds.IDs): (keys: seq<string>)
    ensures ids.IntId? ==> |keys| == |ids.ints| && forall i | 0 <= i < |keys| :: keys[i] == Decimal.ToString(ids.ints[i])
    ensures ids.StrId? ==> keys == ids.strs
    ensures ids.NoId? ==> keys == []
  {
    match ids
    case IntId(ints) => seq(|ints|, i requires 0 <= i < |ints| => Decimal.ToString(ints[i]))
    case StrId(strs) => strs
    case NoId => []
  }

  /** Positions whose key has not appeared earlier, in increasing order. */
  function FirstOccurrences(keys: seq<string>): (r: seq<int>)
    ensures forall k | 0 <= k < |r| :: 0 <= r[k] < |keys|
    decreases |keys|
  {
    if |keys| == 0 then []
    else
      var n := |keys| - 1;
      var pre := FirstOccurrences(keys[..n]);
      if keys[n] in keys[..n] then pre else pre + [n]
  }

  /** Every kept position is in range and holds a key not seen before it; the positions increase. */
  lemma {:induction false} FirstOccurrencesSpec(keys: seq<string>)
    ensures forall k | 0 <= k < |FirstOccurrences(keys)| ::
              keys[FirstOccurrences(keys)[k]] !in keys[..FirstOccurrences(keys)[k]]
    ensures forall k, l | 0 <= k < l < |FirstOccurrences(keys)| ::
              FirstOccurrences(keys)[k] < FirstOccurrences(keys)[l]
    decreases |keys|
  {
    if |keys| > 0 {
      var n := |keys| - 1;
      var pre := FirstOccurrences(keys[..n]);
      var r := FirstOccurrences(keys);
      FirstOccurrencesSpec(keys[..n]);
      assert r == if keys[n] in keys[..n] then pre else pre + [n];
      forall k | 0 <= k < |r| ensures keys[r[k]] !in keys[..r[k]] {
        if k < |pre| {
          assert r[k] == pre[k];
          assert keys[..n][..pre[k]] == keys[..pre[k]];
          assert keys[..n][pre[k]] == keys[pre[k]];
        } else {
          assert r[k] == n;
        }
      }
      forall k, l | 0 <= k < l < |r| ensures r[k] < r[l] {
        if l < |pre| {
          assert r[k] == pre[k] && r[l] == pre[l];
        } else {
          assert r[k] == pre[k] < n == r[l];
        }
      }
    }
  }

  /** The kept positions hold pairwise distinct keys. */
  lemma FirstOccurrencesDistinct(keys: seq<string>)
    ensures forall k, l | 0 <= k < l < |FirstOccurrences(keys)| ::
              keys[FirstOccurrences(keys)[k]] != keys[FirstOccurrences(keys)[l]]
  {
    var r := FirstOccurrences(keys);
    FirstOccurrencesSpec(keys);
    forall k, l | 0 <= k < l < |r| ensures keys[r[k]] != keys[r[l]] {
      assert r[k] < r[l];
      assert keys[r[k]] == keys[..r[l]][r[k]];
    }
  }

  /** Position i's key is kept at some position at or before i. */
  lemma {:induction false} FirstOccurrencesCover(keys: seq<string>, i: int)
    requires 0 <= i < |keys|
    ensures exists k | 0 <= k < |FirstOccurrences(keys)| ::
              FirstOccurrences(keys)[k] <= i && keys[FirstOccurrences(keys)[k]] == keys[i]
    decreases |keys|
  {
    var r := FirstOccurrences(keys);
    var n := |keys| - 1;
    var pre := FirstOccurrences(keys[..n]);
    assert |pre| <= |r| && forall k | 0 <= k < |pre| :: r[k] == pre[k];
    if i < n {
      FirstOccurrencesCover(keys[..n], i);
      var k :| 0 <= k < |pre| && pre[k] <= i && keys[..n][pre[k]] == keys[..n][i];
      assert r[k] == pre[k];
    } else if keys[n] in keys[..n] {
      var j :| 0 <= j < n && keys[..n][j] == keys[n];
      FirstOccurrencesCover(keys[..n], j);
      var k :| 0 <= k < |pre| && pre[k] <= j && keys[..n][pre[k]] == keys[..n][j];
      assert r[k] == pre[k];
    } else {
      assert r[|r| - 1] == n;
    }
  }

  function KeySet(keys: seq<string>): set<string>
  {
    set k | k in keys
  }

  lemma KeySetStep(keys: seq<string>, i: int)
    requires 0 <= i < |keys|
    ensures KeySet(keys[..i + 1]) == KeySet(keys[..i]) + {keys[i]}
    ensures keys[i] in KeySet(keys[..i]) <==> keys[i] in keys[..i]
  {
    assert keys[..i + 1] == keys[..i] + [keys[i]];
  }

  /** The number of kept positions is the number of distinct keys (real_size). */
  lemma {:induction false} FirstOccurrencesCount(keys: seq<string>)
    ensures |FirstOccurrences(keys)| == |KeySet(keys)|
    decreases |keys|
  {
    if |keys| > 0 {
      var n := |keys| - 1;
      FirstOccurrencesCount(keys[..n]);
      assert KeySet(keys) == KeySet(keys[..n]) + {keys[n]} by {
        assert keys == keys[..n] + [keys[n]];
      }
      if keys[n] !in keys[..n] {
        assert keys[n] !in KeySet(keys[..n]);
      }
    }
  }

  /** For int64 ids, comparing their decimal text is comparing their values. */
  lemma IntKeysFaithful(ids: MilvusIds.IDs, i: int, j: int)
    requires ids.IntId? && 0 <= i < |ids.ints| && 0 <= j < |ids.ints|
    requires Decimal.IsInt64(ids.ints[i]) && Decimal.IsInt64(ids.ints[j])
    ensures IdKeys(ids)[i] == IdKeys(ids)[j] <==> ids.ints[i] == ids.ints[j]
  {
    if IdKeys(ids)[i] == IdKeys(ids)[j] {
      Decimal.ToStringInjective(ids.ints[i], ids.ints[j]);
    }
  }

  /** dst with the header ReduceFieldByIDs copies from src. */
  function WithHeaderOf(dst: FieldData, src: FieldData): FieldData
  {
    dst.(dtype := src.dtype, fieldId := src.fieldId, fieldName := src.fieldName, isDynamic := src.isDynamic)
  }

  lemma FirstOccurrencesStep(keys: seq<string>, i: int)
    requires 0 <= i < |keys|
    ensures FirstOccurrences(keys[..i + 1]) ==
              FirstOccurrences(keys[..i]) + (if keys[i] in keys[..i] then [] else [i])
  {
    assert keys[..i + 1][..i] == keys[..i];
  }

  /** One round of the de-duplication loops: a key already seen changes nothing, a new one is recorded. */
  lemma PositionsStep(keys: seq<string>, i: int, uniqueIds: set<string>, indexes: seq<int>)
    requires 0 <= i < |keys|
    requires uniqueIds == KeySet(keys[..i]) && indexes == FirstOccurrences(keys[..i]) && |uniqueIds| == |indexes|
    ensures keys[i] in uniqueIds ==> uniqueIds == KeySet(keys[..i + 1]) && indexes == FirstOccurrences(keys[..i + 1])
    ensures keys[i] !in uniqueIds ==>
              uniqueIds + {keys[i]} == KeySet(keys[..i + 1]) && indexes + [i] == FirstOccurrences(keys[..i + 1])
              && |uniqueIds + {keys[i]}| == |indexes + [i]|
  {
    FirstOccurrencesStep(keys, i);
    KeySetStep(keys, i);
  }

  /** The loop over int ids: each id's decimal text is looked up in, then added to, the seen set. */
  method IntIdPositions(ids: MilvusIds.IDs) returns (uniqueIds: set<string>, indexes: seq<int>)
    requires ids.IntId?
    ensures uniqueIds == KeySet(IdKeys(ids)) && indexes == FirstOccurrences(IdKeys(ids))
    ensures |uniqueIds| == |indexes|
  {
    ghost var keys := IdKeys(ids);
    uniqueIds, indexes := {}, [];
    var i := 0;
    while i < |ids.ints|
      invariant 0 <= i <= |ids.ints|
      invariant uniqueIds == KeySet(keys[..i])
      invariant indexes == FirstOccurrences(keys[..i])
      invariant |uniqueIds| == |indexes|
    {
      var curId := Decimal.ToString(ids.ints[i]);
      assert curId == keys[i];
      PositionsStep(keys, i, uniqueIds, indexes);
      if curId in uniqueIds {
        i := i + 1;
        continue;
      }
      uniqueIds := uniqueIds + {curId};
      indexes := indexes + [i];
      i := i + 1;
    }
    assert keys[..i] == keys;
  }

  /** The loop over string ids. */
  method StrIdPositions(ids: MilvusIds.IDs) returns (uniqueIds: set<string>, indexes: seq<int>)
    requires ids.StrId?
    ensures uniqueIds == KeySet(IdKeys(ids)) && indexes == FirstOccurrences(IdKeys(ids))
    ensures |uniqueIds| == |indexes|
  {
    ghost var keys := IdKeys(ids);
    uniqueIds, indexes := {}, [];
    var i := 0;
    while i < |ids.strs|
      invariant 0 <= i <= |ids.strs|
      invariant uniqueIds == KeySet(keys[..i])
      invariant indexes == FirstOccurrences(keys[..i])
      invariant |uniqueIds| == |indexes|
    {
      var curId := ids.strs[i];
      assert curId == keys[i];
      PositionsStep(keys, i, uniqueIds, indexes);
      if curId in uniqueIds {
        i := i + 1;
        continue;
      }
      uniqueIds := uniqueIds + {curId};
      indexes := indexes + [i];
      i := i + 1;
    }
    assert keys[..i] == keys;
  }

  /**
   * ReduceFieldByIDs: copy src's header to dst, keep the first row of each
   * distinct id (int ids compared by their decimal text), and report the
   * number of distinct ids; IDs without a list leave dst's data and the size alone.
   */
  method ReduceFieldByIDs(ids: MilvusIds.IDs, src: FieldData, dst: FieldData, realSizeIn: int)
    returns (ok: bool, out: FieldData, realSize: int)
    requires WellFormedDim(src) && AllReadable(src, FirstOccurrences(IdKeys(ids)))
    ensures ids.NoId? ==> ok && out == WithHeaderOf(dst, src) && realSize == realSizeIn
    ensures !ids.NoId? ==> realSize == |FirstOccurrences(IdKeys(ids))| == |KeySet(IdKeys(ids))|
    ensures !ids.NoId? ==> (ok <==> |FirstOccurrences(IdKeys(ids))| == 0 || src.dtype != NoneType)
    ensures !ids.NoId? && ok ==> out == PickResult(src, FirstOccurrences(IdKeys(ids)), WithHeaderOf(dst, src))
    ensures !ids.NoId? && !ok ==> out == WithHeaderOf(dst, src)
  {
    var header := WithHeaderOf(dst, src);
    var uniqueIds: set<string>;
    var indexes: seq<int>;
    if ids.IntId? {
      uniqueIds, indexes := IntIdPositions(ids);
    } else if ids.StrId? {
      uniqueIds, indexes := StrIdPositions(ids);
    } else {
      return true, header, realSizeIn;
    }
    realSize := |uniqueIds|;
    ok, out := PickFieldDataByIndex(src, indexes, header);
  }

  // ---------------------------------------------------------------------------
  // TranslateOutputFields

  /** pk_name after the scan: the name of the LAST field marked primary key, or "". */
  function LastPkName(fields: seq<FieldSchema>): string
    decreases |fields|
  {
    if |fields| == 0 then ""
    else if fields[|fields| - 1].isPrimaryKey then fields[|fields| - 1].name
    else LastPkName(fields[..|fields| - 1])
  }

  /** all_fields: the names of the fields with id >= 100 (the user fields). */
  function UserFieldNames(fields: seq<FieldSchema>): set<string>
    decreases |fields|
  {
    if |fields| == 0 then {}
    else
      var last := fields[|fields| - 1];
      UserFieldNames(fields[..|fields| - 1]) + (if last.fieldId >= START_OF_USER_FIELD_ID then {last.name} else {})
  }

  /** The names BM25 functions write: they are never returned. */
  function Bm25Outputs(functions: seq<FunctionSchema>): set<string>
    decreases |functions|
  {
    if |functions| == 0 then {}
    else
      var last := functions[|functions| - 1];
      Bm25Outputs(functions[..|functions| - 1]) + (if last.ftype == BM25 then set o | o in last.outputFieldNames else {})
  }

  /** A requested name the schema cannot serve: not "*", not a user field, and no dynamic field to fall back on. */
  predicate Rejected(schema: CollectionSchema, name: string)
  {
    var t := StringUtil.Trim(name);
    t != "*" && t !in UserFieldNames(schema.fields) && !schema.enableDynamicField
  }

  /** No requested name is rejected (stated on prefixes, the way the loop meets them). */
  predicate AllAccepted(schema: CollectionSchema, raw: seq<string>)
    decreases |raw|
  {
    |raw| == 0 || (AllAccepted(schema, raw[..|raw| - 1]) && !Rejected(schema, raw[|raw| - 1]))
  }

  lemma AllAcceptedSpec(schema: CollectionSchema, raw: seq<string>)
    ensures AllAccepted(schema, raw) <==> forall i | 0 <= i < |raw| :: !Rejected(schema, raw[i])
  {
    if AllAccepted(schema, raw) {
      AcceptedAll(schema, raw);
    } else {
      var i := RejectedWitness(schema, raw);
    }
  }

  lemma {:induction false} AcceptedAll(schema: CollectionSchema, raw: seq<string>)
    requires AllAccepted(schema, raw)
    ensures forall i | 0 <= i < |raw| :: !Rejected(schema, raw[i])
    decreases |raw|
  {
    if |raw| > 0 {
      var pre := raw[..|raw| - 1];
      AcceptedAll(schema, pre);
      assert forall i | 0 <= i < |pre| :: pre[i] == raw[i];
    }
  }

  lemma {:induction false} RejectedWitness(schema: CollectionSchema, raw: seq<string>) returns (i: int)
    requires !AllAccepted(schema, raw)
    ensures 0 <= i < |raw| && Rejected(schema, raw[i])
    decreases |raw|
  {
    var n := |raw| - 1;
    if Rejected(schema, raw[n]) {
      i := n;
    } else {
      i := RejectedWitness(schema, raw[..n]);
      assert raw[..n][i] == raw[i];
    }
  }

  /**
   * What one requested name adds to (real fields, user-visible names): "*"
   * adds every user field; a user field adds itself (trimmed); any other name
   * whose identifier parse is the dynamic path [name] adds "$meta" and the
   * untrimmed name.
   */
  function Contribution(schema: CollectionSchema, parseIdent: string -> seq<string>, name: string): (set<string>, set<string>)
  {
    var t := StringUtil.Trim(name);
    var all := UserFieldNames(schema.fields);
    if t == "*" then (all, all)
    else if t in all then ({t}, {t})
    else if schema.enableDynamicField && parseIdent(name) == [name] then ({META_FIELD_NAME}, {name})
    else ({}, {})
  }

  function RequestedResult(schema: CollectionSchema, parseIdent: string -> seq<string>, raw: seq<string>): set<string>
    decreases |raw|
  {
    if |raw| == 0 then {}
    else RequestedResult(schema, parseIdent, raw[..|raw| - 1]) + Contribution(schema, parseIdent, raw[|raw| - 1]).0
  }

  function RequestedUser(schema: CollectionSchema, parseIdent: string -> seq<string>, raw: seq<string>): set<string>
    decreases |raw|
  {
    if |raw| == 0 then {}
    else RequestedUser(schema, parseIdent, raw[..|raw| - 1]) + Contribution(schema, parseIdent, raw[|raw| - 1]).1
  }

  /** The requested set, with the pk added when asked for, less every BM25 output. */
  function Finish(requested: set<string>, schema: CollectionSchema, addPrimary: bool): set<string>
  {
    (requested + (if addPrimary then {LastPkName(schema.fields)} else {})) - Bm25Outputs(schema.functions)
  }

  /** std::set insertion of every element of a sorted list, one at a time. */
  method InsertAll(s: seq<string>, xs: seq<string>) returns (r: seq<string>)
    requires Lex.Sorted(s)
    ensures Lex.Sorted(r)
    ensures forall y :: y in r <==> y in s || y in xs
  {
    r := s;
    var j := 0;
    while j < |xs|
      invariant 0 <= j <= |xs|
      invariant Lex.Sorted(r)
      invariant forall y :: y in r <==> y in s || y in xs[..j]
    {
      r := Lex.Insert(r, xs[j]);
      assert xs[..j + 1] == xs[..j] + [xs[j]];
      j := j + 1;
    }
    assert xs[..j] == xs;
  }

  /** The first loop of TranslateOutputFields: the pk name and the std::set of user field names. */
  method ScanSchemaFields(fields: seq<FieldSchema>) returns (pkName: string, allFields: seq<string>)
    ensures pkName == LastPkName(fields)
    ensures Lex.Sorted(allFields) && forall y :: y in allFields <==> y in UserFieldNames(fields)
  {
    pkName := "";
    allFields := [];
    var f := 0;
    while f < |fields|
      invariant 0 <= f <= |fields|
      invariant pkName == LastPkName(fields[..f])
      invariant Lex.Sorted(allFields) && forall y :: y in allFields <==> y in UserFieldNames(fields[..f])
    {
      var field := fields[f];
      assert fields[..f + 1][..f] == fields[..f];
      if field.isPrimaryKey {
        pkName := field.name;
      }
      if field.fieldId >= START_OF_USER_FIELD_ID {
        allFields := Lex.Insert(allFields, field.name);
      }
      f := f + 1;
    }
    assert fields[..f] == fields;
  }

  /** One rejected name rejects the whole request. */
  lemma RejectedAnywhere(schema: CollectionSchema, raw: seq<string>, k: int)
    requires 0 <= k < |raw| && Rejected(schema, raw[k])
    ensures !AllAccepted(schema, raw)
  {
    AllAcceptedSpec(schema, raw);
  }

  lemma RequestedStep(schema: CollectionSchema, parseIdent: string -> seq<string>, raw: seq<string>, k: int)
    requires 0 <= k < |raw|
    ensures RequestedResult(schema, parseIdent, raw[..k + 1])
              == RequestedResult(schema, parseIdent, raw[..k]) + Contribution(schema, parseIdent, raw[k]).0
    ensures RequestedUser(schema, parseIdent, raw[..k + 1])
              == RequestedUser(schema, parseIdent, raw[..k]) + Contribution(schema, parseIdent, raw[k]).1
    ensures AllAccepted(schema, raw[..k + 1]) <==> AllAccepted(schema, raw[..k]) && !Rejected(schema, raw[k])
  {
    assert raw[..k + 1][..k] == raw[..k];
  }

  /** The loop over the requested names: fills result_field and user_output_field, or fails. */
  method CollectRequested(raw: seq<string>, schema: CollectionSchema, parseIdent: string -> seq<string>, allFields: seq<string>)
    returns (ok: bool, resultField: seq<string>, userField: seq<string>)
    requires forall y :: y in allFields <==> y in UserFieldNames(schema.fields)
    ensures ok <==> AllAccepted(schema, raw)
    ensures ok ==> Lex.Sorted(resultField) && Lex.Sorted(userField)
    ensures ok ==> forall y :: y in resultField <==> y in RequestedResult(schema, parseIdent, raw)
    ensures ok ==> forall y :: y in userField <==> y in RequestedUser(schema, parseIdent, raw)
  {
    resultField, userField := [], [];
    var k := 0;
    while k < |raw|
      invariant 0 <= k <= |raw|
      invariant AllAccepted(schema, raw[..k])
      invariant Lex.Sorted(resultField) && Lex.Sorted(userField)
      invariant forall y :: y in resultField <==> y in RequestedResult(schema, parseIdent, raw[..k])
      invariant forall y :: y in userField <==> y in RequestedUser(schema, parseIdent, raw[..k])
    {
      var name := raw[k];
      RequestedStep(schema, parseIdent, raw, k);
      ghost var c := Contribution(schema, parseIdent, name);
      var outputName := StringUtil.Trim(name);
      if outputName == "*" {
        assert c == (UserFieldNames(schema.fields), UserFieldNames(schema.fields));
        resultField := InsertAll(resultField, allFields);
        userField := InsertAll(userField, allFields);
      } else if outputName in allFields {
        assert c == ({outputName}, {outputName});
        resultField := Lex.Insert(resultField, outputName);
        userField := Lex.Insert(userField, outputName);
      } else if schema.enableDynamicField {
        var path := parseIdent(name);
        if |path| == 1 && path[0] == name {
          assert path == [name];
          assert c == ({META_FIELD_NAME}, {name});
          resultField := Lex.Insert(resultField, META_FIELD_NAME);
          userField := Lex.Insert(userField, name);
        } else {
          assert c == ({}, {});
        }
      } else {
        assert Rejected(schema, raw[k]);
        RejectedAnywhere(schema, raw, k);
        return false, [], [];
      }
      assert !Rejected(schema, name);
      k := k + 1;
    }
    assert raw[..k] == raw;
    ok := true;
  }

  /** The loop over the schema's functions collecting the BM25 output names. */
  method CollectBm25Outputs(functions: seq<FunctionSchema>) returns (outs: seq<string>)
    ensures Lex.Sorted(outs) && forall y :: y in outs <==> y in Bm25Outputs(functions)
  {
    outs := [];
    var fi := 0;
    while fi < |functions|
      invariant 0 <= fi <= |functions|
      invariant Lex.Sorted(outs) && forall y :: y in outs <==> y in Bm25Outputs(functions[..fi])
    {
      var func := functions[fi];
      assert functions[..fi + 1][..fi] == functions[..fi];
      if func.ftype == BM25 {
        outs := InsertAll(outs, func.outputFieldNames);
      }
      fi := fi + 1;
    }
    assert functions[..fi] == functions;
  }

  /** std::set erasure of every element of a list, one at a time. */
  method EraseAll(s: seq<string>, xs: seq<string>) returns (r: seq<string>)
    requires Lex.Sorted(s)
    ensures Lex.Sorted(r)
    ensures forall y :: y in r <==> y in s && y !in xs
  {
    r := s;
    var e := 0;
    while e < |xs|
      invariant 0 <= e <= |xs|
      invariant Lex.Sorted(r)
      invariant forall y :: y in r <==> y in s && y !in xs[..e]
    {
      assert xs[..e + 1] == xs[..e] + [xs[e]];
      r := Lex.Erase(r, xs[e]);
      e := e + 1;
    }
    assert xs[..e] == xs;
  }

  /**
   * TranslateOutputFields: the real fields to fetch and the names to show,
   * each sorted and duplicate-free, appended to the two out lists; an
   * unservable name fails and leaves both lists untouched.
   */
  method TranslateOutputFields(raw: seq<string>, schema: CollectionSchema, addPrimary: bool,
                               parseIdent: string -> seq<string>, resultIn: seq<string>, userIn: seq<string>)
    returns (ok: bool, resultOut: seq<string>, userOut: seq<string>)
    ensures ok <==> AllAccepted(schema, raw)
    ensures !ok ==> resultOut == resultIn && userOut == userIn
    ensures ok ==> |resultOut| >= |resultIn| && resultOut[..|resultIn|] == resultIn
    ensures ok ==> |userOut| >= |userIn| && userOut[..|userIn|] == userIn
    ensures ok ==> Lex.Sorted(resultOut[|resultIn|..]) && Lex.Sorted(userOut[|userIn|..])
    ensures ok ==> forall y :: y in resultOut[|resultIn|..] <==> y in Finish(RequestedResult(schema, parseIdent, raw), schema, addPrimary)
    ensures ok ==> forall y :: y in userOut[|userIn|..] <==> y in Finish(RequestedUser(schema, parseIdent, raw), schema, addPrimary)
  {
    var pkName, allFields := ScanSchemaFields(schema.fields);
    var accepted, resultField, userField := CollectRequested(raw, schema, parseIdent, allFields);
    if !accepted {
      return false, resultIn, userIn;
    }
    var bm25Outputs := CollectBm25Outputs(schema.functions);
    if addPrimary {
      resultField := Lex.Insert(resultField, pkName);
      userField := Lex.Insert(userField, pkName);
    }
    resultField := EraseAll(resultField, bm25Outputs);
    userField := EraseAll(userField, bm25Outputs);
    resultOut := resultIn + resultField;
    userOut := userIn + userField;
    assert resultOut[|resultIn|..] == resultField && resultOut[..|resultIn|] == resultIn;
    assert userOut[|userIn|..] == userField && userOut[..|userIn|] == userIn;
    ok := true;
  }

  /** What one requested name contributes ends up in the requested sets. */
  lemma RequestedIncludes(schema: CollectionSchema, parseIdent: string -> seq<string>, raw: seq<string>, i: int)
    requires 0 <= i < |raw|
    ensures Contribution(schema, parseIdent, raw[i]).0 <= RequestedResult(schema, parseIdent, raw)
    ensures Contribution(schema, parseIdent, raw[i]).1 <= RequestedUser(schema, parseIdent, raw)
  {
    ResultIncludes(schema, parseIdent, raw, i);
    UserIncludes(schema, parseIdent, raw, i);
  }

  lemma {:induction false} ResultIncludes(schema: CollectionSchema, parseIdent: string -> seq<string>, raw: seq<string>, i: int)
    requires 0 <= i < |raw|
    ensures Contribution(schema, parseIdent, raw[i]).0 <= RequestedResult(schema, parseIdent, raw)
    decreases |raw|
  {
    if i < |raw| - 1 {
      ResultIncludes(schema, parseIdent, raw[..|raw| - 1], i);
      ResultIncludesStep(schema, parseIdent, raw, i);
    } else {
      ResultIncludesStep(schema, parseIdent, raw, i);
    }
  }

  /** The last name's part is in RequestedResult, and an earlier name's part stays in it. */
  lemma ResultIncludesStep(schema: CollectionSchema, parseIdent: string -> seq<string>, raw: seq<string>, i: int)
    requires 0 <= i < |raw|
    requires i < |raw| - 1 ==> Contribution(schema, parseIdent, raw[..|raw| - 1][i]).0 <= RequestedResult(schema, parseIdent, raw[..|raw| - 1])
    ensures Contribution(schema, parseIdent, raw[i]).0 <= RequestedResult(schema, parseIdent, raw)
  {
    var pre := raw[..|raw| - 1];
    assert RequestedResult(schema, parseIdent, raw) == RequestedResult(schema, parseIdent, pre) + Contribution(schema, parseIdent, raw[|raw| - 1]).0;
    if i < |pre| {
      assert pre[i] == raw[i];
    }
  }

  lemma {:induction false} UserIncludes(schema: CollectionSchema, parseIdent: string -> seq<string>, raw: seq<string>, i: int)
    requires 0 <= i < |raw|
    ensures Contribution(schema, parseIdent, raw[i]).1 <= RequestedUser(schema, parseIdent, raw)
    decreases |raw|
  {
    if i < |raw| - 1 {
      UserIncludes(schema, parseIdent, raw[..|raw| - 1], i);
      UserIncludesStep(schema, parseIdent, raw, i);
    } else {
      UserIncludesStep(schema, parseIdent, raw, i);
    }
  }

  /** The last name's part is in RequestedUser, and an earlier name's part stays in it. */
  lemma UserIncludesStep(schema: CollectionSchema, parseIdent: string -> seq<string>, raw: seq<string>, i: int)
    requires 0 <= i < |raw|
    requires i < |raw| - 1 ==> Contribution(schema, parseIdent, raw[..|raw| - 1][i]).1 <= RequestedUser(schema, parseIdent, raw[..|raw| - 1])
    ensures Contribution(schema, parseIdent, raw[i]).1 <= RequestedUser(schema, parseIdent, raw)
  {
    var pre := raw[..|raw| - 1];
    assert RequestedUser(schema, parseIdent, raw) == RequestedUser(schema, parseIdent, pre) + Contribution(schema, parseIdent, raw[|raw| - 1]).1;
    if i < |pre| {
      assert pre[i] == raw[i];
    }
  }

  /** Every requested field comes from one of the names asked for. */
  lemma {:induction false} RequestedComesFromNames(schema: CollectionSchema, parseIdent: string -> seq<string>, raw: seq<string>, y: string)
    requires y in RequestedResult(schema, parseIdent, raw)
    ensures exists i | 0 <= i < |raw| :: y in Contribution(schema, parseIdent, raw[i]).0
    decreases |raw|
  {
    var n := |raw| - 1;
    var pre := raw[..n];
    if y in RequestedResult(schema, parseIdent, pre) {
      RequestedComesFromNames(schema, parseIdent, pre, y);
      var i :| 0 <= i < |pre| && y in Contribution(schema, parseIdent, pre[i]).0;
      assert pre[i] == raw[i];
    } else {
      assert y in Contribution(schema, parseIdent, raw[n]).0;
    }
  }

  /** A "*" among the requested names selects every user field except BM25 outputs. */
  lemma StarSelectsAllUserFields(schema: CollectionSchema, parseIdent: string -> seq<string>, raw: seq<string>,
                                 addPrimary: bool, i: int, y: string)
    requires 0 <= i < |raw| && StringUtil.Trim(raw[i]) == "*"
    requires y in UserFieldNames(schema.fields) && y !in Bm25Outputs(schema.functions)
    ensures y in Finish(RequestedResult(schema, parseIdent, raw), schema, addPrimary)
    ensures y in Finish(RequestedUser(schema, parseIdent, raw), schema, addPrimary)
  {
    RequestedIncludes(schema, parseIdent, raw, i);
  }

  /**
   * With a dynamic field, a name that is no user field but parses as a plain
   * identifier asks for "$meta" as the result column and is itself a user output.
   */
  lemma DynamicNameGoesToMeta(schema: CollectionSchema, parseIdent: string -> seq<string>, raw: seq<string>, i: int)
    requires 0 <= i < |raw| && schema.enableDynamicField
    requires StringUtil.Trim(raw[i]) != "*" && StringUtil.Trim(raw[i]) !in UserFieldNames(schema.fields)
    requires parseIdent(raw[i]) == [raw[i]]
    ensures META_FIELD_NAME in RequestedResult(schema, parseIdent, raw)
    ensures raw[i] in RequestedUser(schema, parseIdent, raw)
  {
    RequestedIncludes(schema, parseIdent, raw, i);
  }

  /** addPrimary puts the pk among the outputs unless a BM25 function writes it. */
  lemma AddPrimaryAddsPk(schema: CollectionSchema, requested: set<string>)
    requires LastPkName(schema.fields) !in Bm25Outputs(schema.functions)
    ensures LastPkName(schema.fields) in Finish(requested, schema, true)
  {
  }

  /** Without a dynamic field, a name that is neither "*" nor a user field fails the whole request. */
  lemma UnknownNameFails(schema: CollectionSchema, raw: seq<string>, i: int)
    requires 0 <= i < |raw| && !schema.enableDynamicField
    requires StringUtil.Trim(raw[i]) != "*" && StringUtil.Trim(raw[i]) !in UserFieldNames(schema.fields)
    ensures !AllAccepted(schema, raw)
  {
    RejectedAnywhere(schema, raw, i);
  }

  /** A user field name is in all_fields exactly when some field with id >= 100 carries it. */
  lemma {:induction false} UserFieldNamesSpec(fields: seq<FieldSchema>, y: string)
    ensures y in UserFieldNames(fields) <==> exists i | 0 <= i < |fields| :: fields[i].fieldId >= START_OF_USER_FIELD_ID && fields[i].name == y
    decreases |fields|
  {
    if |fields| > 0 {
      var pre := fields[..|fields| - 1];
      UserFieldNamesSpec(pre, y);
      assert forall i | 0 <= i < |pre| :: pre[i] == fields[i];
    }
  }

  // ---------------------------------------------------------------------------
  // GetOutputFieldsIds

  /** name_ids: field name to field id, later fields overwriting earlier ones. */
  function NameIds(fields: seq<FieldSchema>): (m: map<string, int>)
    ensures forall n :: n in m <==> exists i | 0 <= i < |fields| :: fields[i].name == n
    decreases |fields|
  {
    if |fields| == 0 then map[]
    else
      var pre := fields[..|fields| - 1];
      var last := fields[|fields| - 1];
      var m := NameIds(pre);
      assert forall i | 0 <= i < |pre| :: pre[i] == fields[i];
      m[last.name := last.fieldId]
  }

  /** The id recorded for a name is that of the last field with the name. */
  lemma {:induction false} NameIdsLast(fields: seq<FieldSchema>, i: int)
    requires 0 <= i < |fields|
    requires forall j | i < j < |fields| :: fields[j].name != fields[i].name
    ensures fields[i].name in NameIds(fields) && NameIds(fields)[fields[i].name] == fields[i].fieldId
    decreases |fields|
  {
    if i < |fields| - 1 {
      var pre := fields[..|fields| - 1];
      assert pre[i] == fields[i];
      forall j | i < j < |pre| ensures pre[j].name != pre[i].name {
        assert pre[j] == fields[j];
      }
      NameIdsLast(pre, i);
    }
  }

  /**
   * GetOutputFieldsIds: appends the id of each output name in order; the first
   * unknown name stops it, leaving the ids of the names before it appended.
   */
  method GetOutputFieldsIds(outputs: seq<string>, schema: CollectionSchema, idsIn: seq<int>)
    returns (ok: bool, ids: seq<int>)
    ensures ok <==> forall i | 0 <= i < |outputs| :: outputs[i] in NameIds(schema.fields)
    ensures |ids| >= |idsIn| && ids[..|idsIn|] == idsIn
    ensures ok ==> |ids| == |idsIn| + |outputs|
    ensures !ok ==> |ids| < |idsIn| + |outputs| && outputs[|ids| - |idsIn|] !in NameIds(schema.fields)
    ensures forall j | 0 <= j < |ids| - |idsIn| ::
              j < |outputs| && outputs[j] in NameIds(schema.fields) && ids[|idsIn| + j] == NameIds(schema.fields)[outputs[j]]
  {
    ok, ids := AppendIdsOf(outputs, NameIds(schema.fields), idsIn);
  }

  /** The loop of GetOutputFieldsIds over a name-to-id map. */
  method AppendIdsOf(outputs: seq<string>, nameIds: map<string, int>, idsIn: seq<int>)
    returns (ok: bool, ids: seq<int>)
    ensures ok <==> forall i | 0 <= i < |outputs| :: outputs[i] in nameIds
    ensures |ids| >= |idsIn| && ids[..|idsIn|] == idsIn
    ensures ok ==> |ids| == |idsIn| + |outputs|
    ensures !ok ==> |ids| < |idsIn| + |outputs| && outputs[|ids| - |idsIn|] !in nameIds
    ensures forall j | 0 <= j < |ids| - |idsIn| ::
              j < |outputs| && outputs[j] in nameIds && ids[|idsIn| + j] == nameIds[outputs[j]]
  {
    ids := idsIn;
    ok := true;
    var k := 0;
    while k < |outputs| && ok
      invariant 0 <= k <= |outputs|
      invariant |ids| == |idsIn| + k && ids[..|idsIn|] == idsIn
      invariant forall j | 0 <= j < k :: outputs[j] in nameIds && ids[|idsIn| + j] == nameIds[outputs[j]]
      invariant !ok ==> k < |outputs| && outputs[k] !in nameIds
      decreases |outputs| - k, ok
    {
      if outputs[k] !in nameIds {
        ok := false;
      } else {
        ids := ids + [nameIds[outputs[k]]];
        k := k + 1;
      }
    }
  }

  // ---------------------------------------------------------------------------
  // Schema comparison, empty columns and expressions

  /**
   * CheckValueFieldEqual: both without data (an absent default reads as an
   * empty one), or the same kind with equal payloads; floats within 1e-5 and
   * doubles within 1e-7 count as equal.
   */
  predicate ValueFieldEqual(l: ValueField, r: ValueField)
  {
    match (l, r)
    case (NoValue, NoValue) => true
    case (NoValue, UnsetValue) => true
    case (UnsetValue, NoValue) => true
    case (UnsetValue, UnsetValue) => true
    case (BoolData(a), BoolData(b)) => a == b
    case (IntData(a), IntData(b)) => a == b
    case (LongData(a), LongData(b)) => a == b
    case (FloatData(a), FloatData(b)) => -0.00001 < a - b < 0.00001
    case (DoubleData(a), DoubleData(b)) => -0.0000001 < a - b < 0.0000001
    case (StringData(a), StringData(b)) => a == b
    case (BytesData(a), BytesData(b)) => a == b
    case _ => false
  }

  /** The per-field comparison of SchemaEquals. */
  predicate FieldsEqual(l: FieldSchema, r: FieldSchema)
  {
    l.fieldId == r.fieldId && l.name == r.name && l.isPrimaryKey == r.isPrimaryKey
    && l.description == r.description && l.dataType == r.dataType && l.autoId == r.autoId
    && l.isDynamic == r.isDynamic && l.elementType == r.elementType
    && ValueFieldEqual(l.defaultValue, r.defaultValue)
    && CheckParamsEqual(l.typeParams, r.typeParams) && CheckParamsEqual(l.indexParams, r.indexParams)
  }

  /**
   * SchemaEquals: same name, description, dynamic flag, field count and
   * properties, and the fields equal position by position.
   */
  predicate SchemaEquals(l: CollectionSchema, r: CollectionSchema)
  {
    l.name == r.name && l.description == r.description && l.enableDynamicField == r.enableDynamicField
    && |l.fields| == |r.fields| && CheckParamsEqual(l.properties, r.properties)
    && forall i | 0 <= i < |l.fields| :: FieldsEqual(l.fields[i], r.fields[i])
  }

  predicate DistinctParamKeys(s: CollectionSchema)
  {
    DistinctKeys(s.properties)
    && forall i | 0 <= i < |s.fields| :: DistinctKeys(s.fields[i].typeParams) && DistinctKeys(s.fields[i].indexParams)
  }

  /** A schema whose parameter lists have distinct keys equals itself: re-creating it is accepted. */
  lemma SchemaEqualsReflexive(s: CollectionSchema)
    requires DistinctParamKeys(s)
    ensures SchemaEquals(s, s)
  {
    CheckParamsEqualReflexive(s.properties);
    forall i | 0 <= i < |s.fields| ensures FieldsEqual(s.fields[i], s.fields[i]) {
      CheckParamsEqualReflexive(s.fields[i].typeParams);
      CheckParamsEqualReflexive(s.fields[i].indexParams);
    }
  }

  /** Schemas that differ in name, or in one field's type, are never equal. */
  lemma SchemaEqualsDetectsChange(l: CollectionSchema, r: CollectionSchema, i: int)
    requires 0 <= i < |l.fields| && 0 <= i < |r.fields|
    requires l.name != r.name || l.fields[i].dataType != r.fields[i].dataType
    ensures !SchemaEquals(l, r)
  {
  }

  /**
   * FillEmptyField: a column with the schema field's header and no rows; a
   * dense vector column takes GetDim and fails when that is negative, and an
   * unknown type fails.
   */
  function FillEmptyField(fs: FieldSchema): (r: (bool, FieldData))
    ensures r.1.fieldName == fs.name && r.1.dtype == fs.dataType && r.1.fieldId == fs.fieldId
    ensures r.1.isDynamic == fs.isDynamic && r.1.cells == []
    ensures r.0 <==> fs.dataType != NoneType && (IsDenseVector(fs.dataType) ==> GetDim(fs) >= 0)
    ensures r.0 && IsDenseVector(fs.dataType) ==> r.1.dim == GetDim(fs)
  {
    var header := EmptyField(fs.dataType, fs.name, fs.fieldId, fs.isDynamic);
    if IsDenseVector(fs.dataType) then
      var dim := GetDim(fs);
      if dim < 0 then (false, header) else (true, header.(dim := dim))
    else (fs.dataType != NoneType, header)
  }

  /** ParseExpr: Ok when the parser accepts the text, otherwise ParameterInvalid naming it. */
  function ParseExpr(exprStr: string, parses: bool): (s: MilvusStatus.Status)
    ensures s.IsOk() <==> parses
    ensures !parses ==> s == MilvusStatus.ParameterInvalid("Invalid expr: " + exprStr)
  {
    if parses then MilvusStatus.Ok() else MilvusStatus.ParameterInvalid("Invalid expr: " + exprStr)
  }
}
