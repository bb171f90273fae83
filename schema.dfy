// The protobuf messages the core works on (schema.proto, common.proto,
// segcore.proto, plan.proto), as plain values, and the shared constants.
module Schema {

  /** schema.DataType. */
  datatype DType =
    | NoneType | Bool | Int8 | Int16 | Int32 | Int64 | Float | Double
    | String | VarChar | Array | JSON
    | BinaryVector | FloatVector | Float16Vector | BFloat16Vector | SparseFloatVector

  /** The wire number of each data type. */
  function DTypeNumber(t: DType): int
  {
    match t
    case NoneType => 0
    case Bool => 1
    case Int8 => 2
    case Int16 => 3
    case Int32 => 4
    case Int64 => 5
    case Float => 10
    case Double => 11
    case String => 20
    case VarChar => 21
    case Array => 22
    case JSON => 23
    case BinaryVector => 100
    case FloatVector => 101
    case Float16Vector => 102
    case BFloat16Vector => 103
    case SparseFloatVector => 104
  }

  /** DataType_Name: the enum value's name. */
  function DTypeName(t: DType): string
  {
    match t
    case NoneType => "None"
    case Bool => "Bool"
    case Int8 => "Int8"
    case Int16 => "Int16"
    case Int32 => "Int32"
    case Int64 => "Int64"
    case Float => "Float"
    case Double => "Double"
    case String => "String"
    case VarChar => "VarChar"
    case Array => "Array"
    case JSON => "JSON"
    case BinaryVector => "BinaryVector"
    case FloatVector => "FloatVector"
    case Float16Vector => "Float16Vector"
    case BFloat16Vector => "BFloat16Vector"
    case SparseFloatVector => "SparseFloatVector"
  }

  /** common.KeyValuePair. */
  datatype KV = KV(key: string, value: string)

  /**
   * schema.ValueField: the oneof of a field's default value. NoValue is a
   * field without a default_value; UnsetValue is a default_value whose oneof
   * holds nothing.
   */
  datatype ValueField =
    | NoValue
    | UnsetValue
    | BoolData(b: bool)
    | IntData(i: int)
    | LongData(l: int)
    | FloatData(f: real)
    | DoubleData(d: real)
    | StringData(s: string)
    | BytesData(bytes: seq<int>)

  datatype FunctionType = UnknownFunction | BM25

  /** schema.FunctionSchema. */
  datatype FunctionSchema = FunctionSchema(
    name: string,
    id: int,
    description: string,
    ftype: FunctionType,
    inputFieldNames: seq<string>,
    inputFieldIds: seq<int>,
    outputFieldNames: seq<string>,
    outputFieldIds: seq<int>,
    params: seq<KV>)

  /** schema.FieldSchema. */
  datatype FieldSchema = FieldSchema(
    fieldId: int,
    name: string,
    isPrimaryKey: bool,
    description: string,
    dataType: DType,
    typeParams: seq<KV>,
    indexParams: seq<KV>,
    autoId: bool,
    isDynamic: bool,
    isPartitionKey: bool,
    isClusteringKey: bool,
    nullable: bool,
    elementType: DType,
    defaultValue: ValueField)

  /** schema.CollectionSchema. */
  datatype CollectionSchema = CollectionSchema(
    name: string,
    description: string,
    autoId: bool,
    fields: seq<FieldSchema>,
    enableDynamicField: bool,
    properties: seq<KV>,
    functions: seq<FunctionSchema>)

  /** One 8-byte record of a sparse row: a uint32 dimension and its float value. */
  datatype SparseEntry = SparseEntry(key: int, value: real)

  /** One element of a column: what the repeated payload of a FieldData stores. */
  datatype Cell =
    | BoolCell(b: bool)
    | IntCell(i: int)
    | RealCell(r: real)
    | TextCell(s: string)
    | ByteCell(byte: int)
    | ArrayCell(items: seq<Cell>)
    | SparseCell(entries: seq<SparseEntry>)

  /**
   * schema.FieldData: a column. Dense vectors store `dim` floats (FloatVector),
   * dim/8 bytes (BinaryVector) or 2*dim bytes (Float16/BFloat16) per row in one
   * flat payload; every other type stores one cell per row.
   */
  datatype FieldData = FieldData(
    dtype: DType,
    fieldName: string,
    fieldId: int,
    isDynamic: bool,
    dim: int,
    sparseDim: int,
    elementType: DType,
    cells: seq<Cell>)

  /** A FieldData with only a header: what `set_type`, `set_field_id`, ... build before data arrives. */
  function EmptyField(dtype: DType, name: string, id: int, isDynamic: bool): FieldData
  {
    FieldData(dtype, name, id, isDynamic, 0, 0, NoneType, [])
  }

  /** segcore.FieldIndexMeta. */
  datatype FieldIndexMeta = FieldIndexMeta(
    fieldId: int,
    collectionId: int,
    indexName: string,
    typeParams: seq<KV>,
    indexParams: seq<KV>,
    isAutoIndex: bool,
    userIndexParams: seq<KV>)

  /** common.PlaceholderType. */
  datatype PlaceholderType =
    | PhNone | PhBinaryVector | PhFloatVector | PhFloat16Vector | PhBFloat16Vector
    | PhSparseFloatVector | PhInt64 | PhVarChar

  /**
   * common.PlaceholderValue: a tag, a type and one value per query. A value
   * that is text (a VarChar query) is a TextCell; a serialized sparse row is
   * the SparseCell of its entries.
   */
  datatype Placeholder = Placeholder(tag: string, ptype: PlaceholderType, values: seq<Cell>)

  /** common.PlaceholderGroup. */
  datatype PlaceholderGroup = PlaceholderGroup(placeholders: seq<Placeholder>)

  // Constants of the core (common.h).
  const START_OF_USER_FIELD_ID: int := 100
  const ROW_ID_FIELD: int := 0
  const TIMESTAMP_FIELD: int := 1
  const ROW_ID_FIELD_NAME: string := "RowID"
  const TIMESTAMP_FIELD_NAME: string := "Timestamp"
  const META_FIELD_NAME: string := "$meta"
  const PLACEHOLDER_TAG: string := "$0"
  const TOPK_LIMIT: int := 16384
  const SCHEMA_FIELD_LIMIT: int := 64
  const MAX_LENGTH_LIMIT: int := 65535
  const MAX_INDEX_ROW: int := 1000000
  const DIM_KEY: string := "dim"
  const METRIC_TYPE_KEY: string := "metric_type"
  const INDEX_TYPE_KEY: string := "index_type"
  const MAX_LENGTH_KEY: string := "max_length"
  const TOPK_KEY: string := "topk"
  const OFFSET_KEY: string := "offset"
  const LIMIT_KEY: string := "limit"
  const ROUND_DECIMAL_KEY: string := "round_decimal"
  const SEARCH_PARAM_KEY: string := "params"
  const GROUP_BY_FIELD_KEY: string := "group_by_field"
  const ANN_FIELD_KEY: string := "anns_field"
  const REDUCE_STOP_FOR_BEST_KEY: string := "reduce_stop_for_best"
  const COUNT_STR: string := "count(*)"
}
