// create_index_task, the parts that only compute: the per-type index
// checkers, the index_params map built from a CreateIndexRequest, the default
// parameters ParseIndexParams fills in and CheckTrain.
module IndexCheck {
  import opened Wrappers
  import opened Schema
  import opened MilvusStatus
  import StdMap
  import SchemaUtil
  import Decimal

  // Metric types.
  const L2: string := "L2"
  const IP: string := "IP"
  const COSINE: string := "COSINE"
  const HAMMING: string := "HAMMING"
  const JACCARD: string := "JACCARD"
  const SUBSTRUCTURE: string := "SUBSTRUCTURE"
  const SUPERSTRUCTURE: string := "SUPERSTRUCTURE"
  const BM25_METRIC: string := "BM25"

  // Index types.
  const AUTOINDEX: string := "AUTOINDEX"
  const FLAT: string := "FLAT"
  const BIN_FLAT: string := "BIN_FLAT"
  const IVF_FLAT: string := "IVF_FLAT"
  const SPARSE_INVERTED_INDEX: string := "SPARSE_INVERTED_INDEX"
  const SPARSE_WAND: string := "SPARSE_WAND"
  const DEFAULT_STRING_INDEX_TYPE: string := "Trie"
  const INVERTED_INDEX_TYPE: string := "INVERTED"
  const DEFAULT_ARITHMETIC_INDEX_TYPE: string := "STL_SORT"

  // Parameter keys.
  const INDEX_PARAMS_KEY: string := "params"
  const BM25_K1_KEY: string := "bm25_k1"
  const BM25_B_KEY: string := "bm25_b"
  const BM25_AVGDL_KEY: string := "bm25_avgdl"

  /** AutoIndexConfig's defaults, in the key order of their std::map. */
  const AUTO_INDEX_PARAMS: seq<KV> :=
    [KV("M", "18"), KV("efConstruction", "240"), KV(INDEX_TYPE_KEY, AUTOINDEX), KV(METRIC_TYPE_KEY, IP)]

  /** How a call ends: with a Status, or with a C++ exception that nothing on the path catches. */
  datatype Verdict = Returned(status: Status) | Thrown

  // ---------------------------------------------------------------------------
  // Index checkers

  /** What an IndexChecker subclass sets up: the dimension range and the accepted index and metric types. */
  datatype IndexChecker = IndexChecker(needCheckDim: bool, minDim: int, maxDim: int,
                                       supportedIndex: seq<string>, supportedMetric: seq<string>)

  /** The checker the free function Check constructs for each field type. */
  function CheckerFor(t: DType): Option<IndexChecker>
  {
    match t
    case FloatVector => Some(IndexChecker(true, 2, 32768, [FLAT, IVF_FLAT, AUTOINDEX], [L2, IP, COSINE]))
    case Float16Vector => Some(IndexChecker(true, 2, 32768, [FLAT], [L2, IP, COSINE]))
    case BFloat16Vector => Some(IndexChecker(true, 2, 32768, [FLAT], [L2, IP, COSINE]))
    case BinaryVector => Some(IndexChecker(true, 2, 32768, [BIN_FLAT], [HAMMING, JACCARD, SUBSTRUCTURE, SUPERSTRUCTURE]))
    case SparseFloatVector => Some(IndexChecker(false, -1, -1, [SPARSE_INVERTED_INDEX, SPARSE_WAND], [IP, BM25_METRIC]))
    case _ => None
  }

  /** IndexChecker::Check: the dimension (unless the checker is exempt), then the index type, then the metric. */
  function RunChecker(c: IndexChecker, indexType: string, metric: string, dim: int): (s: Status)
    ensures s.IsOk() <==> (!c.needCheckDim || c.minDim <= dim <= c.maxDim)
                          && indexType in c.supportedIndex && metric in c.supportedMetric
    ensures s.IsErr() ==> s.code == CodeValue(ErrUndefined)
  {
    if c.needCheckDim && (dim < c.minDim || dim > c.maxDim) then Undefined("")
    else if indexType !in c.supportedIndex then Undefined("")
    else if metric !in c.supportedMetric then Undefined("")
    else Ok()
  }

  /** The combinations local mode supports: the table at the head of create_index_task.cpp, with sparse dims unchecked. */
  predicate Supported(t: DType, indexType: string, metric: string, dim: int)
  {
    match t
    case FloatVector => 2 <= dim <= 32768 && indexType in {FLAT, IVF_FLAT, AUTOINDEX} && metric in {L2, IP, COSINE}
    case Float16Vector => 2 <= dim <= 32768 && indexType == FLAT && metric in {L2, IP, COSINE}
    case BFloat16Vector => 2 <= dim <= 32768 && indexType == FLAT && metric in {L2, IP, COSINE}
    case BinaryVector =>
      2 <= dim <= 32768 && indexType == BIN_FLAT && metric in {HAMMING, JACCARD, SUBSTRUCTURE, SUPERSTRUCTURE}
    case SparseFloatVector => indexType in {SPARSE_INVERTED_INDEX, SPARSE_WAND} && metric in {IP, BM25_METRIC}
    case _ => false
  }

  /**
   * Check: accepts exactly the supported combinations; a vector type's
   * refusal is Undefined, any other field type is ParameterInvalid.
   */
  function Check(t: DType, indexType: string, metric: string, dim: int): (s: Status)
    ensures s.IsOk() <==> Supported(t, indexType, metric, dim)
    ensures s.IsErr() ==> s.code == if SchemaUtil.IsVectorField(t) then CodeValue(ErrUndefined) else CodeValue(ErrParameterInvalid)
  {
    match CheckerFor(t)
    case Some(c) => RunChecker(c, indexType, metric, dim)
    case None => ParameterInvalid("")
  }

  /** A sparse field's dimension plays no part in the check. */
  lemma SparseDimIgnored(indexType: string, metric: string, d1: int, d2: int)
    ensures Check(SparseFloatVector, indexType, metric, d1) == Check(SparseFloatVector, indexType, metric, d2)
  {
  }

  // ---------------------------------------------------------------------------
  // index_params from the request

  /** A member of the JSON object in a "params" extra parameter: its key, whether its value is a string, and dump(). */
  datatype JsonItem = JsonItem(key: string, isString: bool, dump: string)

  /** The map after the first n members of a parsed "params" object: other values are stored dumped, strings skipped. */
  function JsonItemsUpTo(m: seq<KV>, items: seq<JsonItem>, n: nat): (r: seq<KV>)
    requires StdMap.Valid(m) && n <= |items|
    ensures StdMap.Valid(r)
  {
    if n == 0 then m
    else
      var r := JsonItemsUpTo(m, items, n - 1);
      if items[n - 1].isString then r else StdMap.Assign(r, items[n - 1].key, items[n - 1].dump)
  }

  /**
   * index_params after the first n extra parameters: "params" is parsed as
   * JSON by `parseJson` (None when nlohmann::json::parse fails, which fails
   * the request) and merged; any other pair is stored under its key.
   */
  function RequestParamsUpTo(extra: seq<KV>, n: nat, parseJson: string -> Option<seq<JsonItem>>): (r: Option<seq<KV>>)
    requires n <= |extra|
    ensures r.Some? ==> StdMap.Valid(r.value)
  {
    if n == 0 then Some([])
    else
      match RequestParamsUpTo(extra, n - 1, parseJson)
      case None => None
      case Some(m) =>
        if extra[n - 1].key == INDEX_PARAMS_KEY then
          match parseJson(extra[n - 1].value)
          case None => None
          case Some(items) => Some(JsonItemsUpTo(m, items, |items|))
        else Some(StdMap.Assign(m, extra[n - 1].key, extra[n - 1].value))
  }

  /** A "params" value that does not parse fails the request whatever follows it. */
  lemma {:induction false} RequestParamsFailureStays(extra: seq<KV>, i: nat, n: nat, parseJson: string -> Option<seq<JsonItem>>)
    requires i <= n <= |extra| && RequestParamsUpTo(extra, i, parseJson).None?
    ensures RequestParamsUpTo(extra, n, parseJson).None?
    decreases n - i
  {
    if i < n {
      RequestParamsFailureStays(extra, i, n - 1, parseJson);
    }
  }

  /** Without a "params" entry the map is the std::map the pairs fill in turn: the last value of a key wins. */
  lemma {:induction false} PlainParamsLastWins(extra: seq<KV>, n: nat, parseJson: string -> Option<seq<JsonItem>>)
    requires n <= |extra|
    requires forall i | 0 <= i < n :: extra[i].key != INDEX_PARAMS_KEY
    ensures RequestParamsUpTo(extra, n, parseJson).Some?
    ensures forall k :: StdMap.Find(RequestParamsUpTo(extra, n, parseJson).value, k)
                        == if k in SchemaUtil.KVMapOf(extra[..n]) then Some(SchemaUtil.KVMapOf(extra[..n])[k]) else None
  {
    if n > 0 {
      PlainParamsLastWins(extra, n - 1, parseJson);
      assert extra[..n][..n - 1] == extra[..n - 1];
    }
  }

  // ---------------------------------------------------------------------------
  // Defaults

  /** The auto-index step applies: a vector field with no index type, or AUTOINDEX. */
  predicate AutoApplies(t: DType, m: seq<KV>)
  {
    SchemaUtil.IsVectorField(t)
    && (StdMap.Find(m, INDEX_TYPE_KEY).None? || StdMap.Find(m, INDEX_TYPE_KEY) == Some(AUTOINDEX))
  }

  /** The metric AddAutoIndexParams settles on: the user's, else the auto-index default. */
  function AutoMetric(m: seq<KV>): string
  {
    match StdMap.Find(m, METRIC_TYPE_KEY)
    case Some(v) => v
    case None => IP
  }

  /** The map after AddAutoIndexParams: the defaults inserted, then metric_type set. */
  function AutoParams(m: seq<KV>): (r: seq<KV>)
    requires StdMap.Valid(m)
    ensures StdMap.Valid(r)
  {
    StdMap.Assign(StdMap.InsertRange(m, AUTO_INDEX_PARAMS), METRIC_TYPE_KEY, AutoMetric(m))
  }

  /** The value AutoIndexConfig gives each key. */
  lemma AutoIndexParamsValues(k: string)
    ensures SchemaUtil.FirstValue(AUTO_INDEX_PARAMS, k) ==
            if k == "M" then Some("18") else if k == "efConstruction" then Some("240")
            else if k == INDEX_TYPE_KEY then Some(AUTOINDEX) else if k == METRIC_TYPE_KEY then Some(IP) else None
  {
    var p := AUTO_INDEX_PARAMS;
    assert p[1..][1..][1..][1..] == [];
    assert SchemaUtil.FirstValue(p[1..][1..][1..], k) == if k == METRIC_TYPE_KEY then Some(IP) else None;
    assert SchemaUtil.FirstValue(p[1..][1..], k) ==
           if k == INDEX_TYPE_KEY then Some(AUTOINDEX) else SchemaUtil.FirstValue(p[1..][1..][1..], k);
  }

  /** The auto-index defaults only fill keys the user left out, and the user's metric stays. */
  lemma AutoParamsKeepsUserKeys(m: seq<KV>, k: string)
    requires StdMap.Valid(m)
    ensures StdMap.Find(AutoParams(m), k) ==
            if k == METRIC_TYPE_KEY then Some(AutoMetric(m))
            else if StdMap.Find(m, k).Some? then StdMap.Find(m, k)
            else SchemaUtil.FirstValue(AUTO_INDEX_PARAMS, k)
  {
    StdMap.InsertRangeFind(m, AUTO_INDEX_PARAMS, k);
  }

  /** The metric used when none is given: IP for float vectors, JACCARD for binary, IP for sparse. */
  function DefaultMetric(t: DType): string
    requires SchemaUtil.IsVectorField(t)
  {
    match t
    case FloatVector => IP
    case BFloat16Vector => IP
    case Float16Vector => IP
    case BinaryVector => JACCARD
    case SparseFloatVector => IP
  }

  /** The metric-default step: only a missing metric_type is written. */
  function MetricDefault(t: DType, a: seq<KV>): (r: seq<KV>)
    requires SchemaUtil.IsVectorField(t) && StdMap.Valid(a)
    ensures StdMap.Valid(r)
    ensures forall k | k != METRIC_TYPE_KEY :: StdMap.Find(r, k) == StdMap.Find(a, k)
    ensures StdMap.Find(r, METRIC_TYPE_KEY) ==
            if StdMap.Find(a, METRIC_TYPE_KEY).Some? then StdMap.Find(a, METRIC_TYPE_KEY) else Some(DefaultMetric(t))
  {
    if StdMap.Find(a, METRIC_TYPE_KEY).None? then StdMap.Assign(a, METRIC_TYPE_KEY, DefaultMetric(t)) else a
  }

  /** The BM25 defaults k1 = 1.2, b = 0.75, avgdl = 1000, each only where the user gave none. */
  function Bm25Defaults(m: seq<KV>): (r: seq<KV>)
    requires StdMap.Valid(m)
    ensures StdMap.Valid(r)
    ensures forall k | k != BM25_K1_KEY && k != BM25_B_KEY && k != BM25_AVGDL_KEY :: StdMap.Find(r, k) == StdMap.Find(m, k)
    ensures forall k | k == BM25_K1_KEY || k == BM25_B_KEY || k == BM25_AVGDL_KEY ::
              StdMap.Find(r, k) == if StdMap.Find(m, k).Some? then StdMap.Find(m, k)
                                   else Some(if k == BM25_K1_KEY then "1.2" else if k == BM25_B_KEY then "0.75" else "1000")
  {
    StdMap.InsertNew(StdMap.InsertNew(StdMap.InsertNew(m, BM25_K1_KEY, "1.2"), BM25_B_KEY, "0.75"), BM25_AVGDL_KEY, "1000")
  }

  /** The auto-index step of the vector branch. */
  function AutoStep(t: DType, m: seq<KV>): (r: seq<KV>)
    requires StdMap.Valid(m)
    ensures StdMap.Valid(r)
  {
    if AutoApplies(t, m) then AutoParams(m) else m
  }

  /** The BM25 step of the vector branch: the BM25 defaults apply under metric BM25 only. */
  function Bm25Step(b: seq<KV>): (r: seq<KV>)
    requires StdMap.Valid(b)
    ensures StdMap.Valid(r)
  {
    if StdMap.Lookup(b, METRIC_TYPE_KEY) == BM25_METRIC then Bm25Defaults(b) else b
  }

  /** The vector branch of ParseIndexParams: auto-index step, metric default, then the BM25 defaults. */
  function VectorDefaults(t: DType, m: seq<KV>): (r: seq<KV>)
    requires SchemaUtil.IsVectorField(t) && StdMap.Valid(m)
    ensures StdMap.Valid(r)
  {
    Bm25Step(MetricDefault(t, AutoStep(t, m)))
  }

  predicate ValidateStringIndexType(indexType: string)
  {
    indexType == DEFAULT_STRING_INDEX_TYPE || indexType == "marisa-trie" || indexType == INVERTED_INDEX_TYPE
  }

  /** ValidateArithmeticIndexType as written: it lists the string default Trie, not STL_SORT. */
  predicate ValidateArithmeticIndexTypeAsWritten(indexType: string)
  {
    indexType == DEFAULT_STRING_INDEX_TYPE || indexType == "Asceneding" || indexType == INVERTED_INDEX_TYPE
  }

  /** ValidateArithmeticIndexType with the arithmetic default STL_SORT in the place of Trie. */
  predicate ValidateArithmeticIndexType(indexType: string)
  {
    indexType == DEFAULT_ARITHMETIC_INDEX_TYPE || indexType == "Asceneding" || indexType == INVERTED_INDEX_TYPE
  }

  predicate IsArithmetic(t: DType)
  {
    t == Float || t == Double || t == Int16 || t == Int8 || t == Int32 || t == Int64
  }

  /** The scalar branch of ParseIndexParams: by field type, fill in or validate the index type. */
  function ScalarDefaults(t: DType, m: seq<KV>): (r: Outcome<seq<KV>>)
    requires StdMap.Valid(m)
    ensures r.Success? ==> StdMap.Valid(r.value)
    ensures r.Failure? ==> r.status.code == CodeValue(ErrParameterInvalid)
  {
    var it := StdMap.Find(m, INDEX_TYPE_KEY);
    if t == VarChar then
      if it.None? then Success(StdMap.Assign(m, INDEX_TYPE_KEY, DEFAULT_STRING_INDEX_TYPE))
      else if !ValidateStringIndexType(it.value) then Failure(ParameterInvalid(""))
      else Success(m)
    else if IsArithmetic(t) then
      if it.None? then Success(StdMap.Assign(m, INDEX_TYPE_KEY, DEFAULT_ARITHMETIC_INDEX_TYPE))
      else if !ValidateArithmeticIndexType(it.value) then Failure(ParameterInvalid(""))
      else Success(m)
    else if t == Bool then
      if it.None? then Failure(ParameterInvalid(""))
      else if it.value != INVERTED_INDEX_TYPE then Failure(ParameterInvalid(""))
      else Success(m)
    else Failure(ParameterInvalid(""))
  }

  /** The defaults step for any field type: the vector branch cannot fail. */
  function Defaulted(t: DType, m: seq<KV>): (r: Outcome<seq<KV>>)
    requires StdMap.Valid(m)
    ensures r.Success? ==> StdMap.Valid(r.value)
    ensures SchemaUtil.IsVectorField(t) ==> r.Success?
  {
    if SchemaUtil.IsVectorField(t) then Success(VectorDefaults(t, m)) else ScalarDefaults(t, m)
  }

  /** The parameter keys the defaults touch are distinct strings. */
  lemma KeysDistinct()
    ensures INDEX_TYPE_KEY != METRIC_TYPE_KEY
    ensures INDEX_TYPE_KEY != BM25_K1_KEY && INDEX_TYPE_KEY != BM25_B_KEY && INDEX_TYPE_KEY != BM25_AVGDL_KEY
    ensures METRIC_TYPE_KEY != BM25_K1_KEY && METRIC_TYPE_KEY != BM25_B_KEY && METRIC_TYPE_KEY != BM25_AVGDL_KEY
  {
    assert INDEX_TYPE_KEY[0] == 'i' && METRIC_TYPE_KEY[0] == 'm';
    assert BM25_K1_KEY[0] == 'b' && BM25_B_KEY[0] == 'b' && BM25_AVGDL_KEY[0] == 'b';
  }

  /** The auto-index step keeps the user's index type, or sets AUTOINDEX. */
  lemma AutoStepIndexType(t: DType, m: seq<KV>)
    requires SchemaUtil.IsVectorField(t) && StdMap.Valid(m)
    ensures StdMap.Find(AutoStep(t, m), INDEX_TYPE_KEY) ==
            if StdMap.Find(m, INDEX_TYPE_KEY).Some? then StdMap.Find(m, INDEX_TYPE_KEY) else Some(AUTOINDEX)
  {
    if AutoApplies(t, m) {
      AutoParamsKeepsUserKeys(m, INDEX_TYPE_KEY);
      AutoIndexParamsValues(INDEX_TYPE_KEY);
    }
  }

  /** The auto-index step keeps the user's metric, or sets IP. */
  lemma AutoStepMetric(t: DType, m: seq<KV>)
    requires StdMap.Valid(m)
    ensures StdMap.Find(AutoStep(t, m), METRIC_TYPE_KEY) ==
            if StdMap.Find(m, METRIC_TYPE_KEY).Some? then StdMap.Find(m, METRIC_TYPE_KEY)
            else if AutoApplies(t, m) then Some(IP) else None
  {
    if AutoApplies(t, m) {
      AutoParamsKeepsUserKeys(m, METRIC_TYPE_KEY);
    }
  }

  /** The auto-index step leaves the BM25 keys alone. */
  lemma AutoStepBm25Keys(t: DType, m: seq<KV>, k: string)
    requires StdMap.Valid(m)
    requires k == BM25_K1_KEY || k == BM25_B_KEY || k == BM25_AVGDL_KEY
    ensures StdMap.Find(AutoStep(t, m), k) == StdMap.Find(m, k)
  {
    if AutoApplies(t, m) {
      KeysDistinct();
      AutoParamsKeepsUserKeys(m, k);
      AutoIndexParamsValues(k);
    }
  }

  /** The BM25 step leaves index_type and metric_type alone. */
  lemma Bm25StepKeeps(b: seq<KV>, k: string)
    requires StdMap.Valid(b)
    requires k == INDEX_TYPE_KEY || k == METRIC_TYPE_KEY
    ensures StdMap.Find(Bm25Step(b), k) == StdMap.Find(b, k)
  {
    KeysDistinct();
  }

  /** The vector defaults always leave an index type: the user's, or AUTOINDEX. */
  lemma VectorDefaultsIndexType(t: DType, m: seq<KV>)
    requires SchemaUtil.IsVectorField(t) && StdMap.Valid(m)
    ensures StdMap.Find(VectorDefaults(t, m), INDEX_TYPE_KEY) ==
            if StdMap.Find(m, INDEX_TYPE_KEY).Some? then StdMap.Find(m, INDEX_TYPE_KEY) else Some(AUTOINDEX)
  {
    AutoStepIndexType(t, m);
    KeysDistinct();
    Bm25StepKeeps(MetricDefault(t, AutoStep(t, m)), INDEX_TYPE_KEY);
  }

  /** A scalar default that succeeds has an index type. */
  lemma ScalarDefaultsSetIndexType(t: DType, m: seq<KV>)
    requires StdMap.Valid(m) && ScalarDefaults(t, m).Success?
    ensures StdMap.Find(ScalarDefaults(t, m).value, INDEX_TYPE_KEY).Some?
  {
  }

  /** After the defaults the index type is always set (so "IndexType not specified" cannot fire), and for vectors the metric. */
  lemma DefaultedSetsIndexType(t: DType, m: seq<KV>)
    requires StdMap.Valid(m) && Defaulted(t, m).Success?
    ensures StdMap.Find(Defaulted(t, m).value, INDEX_TYPE_KEY).Some?
    ensures SchemaUtil.IsVectorField(t) ==> StdMap.Find(Defaulted(t, m).value, METRIC_TYPE_KEY).Some?
  {
    if SchemaUtil.IsVectorField(t) {
      VectorDefaultsIndexType(t, m);
      VectorMetric(t, m);
    } else {
      ScalarDefaultsSetIndexType(t, m);
    }
  }

  /** The metric after the vector defaults: the user's, else IP under auto-index, else the type's default. */
  lemma VectorMetric(t: DType, m: seq<KV>)
    requires SchemaUtil.IsVectorField(t) && StdMap.Valid(m)
    ensures StdMap.Find(VectorDefaults(t, m), METRIC_TYPE_KEY) ==
            if StdMap.Find(m, METRIC_TYPE_KEY).Some? then StdMap.Find(m, METRIC_TYPE_KEY)
            else if AutoApplies(t, m) then Some(IP)
            else Some(DefaultMetric(t))
  {
    AutoStepMetric(t, m);
    Bm25StepKeeps(MetricDefault(t, AutoStep(t, m)), METRIC_TYPE_KEY);
  }

  /** Under metric BM25 the three BM25 keys are present and keep any value the user gave. */
  lemma Bm25DefaultsKept(t: DType, m: seq<KV>, k: string)
    requires SchemaUtil.IsVectorField(t) && StdMap.Valid(m)
    requires StdMap.Lookup(VectorDefaults(t, m), METRIC_TYPE_KEY) == BM25_METRIC
    requires k == BM25_K1_KEY || k == BM25_B_KEY || k == BM25_AVGDL_KEY
    ensures StdMap.Find(VectorDefaults(t, m), k) ==
            if StdMap.Find(m, k).Some? then StdMap.Find(m, k)
            else Some(if k == BM25_K1_KEY then "1.2" else if k == BM25_B_KEY then "0.75" else "1000")
  {
    AutoStepBm25Keys(t, m, k);
    KeysDistinct();
    var b := MetricDefault(t, AutoStep(t, m));
    assert StdMap.Find(b, k) == StdMap.Find(m, k);
    Bm25StepKeeps(b, METRIC_TYPE_KEY);
    assert StdMap.Lookup(b, METRIC_TYPE_KEY) == BM25_METRIC;
  }

  /**
   * The scalar rules: VarChar defaults to Trie and numbers to STL_SORT; an
   * explicit index type must be on the type's list; Bool needs INVERTED;
   * other scalar types have no index.
   */
  lemma ScalarRules(t: DType, m: seq<KV>)
    requires StdMap.Valid(m) && !SchemaUtil.IsVectorField(t)
    ensures (t == VarChar || IsArithmetic(t)) && StdMap.Find(m, INDEX_TYPE_KEY).None? ==>
              ScalarDefaults(t, m).Success?
              && StdMap.Find(ScalarDefaults(t, m).value, INDEX_TYPE_KEY)
                 == Some(if t == VarChar then DEFAULT_STRING_INDEX_TYPE else DEFAULT_ARITHMETIC_INDEX_TYPE)
    ensures t == VarChar && StdMap.Find(m, INDEX_TYPE_KEY).Some? ==>
              (ScalarDefaults(t, m).Success? <==> ValidateStringIndexType(StdMap.Find(m, INDEX_TYPE_KEY).value))
    ensures IsArithmetic(t) && StdMap.Find(m, INDEX_TYPE_KEY).Some? ==>
              (ScalarDefaults(t, m).Success? <==> ValidateArithmeticIndexType(StdMap.Find(m, INDEX_TYPE_KEY).value))
    ensures t == Bool ==> (ScalarDefaults(t, m).Success? <==> StdMap.Find(m, INDEX_TYPE_KEY) == Some(INVERTED_INDEX_TYPE))
    ensures t != VarChar && !IsArithmetic(t) && t != Bool ==> ScalarDefaults(t, m).Failure?
    ensures ScalarDefaults(t, m).Success? && StdMap.Find(m, INDEX_TYPE_KEY).Some? ==> ScalarDefaults(t, m).value == m
  {
  }

  /** The list as written refuses STL_SORT, the very index type the same branch fills in for a numeric field. */
  lemma ArithmeticListAsWritten()
    ensures ScalarDefaults(Int64, []) == Success([KV(INDEX_TYPE_KEY, DEFAULT_ARITHMETIC_INDEX_TYPE)])
    ensures !ValidateArithmeticIndexTypeAsWritten(DEFAULT_ARITHMETIC_INDEX_TYPE)
    ensures ValidateArithmeticIndexTypeAsWritten(DEFAULT_STRING_INDEX_TYPE)
    ensures ValidateArithmeticIndexType(DEFAULT_ARITHMETIC_INDEX_TYPE)
  {
  }

  // ---------------------------------------------------------------------------
  // CheckTrain

  /**
   * FillDimension: a vector field must carry a dim in its schema params; a
   * dim in index_params must equal it; the schema's dim is then written.
   */
  function FillDimension(field: FieldSchema, m: seq<KV>): (r: Option<seq<KV>>)
    requires StdMap.Valid(m)
    ensures r.Some? ==> StdMap.Valid(r.value)
    ensures !SchemaUtil.IsVectorField(field.dataType) ==> r == Some(m)
    ensures SchemaUtil.IsVectorField(field.dataType) ==>
              (r.Some? <==> SchemaUtil.FindDimFromFieldParams(field).Some?
                            && (StdMap.Find(m, DIM_KEY).None? || StdMap.Find(m, DIM_KEY) == SchemaUtil.FindDimFromFieldParams(field)))
    ensures SchemaUtil.IsVectorField(field.dataType) && r.Some? ==>
              forall k :: StdMap.Find(r.value, k) == if k == DIM_KEY then SchemaUtil.FindDimFromFieldParams(field) else StdMap.Find(m, k)
  {
    if !SchemaUtil.IsVectorField(field.dataType) then Some(m)
    else
      match SchemaUtil.FindDimFromFieldParams(field)
      case None => None
      case Some(dim) =>
        if StdMap.Find(m, DIM_KEY).Some? && StdMap.Find(m, DIM_KEY).value != dim then None
        else Some(StdMap.Assign(m, DIM_KEY, dim))
  }

  /** operator[] read: a missing key is inserted with "" (std::map creates it). */
  function Touch(m: seq<KV>, k: string): (r: seq<KV>)
    requires StdMap.Valid(m)
    ensures StdMap.Valid(r)
  {
    StdMap.InsertNew(m, k, "")
  }

  /** The BM25 checks of CheckTrain: avgdl a number, k1 a number in [0, 3], b a number in [0, 1]. */
  predicate Bm25ParamsOk(m: seq<KV>, toNumber: string -> Option<real>)
  {
    var avgdl := toNumber(StdMap.Lookup(m, BM25_AVGDL_KEY));
    var k1 := toNumber(StdMap.Lookup(m, BM25_K1_KEY));
    var b := toNumber(StdMap.Lookup(m, BM25_B_KEY));
    avgdl.Some? && k1.Some? && 0.0 <= k1.value <= 3.0 && b.Some? && 0.0 <= b.value <= 1.0
  }

  /** How CheckTrain ends and the map it leaves behind. */
  datatype TrainResult = TrainResult(verdict: Verdict, params: seq<KV>)

  /** What CheckTrain accepts, stated over the map it is given. */
  predicate TrainAccepts(field: FieldSchema, m: seq<KV>, toNumber: string -> Option<real>)
    requires StdMap.Valid(m)
  {
    var t := field.dataType;
    StdMap.Find(m, INDEX_TYPE_KEY).Some?
    && (!SchemaUtil.IsVectorField(t)
        || (t == SparseFloatVector
            && (StdMap.Lookup(m, METRIC_TYPE_KEY) == BM25_METRIC ==> Bm25ParamsOk(m, toNumber))
            && Supported(t, StdMap.Find(m, INDEX_TYPE_KEY).value, StdMap.Lookup(m, METRIC_TYPE_KEY), -1))
        || (SchemaUtil.IsDenseVector(t)
            && FillDimension(field, m).Some?
            && Decimal.Stoll(SchemaUtil.FindDimFromFieldParams(field).value).Parsed?
            && StdMap.Find(m, METRIC_TYPE_KEY).Some?
            && Supported(t, StdMap.Find(m, INDEX_TYPE_KEY).value, StdMap.Find(m, METRIC_TYPE_KEY).value,
                         Decimal.Stoll(SchemaUtil.FindDimFromFieldParams(field).value).value)))
  }

  /**
   * CheckTrain. index_params.at, std::stoll on the dim and the final at() of
   * the metric throw when the key is missing or the dim is not a number.
   */
  function Train(field: FieldSchema, m: seq<KV>, toNumber: string -> Option<real>): (r: TrainResult)
    requires StdMap.Valid(m)
    ensures StdMap.Valid(r.params)
    ensures r.verdict == Returned(Ok()) <==> TrainAccepts(field, m, toNumber)
    ensures r.verdict.Returned? && r.verdict.status.IsErr() ==>
              r.verdict.status.code == CodeValue(ErrParameterInvalid) || r.verdict.status.code == CodeValue(ErrUndefined)
    ensures StdMap.Find(m, INDEX_TYPE_KEY).None? ==> r.verdict == Thrown
  {
    var t := field.dataType;
    var it := StdMap.Find(m, INDEX_TYPE_KEY);
    if it.None? then TrainResult(Thrown, m)
    else if !SchemaUtil.IsVectorField(t) then TrainResult(Returned(Ok()), m)
    else if SchemaUtil.IsSparseVectorType(t) then
      var m1 := Touch(m, METRIC_TYPE_KEY);
      var metric := StdMap.Lookup(m1, METRIC_TYPE_KEY);
      assert metric == StdMap.Lookup(m, METRIC_TYPE_KEY);
      if metric == BM25_METRIC then
        var m2 := Touch(Touch(Touch(m1, BM25_AVGDL_KEY), BM25_K1_KEY), BM25_B_KEY);
        if !Bm25ParamsOk(m, toNumber) then TrainResult(Returned(ParameterInvalid("")), m2)
        else TrainResult(Returned(Check(t, it.value, metric, -1)), m2)
      else TrainResult(Returned(Check(t, it.value, metric, -1)), m1)
    else
      match FillDimension(field, m)
      case None => TrainResult(Returned(ParameterInvalid("")), m)
      case Some(m1) =>
        assert StdMap.Lookup(m1, DIM_KEY) == SchemaUtil.FindDimFromFieldParams(field).value;
        match Decimal.Stoll(StdMap.Lookup(m1, DIM_KEY))
        case Parsed(dim) =>
          var metric := StdMap.Find(m1, METRIC_TYPE_KEY);
          if metric.None? then TrainResult(Thrown, m1)
          else TrainResult(Returned(Check(t, it.value, metric.value, dim)), m1)
        case _ => TrainResult(Thrown, m1)
  }

  /** BM25 on a sparse field needs k1 in [0, 3] and b in [0, 1], both numbers. */
  lemma TrainBm25Ranges(field: FieldSchema, m: seq<KV>, toNumber: string -> Option<real>)
    requires StdMap.Valid(m) && field.dataType == SparseFloatVector
    requires StdMap.Lookup(m, METRIC_TYPE_KEY) == BM25_METRIC
    requires Train(field, m, toNumber).verdict == Returned(Ok())
    ensures toNumber(StdMap.Lookup(m, BM25_K1_KEY)).Some? && 0.0 <= toNumber(StdMap.Lookup(m, BM25_K1_KEY)).value <= 3.0
    ensures toNumber(StdMap.Lookup(m, BM25_B_KEY)).Some? && 0.0 <= toNumber(StdMap.Lookup(m, BM25_B_KEY)).value <= 1.0
  {
  }

  /** A dim in the index params that differs from the schema's fails the request with ParameterInvalid. */
  lemma TrainDimMismatch(field: FieldSchema, m: seq<KV>, toNumber: string -> Option<real>)
    requires StdMap.Valid(m) && SchemaUtil.IsDenseVector(field.dataType)
    requires StdMap.Find(m, INDEX_TYPE_KEY).Some? && StdMap.Find(m, DIM_KEY).Some?
    requires StdMap.Find(m, DIM_KEY) != SchemaUtil.FindDimFromFieldParams(field)
    ensures Train(field, m, toNumber).verdict == Returned(ParameterInvalid(""))
  {
  }
}
