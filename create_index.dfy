// CreateIndexTask (create_index_task.cpp): the field lookup, the index_params
// map built from the request, the defaults, CheckTrain, and the FieldIndexMeta
// that Process assembles with first-occurrence de-duplication.
module CreateIndex {
  import opened Wrappers
  import opened Schema
  import opened MilvusStatus
  import StdMap
  import SchemaUtil
  import IndexCheck

  /** milvus.CreateIndexRequest, the parts the task reads. */
  datatype CreateIndexRequest = CreateIndexRequest(
    collectionName: string,
    fieldName: string,
    extraParams: seq<KV>,
    indexName: string)

  /** The fields of the task that ParseIndexParams writes. */
  datatype TaskState = TaskState(
    indexName: string,
    fieldId: int,
    collectionId: int,
    isAutoIndex: bool,
    newIndexParams: seq<KV>,
    newTypeParams: seq<KV>,
    newExtraParams: seq<KV>)

  /** A freshly constructed task. */
  const INITIAL_STATE: TaskState := TaskState("", 0, 0, false, [], [], [])

  /** How ParseIndexParams ends and what it leaves in the task. */
  datatype ParseOutcome = ParseOutcome(verdict: IndexCheck.Verdict, state: TaskState)

  // ---------------------------------------------------------------------------
  // Field lookup

  /** The field the lookup loop settles on among the first n: the loop does not stop, so the last match wins. */
  function LastFieldNamed(fields: seq<FieldSchema>, name: string, n: nat): (r: Option<FieldSchema>)
    requires n <= |fields|
    ensures r.Some? <==> exists i | 0 <= i < n :: fields[i].name == name
    ensures r.Some? ==> r.value.name == name && r.value in fields[..n]
  {
    if n == 0 then None
    else if fields[n - 1].name == name then Some(fields[n - 1])
    else
      var r := LastFieldNamed(fields, name, n - 1);
      assert r.Some? ==> r.value in fields[..n] by {
        if r.Some? { assert fields[..n - 1] <= fields[..n]; }
      }
      r
  }

  /** A matching field with no match after it is the one found. */
  lemma {:induction false} LastFieldWins(fields: seq<FieldSchema>, name: string, n: nat, i: int)
    requires n <= |fields| && 0 <= i < n && fields[i].name == name
    requires forall j | i < j < n :: fields[j].name != name
    ensures LastFieldNamed(fields, name, n) == Some(fields[i])
    decreases n
  {
    if i < n - 1 {
      LastFieldWins(fields, name, n - 1, i);
    }
  }

  /** The lookup loop over schema.fields. */
  method FindField(fields: seq<FieldSchema>, name: string) returns (found: Option<FieldSchema>)
    ensures found == LastFieldNamed(fields, name, |fields|)
  {
    found := None;
    var i := 0;
    while i < |fields|
      invariant 0 <= i <= |fields|
      invariant found == LastFieldNamed(fields, name, i)
    {
      if fields[i].name == name {
        found := Some(fields[i]);
      }
      i := i + 1;
    }
  }

  // ---------------------------------------------------------------------------
  // index_params from the request

  /** The loop over the members of a parsed "params" object: string values are skipped, others stored dumped. */
  method MergeJsonItems(m: seq<KV>, items: seq<IndexCheck.JsonItem>) returns (r: seq<KV>)
    requires StdMap.Valid(m)
    ensures r == IndexCheck.JsonItemsUpTo(m, items, |items|)
  {
    r := m;
    var q := 0;
    while q < |items|
      invariant 0 <= q <= |items|
      invariant r == IndexCheck.JsonItemsUpTo(m, items, q)
    {
      if !items[q].isString {
        r := StdMap.Assign(r, items[q].key, items[q].dump);
      }
      q := q + 1;
    }
  }

  /** The loop over extra_params; a "params" entry is parsed as JSON and merged. */
  method ReadIndexParams(extra: seq<KV>, parseJson: string -> Option<seq<IndexCheck.JsonItem>>)
    returns (r: Option<seq<KV>>)
    ensures r == IndexCheck.RequestParamsUpTo(extra, |extra|, parseJson)
  {
    var params: seq<KV> := [];
    var j := 0;
    while j < |extra|
      invariant 0 <= j <= |extra|
      invariant IndexCheck.RequestParamsUpTo(extra, j, parseJson) == Some(params)
    {
      var p := extra[j];
      if p.key == IndexCheck.INDEX_PARAMS_KEY {
        var parsed := parseJson(p.value);
        if parsed.None? {
          IndexCheck.RequestParamsFailureStays(extra, j + 1, |extra|, parseJson);
          return None;
        }
        params := MergeJsonItems(params, parsed.value);
      } else {
        params := StdMap.Assign(params, p.key, p.value);
      }
      j := j + 1;
    }
    r := Some(params);
  }

  // ---------------------------------------------------------------------------
  // The specification of ParseIndexParams

  /** The task after AddAutoIndexParams: marked auto-index, and index_type / metric_type pushed to the extra params. */
  function AutoIndexed(st: TaskState, m: seq<KV>): (r: TaskState)
    ensures r.isAutoIndex
    ensures r.newExtraParams == st.newExtraParams
              + [KV(INDEX_TYPE_KEY, IndexCheck.AUTOINDEX), KV(METRIC_TYPE_KEY, IndexCheck.AutoMetric(m))]
  {
    st.(isAutoIndex := true,
        newExtraParams := st.newExtraParams
          + [KV(INDEX_TYPE_KEY, IndexCheck.AUTOINDEX), KV(METRIC_TYPE_KEY, IndexCheck.AutoMetric(m))])
  }

  /** The index name: the request's, or the field's name when the request leaves it empty. */
  function IndexNameFor(request: CreateIndexRequest, field: FieldSchema): string
  {
    if request.indexName != "" then request.indexName else field.name
  }

  /** The index params pushed on success: CheckTrain's map without dim and max_length. */
  function PushedIndexParams(p: seq<KV>): (r: seq<KV>)
    requires StdMap.Valid(p)
    ensures StdMap.Valid(r)
    ensures StdMap.Find(r, DIM_KEY).None? && StdMap.Find(r, MAX_LENGTH_KEY).None?
  {
    StdMap.Erase(StdMap.Erase(p, DIM_KEY), MAX_LENGTH_KEY)
  }

  /** Two task states agree on the index name, field id and collection id. */
  predicate SameHeader(st: TaskState, r: TaskState)
  {
    r.indexName == st.indexName && r.fieldId == st.fieldId && r.collectionId == st.collectionId
  }

  /**
   * What a successful parse appends: to the index params, a sorted map with
   * each key once and no dim or max_length; to the type params, the field's.
   */
  predicate Pushed(st: TaskState, r: TaskState, field: FieldSchema)
  {
    |st.newIndexParams| <= |r.newIndexParams|
    && r.newIndexParams[..|st.newIndexParams|] == st.newIndexParams
    && StdMap.Valid(r.newIndexParams[|st.newIndexParams|..])
    && StdMap.Find(r.newIndexParams[|st.newIndexParams|..], DIM_KEY).None?
    && StdMap.Find(r.newIndexParams[|st.newIndexParams|..], MAX_LENGTH_KEY).None?
    && r.newTypeParams == st.newTypeParams + field.typeParams
  }

  /** The codes a create index can fail with: ParameterInvalid, or Undefined from a checker table. */
  predicate ExpectedError(v: IndexCheck.Verdict)
  {
    v.Returned? && v.status.IsErr() ==>
      v.status.code == CodeValue(ErrParameterInvalid) || v.status.code == CodeValue(ErrUndefined)
  }

  /**
   * What ParseIndexParams does to a task in state `st`. `hash` is std::hash
   * of the collection name (GetCollectionId); a Thrown verdict is an
   * exception that leaves the task. The stages below follow its early returns.
   */
  function ParseIndex(schema: CollectionSchema, request: CreateIndexRequest, st: TaskState,
                      parseJson: string -> Option<seq<IndexCheck.JsonItem>>,
                      toNumber: string -> Option<real>, hash: string -> int): (r: ParseOutcome)
  {
    match LastFieldNamed(schema.fields, request.fieldName, |schema.fields|)
    case None => ParseOutcome(IndexCheck.Returned(ParameterInvalid("")), st)
    case Some(field) =>
      ParseForField(field, request,
                    st.(indexName := IndexNameFor(request, field), fieldId := field.fieldId,
                        collectionId := hash(schema.name)),
                    parseJson, toNumber)
  }

  /** After the field is found: the request's params are read; a "params" value that is not JSON fails. */
  function ParseForField(field: FieldSchema, request: CreateIndexRequest, st: TaskState,
                         parseJson: string -> Option<seq<IndexCheck.JsonItem>>,
                         toNumber: string -> Option<real>): (r: ParseOutcome)
    ensures SameHeader(st, r.state) && ExpectedError(r.verdict)
    ensures r.verdict == IndexCheck.Returned(Ok()) ==> Pushed(st, r.state, field)
  {
    match IndexCheck.RequestParamsUpTo(request.extraParams, |request.extraParams|, parseJson)
    case None => ParseOutcome(IndexCheck.Returned(ParameterInvalid("")), st)
    case Some(m) => ParseForParams(field, m, st, toNumber)
  }

  /** After the params are read: the defaults step, which marks the task when auto-index applies. */
  function ParseForParams(field: FieldSchema, m: seq<KV>, st: TaskState, toNumber: string -> Option<real>): (r: ParseOutcome)
    requires StdMap.Valid(m)
    ensures SameHeader(st, r.state) && ExpectedError(r.verdict)
    ensures r.verdict == IndexCheck.Returned(Ok()) ==> Pushed(st, r.state, field)
    ensures IndexCheck.AutoApplies(field.dataType, m) ==>
              r.state.isAutoIndex && r.state.newExtraParams == AutoIndexed(st, m).newExtraParams
    ensures !IndexCheck.AutoApplies(field.dataType, m) ==>
              r.state.isAutoIndex == st.isAutoIndex && r.state.newExtraParams == st.newExtraParams
  {
    var st2 := if IndexCheck.AutoApplies(field.dataType, m) then AutoIndexed(st, m) else st;
    match IndexCheck.Defaulted(field.dataType, m)
    case Failure(e) => ParseOutcome(IndexCheck.Returned(e), st2)
    case Success(d) => ParseForDefaulted(field, d, st2, toNumber)
  }

  /** After the defaults: the index_type check, CheckTrain, and the pushes of index and type params. */
  function ParseForDefaulted(field: FieldSchema, d: seq<KV>, st: TaskState, toNumber: string -> Option<real>): (r: ParseOutcome)
    requires StdMap.Valid(d)
    ensures r.verdict != IndexCheck.Returned(Ok()) ==> r.state == st
    ensures r.verdict == IndexCheck.Returned(Ok()) ==>
              Pushed(st, r.state, field) && r.state.(newIndexParams := st.newIndexParams, newTypeParams := st.newTypeParams) == st
    ensures ExpectedError(r.verdict)
  {
    if StdMap.Find(d, INDEX_TYPE_KEY).None? then ParseOutcome(IndexCheck.Returned(ParameterInvalid("")), st)
    else
      var tr := IndexCheck.Train(field, d, toNumber);
      if tr.verdict != IndexCheck.Returned(Ok()) then ParseOutcome(tr.verdict, st)
      else
        var p := PushedIndexParams(tr.params);
        assert (st.newIndexParams + p)[|st.newIndexParams|..] == p;
        ParseOutcome(IndexCheck.Returned(Ok()),
                     st.(newIndexParams := st.newIndexParams + p, newTypeParams := st.newTypeParams + field.typeParams))
  }

  /** An unknown field name fails with ParameterInvalid and leaves the task as it was. */
  lemma UnknownFieldRejected(schema: CollectionSchema, request: CreateIndexRequest, st: TaskState,
                             parseJson: string -> Option<seq<IndexCheck.JsonItem>>,
                             toNumber: string -> Option<real>, hash: string -> int)
    requires forall i | 0 <= i < |schema.fields| :: schema.fields[i].name != request.fieldName
    ensures ParseIndex(schema, request, st, parseJson, toNumber, hash)
            == ParseOutcome(IndexCheck.Returned(ParameterInvalid("")), st)
  {
  }

  /**
   * Once the field is found (the last one with the name), the index name is
   * the request's or else the field's, the field id is the field's, and the
   * verdict is Ok, ParameterInvalid, Undefined or an exception.
   */
  lemma FoundFieldHeader(schema: CollectionSchema, request: CreateIndexRequest, st: TaskState,
                         parseJson: string -> Option<seq<IndexCheck.JsonItem>>,
                         toNumber: string -> Option<real>, hash: string -> int, i: int)
    requires 0 <= i < |schema.fields| && schema.fields[i].name == request.fieldName
    requires forall j | i < j < |schema.fields| :: schema.fields[j].name != request.fieldName
    ensures var r := ParseIndex(schema, request, st, parseJson, toNumber, hash);
            r.state.indexName == (if request.indexName == "" then schema.fields[i].name else request.indexName)
            && r.state.fieldId == schema.fields[i].fieldId
            && r.state.collectionId == hash(schema.name)
            && ExpectedError(r.verdict)
  {
    LastFieldWins(schema.fields, request.fieldName, |schema.fields|, i);
  }

  /** On success, the pushes are those of Pushed for the field found. */
  lemma ParseSuccessPushes(schema: CollectionSchema, request: CreateIndexRequest, st: TaskState,
                           parseJson: string -> Option<seq<IndexCheck.JsonItem>>,
                           toNumber: string -> Option<real>, hash: string -> int)
    requires ParseIndex(schema, request, st, parseJson, toNumber, hash).verdict == IndexCheck.Returned(Ok())
    ensures LastFieldNamed(schema.fields, request.fieldName, |schema.fields|).Some?
    ensures Pushed(st, ParseIndex(schema, request, st, parseJson, toNumber, hash).state,
                   LastFieldNamed(schema.fields, request.fieldName, |schema.fields|).value)
  {
  }

  /** The auto-index mark and extra params appear exactly when the auto-index step applies. */
  lemma ParseAutoIndex(schema: CollectionSchema, request: CreateIndexRequest, st: TaskState,
                       parseJson: string -> Option<seq<IndexCheck.JsonItem>>,
                       toNumber: string -> Option<real>, hash: string -> int)
    requires LastFieldNamed(schema.fields, request.fieldName, |schema.fields|).Some?
    requires IndexCheck.RequestParamsUpTo(request.extraParams, |request.extraParams|, parseJson).Some?
    ensures var field := LastFieldNamed(schema.fields, request.fieldName, |schema.fields|).value;
            var m := IndexCheck.RequestParamsUpTo(request.extraParams, |request.extraParams|, parseJson).value;
            var r := ParseIndex(schema, request, st, parseJson, toNumber, hash);
            if IndexCheck.AutoApplies(field.dataType, m)
            then r.state.isAutoIndex
                 && r.state.newExtraParams == st.newExtraParams
                      + [KV(INDEX_TYPE_KEY, IndexCheck.AUTOINDEX), KV(METRIC_TYPE_KEY, IndexCheck.AutoMetric(m))]
            else r.state.isAutoIndex == st.isAutoIndex && r.state.newExtraParams == st.newExtraParams
  {
  }

  /** From a fresh task, the extra params are empty or exactly index_type then metric_type. */
  lemma FreshExtraParams(schema: CollectionSchema, request: CreateIndexRequest,
                         parseJson: string -> Option<seq<IndexCheck.JsonItem>>,
                         toNumber: string -> Option<real>, hash: string -> int)
    requires ParseIndex(schema, request, INITIAL_STATE, parseJson, toNumber, hash).verdict == IndexCheck.Returned(Ok())
    ensures var e := ParseIndex(schema, request, INITIAL_STATE, parseJson, toNumber, hash).state.newExtraParams;
            e == [] || (|e| == 2 && e[0].key == INDEX_TYPE_KEY && e[1].key == METRIC_TYPE_KEY)
  {
    var field := LastFieldNamed(schema.fields, request.fieldName, |schema.fields|).value;
    if IndexCheck.RequestParamsUpTo(request.extraParams, |request.extraParams|, parseJson).Some? {
      ParseAutoIndex(schema, request, INITIAL_STATE, parseJson, toNumber, hash);
    }
  }

  // ---------------------------------------------------------------------------
  // Process: first-occurrence de-duplication

  /** The set of keys of a parameter list. */
  function Keys(kvs: seq<KV>): set<string>
  {
    set i | 0 <= i < |kvs| :: kvs[i].key
  }

  /** The pairs whose key has not appeared earlier, in order: what the kset loops keep. */
  function FirstPairs(kvs: seq<KV>): (r: seq<KV>)
    decreases |kvs|
  {
    if |kvs| == 0 then []
    else
      var n := |kvs| - 1;
      FirstPairs(kvs[..n]) + (if kvs[n].key in Keys(kvs[..n]) then [] else [kvs[n]])
  }

  lemma KeysSnoc(kvs: seq<KV>, p: KV)
    ensures Keys(kvs + [p]) == Keys(kvs) + {p.key}
  {
    var s := kvs + [p];
    forall k | k in Keys(s) ensures k in Keys(kvs) + {p.key} {
      var i :| 0 <= i < |s| && s[i].key == k;
      if i < |kvs| { assert s[i] == kvs[i]; }
    }
    forall k | k in Keys(kvs) ensures k in Keys(s) {
      var i :| 0 <= i < |kvs| && kvs[i].key == k;
      assert s[i] == kvs[i];
    }
    assert s[|kvs|] == p;
  }

  lemma HasKeyIsKeys(kvs: seq<KV>, k: string)
    ensures SchemaUtil.HasKey(kvs, k) <==> k in Keys(kvs)
  {
    if k in Keys(kvs) {
      var i :| 0 <= i < |kvs| && kvs[i].key == k;
      assert SchemaUtil.HasKey(kvs, k);
    }
  }

  /** The kept pairs have the same keys as the input, each once. */
  lemma {:induction false} FirstPairsKeys(kvs: seq<KV>)
    ensures Keys(FirstPairs(kvs)) == Keys(kvs)
    ensures forall i, j | 0 <= i < j < |FirstPairs(kvs)| :: FirstPairs(kvs)[i].key != FirstPairs(kvs)[j].key
    decreases |kvs|
  {
    if |kvs| > 0 {
      var n := |kvs| - 1;
      var pre := FirstPairs(kvs[..n]);
      FirstPairsKeys(kvs[..n]);
      assert FirstPairs(kvs) == pre + (if kvs[n].key in Keys(kvs[..n]) then [] else [kvs[n]]);
      assert kvs == kvs[..n] + [kvs[n]];
      KeysSnoc(kvs[..n], kvs[n]);
      assert Keys(kvs) == Keys(kvs[..n]) + {kvs[n].key};
      if kvs[n].key in Keys(kvs[..n]) {
        assert pre + [] == pre;
      } else {
        KeysSnoc(pre, kvs[n]);
        var r := pre + [kvs[n]];
        assert Keys(r) == Keys(kvs);
        forall i, j | 0 <= i < j < |r| ensures r[i].key != r[j].key {
          if j == |pre| {
            assert r[i] == pre[i];
            assert pre[i].key in Keys(pre);
          } else {
            assert r[i] == pre[i] && r[j] == pre[j];
          }
        }
      }
    }
  }

  /** The first value of every key survives the de-duplication. */
  lemma {:induction false} FirstPairsFirstValue(kvs: seq<KV>, k: string)
    ensures SchemaUtil.FirstValue(FirstPairs(kvs), k) == SchemaUtil.FirstValue(kvs, k)
    decreases |kvs|
  {
    if |kvs| > 0 {
      var n := |kvs| - 1;
      var pre := FirstPairs(kvs[..n]);
      var tail := if kvs[n].key in Keys(kvs[..n]) then [] else [kvs[n]];
      FirstPairsFirstValue(kvs[..n], k);
      assert kvs == kvs[..n] + [kvs[n]];
      FirstValueConcat(kvs[..n], [kvs[n]], k);
      FirstValueConcat(pre, tail, k);
      if SchemaUtil.FirstValue(kvs[..n], k).None? && kvs[n].key == k {
        HasKeyIsKeys(kvs[..n], k);
      }
    }
  }

  /** The first value in a concatenation comes from the left part when it has the key. */
  lemma {:induction false} FirstValueConcat(a: seq<KV>, b: seq<KV>, k: string)
    ensures SchemaUtil.FirstValue(a + b, k) ==
            if SchemaUtil.FirstValue(a, k).Some? then SchemaUtil.FirstValue(a, k) else SchemaUtil.FirstValue(b, k)
    decreases |a|
  {
    if |a| > 0 {
      assert (a + b)[1..] == a[1..] + b;
      FirstValueConcat(a[1..], b, k);
    } else {
      assert a + b == b;
    }
  }

  /** The keys of the params the loops have seen, as the kset set holds them. */
  lemma FirstPairsSnoc(kvs: seq<KV>, p: KV)
    ensures FirstPairs(kvs + [p]) == FirstPairs(kvs) + (if p.key in Keys(kvs) then [] else [p])
  {
    assert (kvs + [p])[..|kvs|] == kvs;
  }

  /** One kset loop of Process over `src`, continuing after the pairs `before`. */
  method AppendFirstKeys(ghost before: seq<KV>, src: seq<KV>, kset: set<string>, out: seq<KV>)
    returns (kset': set<string>, out': seq<KV>)
    requires kset == Keys(before) && out == FirstPairs(before)
    ensures kset' == Keys(before + src) && out' == FirstPairs(before + src)
  {
    kset', out' := kset, out;
    var i := 0;
    assert before + src[..0] == before;
    while i < |src|
      invariant 0 <= i <= |src|
      invariant kset' == Keys(before + src[..i]) && out' == FirstPairs(before + src[..i])
    {
      var p := src[i];
      assert before + src[..i + 1] == (before + src[..i]) + [p];
      KeysSnoc(before + src[..i], p);
      FirstPairsSnoc(before + src[..i], p);
      if p.key !in kset' {
        out' := out' + [p];
        kset' := kset' + {p.key};
      }
      i := i + 1;
    }
    assert src[..i] == src;
  }

  /** The FieldIndexMeta Process fills from a task whose parse succeeded. */
  function MetaOf(st: TaskState): (meta: FieldIndexMeta)
    ensures meta.indexName == st.indexName && meta.fieldId == st.fieldId && meta.collectionId == st.collectionId
    ensures meta.isAutoIndex == st.isAutoIndex
    ensures meta.typeParams == [] && meta.userIndexParams == []
  {
    FieldIndexMeta(st.fieldId, st.collectionId, st.indexName, [],
                   FirstPairs(st.newIndexParams + st.newTypeParams + st.newExtraParams), st.isAutoIndex, [])
  }

  /** Each key appears once in the meta's index params; index params win over type params, which win over extra params. */
  lemma MetaPrecedence(st: TaskState, k: string)
    ensures forall i, j | 0 <= i < j < |MetaOf(st).indexParams| ::
              MetaOf(st).indexParams[i].key != MetaOf(st).indexParams[j].key
    ensures Keys(MetaOf(st).indexParams) == Keys(st.newIndexParams) + Keys(st.newTypeParams) + Keys(st.newExtraParams)
    ensures SchemaUtil.FirstValue(MetaOf(st).indexParams, k) ==
            if SchemaUtil.FirstValue(st.newIndexParams, k).Some? then SchemaUtil.FirstValue(st.newIndexParams, k)
            else if SchemaUtil.FirstValue(st.newTypeParams, k).Some? then SchemaUtil.FirstValue(st.newTypeParams, k)
            else SchemaUtil.FirstValue(st.newExtraParams, k)
  {
    var all := st.newIndexParams + st.newTypeParams + st.newExtraParams;
    FirstPairsKeys(all);
    KeysConcat(st.newIndexParams, st.newTypeParams);
    KeysConcat(st.newIndexParams + st.newTypeParams, st.newExtraParams);
    FirstPairsFirstValue(all, k);
    FirstValueConcat(st.newIndexParams + st.newTypeParams, st.newExtraParams, k);
    FirstValueConcat(st.newIndexParams, st.newTypeParams, k);
  }

  lemma KeysConcat(a: seq<KV>, b: seq<KV>)
    ensures Keys(a + b) == Keys(a) + Keys(b)
  {
    var s := a + b;
    forall k | k in Keys(s) ensures k in Keys(a) + Keys(b) {
      var i :| 0 <= i < |s| && s[i].key == k;
      if i < |a| { assert s[i] == a[i]; } else { assert s[i] == b[i - |a|]; }
    }
    forall k | k in Keys(a) + Keys(b) ensures k in Keys(s) {
      if k in Keys(a) {
        var i :| 0 <= i < |a| && a[i].key == k;
        assert s[i] == a[i];
      } else {
        var i :| 0 <= i < |b| && b[i].key == k;
        assert s[|a| + i] == b[i];
      }
    }
  }

  /**
   * The meta's dim and max_length come from the type params: the parse
   * erased them from the index params it pushed, and the extra params of a
   * fresh task never carry them.
   */
  lemma MetaDimFromTypeParams(st: TaskState, field: FieldSchema)
    requires Pushed(INITIAL_STATE, st, field)
    requires st.newExtraParams == [] || (|st.newExtraParams| == 2 && st.newExtraParams[0].key == INDEX_TYPE_KEY
                                         && st.newExtraParams[1].key == METRIC_TYPE_KEY)
    ensures SchemaUtil.FirstValue(MetaOf(st).indexParams, DIM_KEY) == SchemaUtil.FirstValue(field.typeParams, DIM_KEY)
    ensures SchemaUtil.FirstValue(MetaOf(st).indexParams, MAX_LENGTH_KEY) == SchemaUtil.FirstValue(field.typeParams, MAX_LENGTH_KEY)
  {
    assert st.newIndexParams == st.newIndexParams[0..];
    assert st.newTypeParams == field.typeParams;
    NotFoundNoFirst(st.newIndexParams, DIM_KEY);
    NotFoundNoFirst(st.newIndexParams, MAX_LENGTH_KEY);
    ExtraParamsKeys(st.newExtraParams, DIM_KEY);
    ExtraParamsKeys(st.newExtraParams, MAX_LENGTH_KEY);
    MetaPrecedence(st, DIM_KEY);
    MetaPrecedence(st, MAX_LENGTH_KEY);
  }

  /** A successful create index on a fresh task reports the dim and max_length of the field's type params. */
  lemma FreshMetaDim(schema: CollectionSchema, request: CreateIndexRequest,
                     parseJson: string -> Option<seq<IndexCheck.JsonItem>>,
                     toNumber: string -> Option<real>, hash: string -> int)
    requires ParseIndex(schema, request, INITIAL_STATE, parseJson, toNumber, hash).verdict == IndexCheck.Returned(Ok())
    ensures LastFieldNamed(schema.fields, request.fieldName, |schema.fields|).Some?
    ensures var st := ParseIndex(schema, request, INITIAL_STATE, parseJson, toNumber, hash).state;
            var field := LastFieldNamed(schema.fields, request.fieldName, |schema.fields|).value;
            SchemaUtil.FirstValue(MetaOf(st).indexParams, DIM_KEY) == SchemaUtil.FirstValue(field.typeParams, DIM_KEY)
  {
    ParseSuccessPushes(schema, request, INITIAL_STATE, parseJson, toNumber, hash);
    FreshExtraParams(schema, request, parseJson, toNumber, hash);
    MetaDimFromTypeParams(ParseIndex(schema, request, INITIAL_STATE, parseJson, toNumber, hash).state,
                          LastFieldNamed(schema.fields, request.fieldName, |schema.fields|).value);
  }

  /** A key a valid map does not find is in none of its pairs. */
  lemma {:induction false} NotFoundNoFirst(m: seq<KV>, k: string)
    requires StdMap.Valid(m) && StdMap.Find(m, k).None?
    ensures SchemaUtil.FirstValue(m, k).None?
    decreases |m|
  {
    if |m| > 0 {
      assert StdMap.Valid(m[1..]);
      NotFoundNoFirst(m[1..], k);
    }
  }

  /** The extra params a fresh task collects hold only index_type and metric_type. */
  lemma ExtraParamsKeys(extra: seq<KV>, k: string)
    requires extra == [] || (|extra| == 2 && extra[0].key == INDEX_TYPE_KEY && extra[1].key == METRIC_TYPE_KEY)
    requires k == DIM_KEY || k == MAX_LENGTH_KEY
    ensures SchemaUtil.FirstValue(extra, k).None?
  {
    if extra != [] {
      assert INDEX_TYPE_KEY[0] == 'i' && METRIC_TYPE_KEY[0] == 'm' && DIM_KEY[0] == 'd' && MAX_LENGTH_KEY[0] == 'm';
      assert METRIC_TYPE_KEY[1] == 'e' && MAX_LENGTH_KEY[1] == 'a';
      assert extra[1..][1..] == [];
    }
  }

  /** The BM25 defaults of ParseIndexParams, each written only where the key is missing. */
  method ApplyBm25Defaults(m: seq<KV>) returns (r: seq<KV>)
    requires StdMap.Valid(m)
    ensures r == IndexCheck.Bm25Step(m)
  {
    r := m;
    // metric_type is present here, so operator[] reads without inserting.
    if StdMap.Lookup(r, METRIC_TYPE_KEY) == IndexCheck.BM25_METRIC {
      if StdMap.Find(r, IndexCheck.BM25_K1_KEY).None? {
        r := StdMap.Assign(r, IndexCheck.BM25_K1_KEY, "1.2");
      }
      if StdMap.Find(r, IndexCheck.BM25_B_KEY).None? {
        r := StdMap.Assign(r, IndexCheck.BM25_B_KEY, "0.75");
      }
      if StdMap.Find(r, IndexCheck.BM25_AVGDL_KEY).None? {
        r := StdMap.Assign(r, IndexCheck.BM25_AVGDL_KEY, "1000");
      }
    }
  }

  // ---------------------------------------------------------------------------
  // The task

  class CreateIndexTask {
    const request: CreateIndexRequest
    const schema: CollectionSchema
    var indexName: string
    var fieldId: int
    var collectionId: int
    var isAutoIndex: bool
    var newIndexParams: seq<KV>
    var newTypeParams: seq<KV>
    var newExtraParams: seq<KV>

    function State(): TaskState
      reads this
    {
      TaskState(indexName, fieldId, collectionId, isAutoIndex, newIndexParams, newTypeParams, newExtraParams)
    }

    constructor(request: CreateIndexRequest, schema: CollectionSchema)
      ensures this.request == request && this.schema == schema
      ensures State() == INITIAL_STATE
    {
      this.request := request;
      this.schema := schema;
      indexName := "";
      fieldId := 0;
      collectionId := 0;
      isAutoIndex := false;
      newIndexParams := [];
      newTypeParams := [];
      newExtraParams := [];
    }

    /** Pushes index_type = AUTOINDEX and the metric to the extra params. */
    method WrapUserIndexParams(metric: string)
      modifies this
      ensures State() == old(State()).(newExtraParams := old(newExtraParams)
                 + [KV(INDEX_TYPE_KEY, IndexCheck.AUTOINDEX), KV(METRIC_TYPE_KEY, metric)])
    {
      newExtraParams := newExtraParams + [KV(INDEX_TYPE_KEY, IndexCheck.AUTOINDEX)];
      newExtraParams := newExtraParams + [KV(METRIC_TYPE_KEY, metric)];
    }

    /** Marks the task auto-index and merges the auto-index defaults into `m`; it always succeeds. */
    method AddAutoIndexParams(m: seq<KV>) returns (ok: bool, r: seq<KV>)
      requires StdMap.Valid(m)
      modifies this
      ensures ok && r == IndexCheck.AutoParams(m)
      ensures State() == AutoIndexed(old(State()), m)
    {
      isAutoIndex := true;
      var found := StdMap.Find(m, METRIC_TYPE_KEY);
      var metric: string;
      if found.Some? {
        metric := found.value;
      } else {
        metric := IndexCheck.IP;
        IndexCheck.AutoIndexParamsValues(METRIC_TYPE_KEY);
      }
      WrapUserIndexParams(metric);
      r := StdMap.InsertRange(m, IndexCheck.AUTO_INDEX_PARAMS);
      r := StdMap.Assign(r, METRIC_TYPE_KEY, metric);
      ok := true;
    }

    /** The vector and scalar default steps of ParseIndexParams. */
    method ApplyDefaults(t: DType, m: seq<KV>) returns (r: Outcome<seq<KV>>)
      requires StdMap.Valid(m)
      modifies this
      ensures r == IndexCheck.Defaulted(t, m)
      ensures State() == if IndexCheck.AutoApplies(t, m) then AutoIndexed(old(State()), m) else old(State())
    {
      if SchemaUtil.IsVectorField(t) {
        var params := m;
        var it := StdMap.Find(params, INDEX_TYPE_KEY);
        if it.None? || it.value == IndexCheck.AUTOINDEX {
          var ok;
          ok, params := AddAutoIndexParams(params);
        }
        assert params == IndexCheck.AutoStep(t, m);
        if StdMap.Find(params, METRIC_TYPE_KEY).None? {
          params := StdMap.Assign(params, METRIC_TYPE_KEY, IndexCheck.DefaultMetric(t));
        }
        assert params == IndexCheck.MetricDefault(t, IndexCheck.AutoStep(t, m));
        params := ApplyBm25Defaults(params);
        r := Success(params);
      } else {
        r := IndexCheck.ScalarDefaults(t, m);
      }
    }

    /** The end of ParseIndexParams: the index_type check, CheckTrain, and the pushes. */
    method FinishParse(field: FieldSchema, d: seq<KV>, toNumber: string -> Option<real>) returns (v: IndexCheck.Verdict)
      requires StdMap.Valid(d)
      modifies this
      ensures ParseOutcome(v, State()) == ParseForDefaulted(field, d, old(State()), toNumber)
    {
      if StdMap.Find(d, INDEX_TYPE_KEY).None? {
        return IndexCheck.Returned(ParameterInvalid(""));
      }
      var tr := IndexCheck.Train(field, d, toNumber);
      if tr.verdict != IndexCheck.Returned(Ok()) {
        return tr.verdict;
      }
      var params := StdMap.Erase(tr.params, DIM_KEY);
      params := StdMap.Erase(params, MAX_LENGTH_KEY);
      assert params == PushedIndexParams(tr.params);
      PushIndexParams(params);
      PushTypeParams(field.typeParams);
      v := IndexCheck.Returned(Ok());
    }

    /** The loop copying the map into new_index_params_. */
    method PushIndexParams(params: seq<KV>)
      modifies this
      ensures State() == old(State()).(newIndexParams := old(newIndexParams) + params)
    {
      var i := 0;
      while i < |params|
        invariant 0 <= i <= |params|
        invariant State() == old(State()).(newIndexParams := old(newIndexParams) + params[..i])
      {
        newIndexParams := newIndexParams + [params[i]];
        i := i + 1;
      }
      assert params[..i] == params;
    }

    /** The loop copying the field's type params into new_type_params_. */
    method PushTypeParams(typeParams: seq<KV>)
      modifies this
      ensures State() == old(State()).(newTypeParams := old(newTypeParams) + typeParams)
    {
      var j := 0;
      while j < |typeParams|
        invariant 0 <= j <= |typeParams|
        invariant State() == old(State()).(newTypeParams := old(newTypeParams) + typeParams[..j])
      {
        newTypeParams := newTypeParams + [typeParams[j]];
        j := j + 1;
      }
      assert typeParams[..j] == typeParams;
    }

    /** ParseIndexParams: the effect on the task is ParseIndex; a Thrown verdict is an exception. */
    method ParseIndexParams(parseJson: string -> Option<seq<IndexCheck.JsonItem>>,
                            toNumber: string -> Option<real>, hash: string -> int)
      returns (v: IndexCheck.Verdict)
      modifies this
      ensures ParseOutcome(v, State()) == ParseIndex(schema, request, old(State()), parseJson, toNumber, hash)
    {
      ghost var st0 := State();
      var found := FindField(schema.fields, request.fieldName);
      if found.None? {
        return IndexCheck.Returned(ParameterInvalid(""));
      }
      var field := found.value;
      indexName := if request.indexName != "" then request.indexName else field.name;
      fieldId := field.fieldId;
      collectionId := hash(schema.name);
      assert ParseIndex(schema, request, st0, parseJson, toNumber, hash)
             == ParseForField(field, request, State(), parseJson, toNumber);

      var read := ReadIndexParams(request.extraParams, parseJson);
      if read.None? {
        return IndexCheck.Returned(ParameterInvalid(""));
      }
      ghost var st1 := State();
      assert ParseIndex(schema, request, st0, parseJson, toNumber, hash)
             == ParseForParams(field, read.value, st1, toNumber);
      var defaulted := ApplyDefaults(field.dataType, read.value);
      if defaulted.Failure? {
        return IndexCheck.Returned(defaulted.status);
      }
      var params := defaulted.value;
      assert ParseIndex(schema, request, st0, parseJson, toNumber, hash)
             == ParseForDefaulted(field, params, State(), toNumber);
      v := FinishParse(field, params, toNumber);
    }

    /** Process: parse, then fill the meta with each key's first pair from index, type and extra params. */
    method Process(parseJson: string -> Option<seq<IndexCheck.JsonItem>>,
                   toNumber: string -> Option<real>, hash: string -> int)
      returns (v: IndexCheck.Verdict, meta: FieldIndexMeta)
      modifies this
      ensures ParseOutcome(v, State()) == ParseIndex(schema, request, old(State()), parseJson, toNumber, hash)
      ensures v == IndexCheck.Returned(Ok()) ==> meta == MetaOf(State())
      ensures v != IndexCheck.Returned(Ok()) ==> meta == FieldIndexMeta(0, 0, "", [], [], false, [])
    {
      meta := FieldIndexMeta(0, 0, "", [], [], false, []);
      v := ParseIndexParams(parseJson, toNumber, hash);
      if v != IndexCheck.Returned(Ok()) {
        return;
      }
      var kset: set<string> := {};
      var out: seq<KV> := [];
      kset, out := AppendFirstKeys([], newIndexParams, kset, out);
      assert [] + newIndexParams == newIndexParams;
      kset, out := AppendFirstKeys(newIndexParams, newTypeParams, kset, out);
      kset, out := AppendFirstKeys(newIndexParams + newTypeParams, newExtraParams, kset, out);
      meta := FieldIndexMeta(fieldId, collectionId, indexName, [], out, isAutoIndex, []);
    }
  }
}
