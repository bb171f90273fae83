// The search task: reading the search parameters into the plan's query info,
// resolving the vector field and its metric, and shaping segcore's result by
// dropping the first `offset` hits of every query.
module SearchTask {
  import opened Wrappers
  import opened Schema
  import MilvusStatus
  import Decimal
  import StringUtil
  import SchemaUtil
  import MilvusIds
  import FieldInfo
  import Lex

  const IP_METRIC: string := "IP"
  const COSINE_METRIC: string := "COSINE"

  datatype SearchRequest = SearchRequest(
    outputFields: seq<string>,
    searchParams: seq<KV>,
    placeholderGroup: string,
    nq: int,
    dsl: string)

  /** plan.QueryInfo. */
  datatype QueryInfo = QueryInfo(topk: int, searchParams: string, roundDecimal: int, groupByFieldId: int, metricType: string)

  const EMPTY_INFO: QueryInfo := QueryInfo(0, "", 0, 0, "")

  /** plan.VectorANNS and the PlanNode around it (the filter predicates come from the expression parser). */
  datatype VectorAnns = VectorAnns(placeholderTag: string, queryInfo: QueryInfo, fieldId: int, vectorType: Option<SchemaUtil.VectorType>)
  datatype PlanNode = PlanNode(outputFieldIds: seq<int>, vectorAnns: VectorAnns)

  const EMPTY_PLAN: PlanNode := PlanNode([], VectorAnns("", EMPTY_INFO, 0, None))

  // ---------------------------------------------------------------------------
  // ParseSearchInfo

  /**
   * What the parameter loop assigns: the task's topk_, offset_, metric_,
   * groupby_field_name_ and ann_field_, and the locals round_decimal and
   * search_param_str.
   */
  datatype SearchParams = SearchParams(
    topk: int, offset: int, metric: string, roundDecimal: int,
    searchParam: string, groupByName: string, annField: string)

  /** The constructor's values and the locals' initial values. */
  const INITIAL_PARAMS: SearchParams := SearchParams(-1, 0, "", -1, "", "", "")

  predicate IsNumberKey(k: string)
  {
    k == TOPK_KEY || k == OFFSET_KEY || k == ROUND_DECIMAL_KEY
  }

  /**
   * One parameter: a number key whose value std::stoll rejects stops the loop
   * (None); otherwise the value of the key's field is replaced (the keys are
   * distinct, so the branch chain changes at most one field).
   */
  function ReadParam(p: SearchParams, kv: KV): (r: Option<SearchParams>)
    ensures r.None? <==> IsNumberKey(kv.key) && !Decimal.Stoll(kv.value).Parsed?
  {
    var parsed := Decimal.Stoll(kv.value);
    if IsNumberKey(kv.key) && !parsed.Parsed? then None
    else
      var n := if parsed.Parsed? then parsed.value else 0;
      Some(SearchParams(
        if kv.key == TOPK_KEY then n else p.topk,
        if kv.key == OFFSET_KEY then n else p.offset,
        if kv.key == METRIC_TYPE_KEY then kv.value else p.metric,
        if kv.key == ROUND_DECIMAL_KEY then n else p.roundDecimal,
        if kv.key == SEARCH_PARAM_KEY then kv.value else p.searchParam,
        if kv.key == GROUP_BY_FIELD_KEY then kv.value else p.groupByName,
        if kv.key == ANN_FIELD_KEY then kv.value else p.annField))
  }

  /** Where the loop stands: still going (ok) or stopped by a failed stoll, and the values assigned so far. */
  datatype Scan = Scan(ok: bool, params: SearchParams)

  function ScanFrom(p0: SearchParams, kvs: seq<KV>): Scan
    decreases |kvs|
  {
    if |kvs| == 0 then Scan(true, p0)
    else
      var s := ScanFrom(p0, kvs[..|kvs| - 1]);
      if !s.ok then s
      else match ReadParam(s.params, kvs[|kvs| - 1])
        case None => Scan(false, s.params)
        case Some(q) => Scan(true, q)
  }

  /** Once the loop stopped, later parameters change nothing. */
  lemma {:induction false} ScanStopStays(p0: SearchParams, kvs: seq<KV>, n: int)
    requires 0 <= n <= |kvs| && !ScanFrom(p0, kvs[..n]).ok
    ensures ScanFrom(p0, kvs) == ScanFrom(p0, kvs[..n])
    decreases |kvs| - n
  {
    if n < |kvs| {
      assert kvs[..n + 1][..n] == kvs[..n];
      ScanStopStays(p0, kvs, n + 1);
    } else {
      assert kvs[..n] == kvs;
    }
  }

  /** Every number parameter's value is one stoll accepts. */
  predicate NumbersParse(kvs: seq<KV>)
  {
    forall i | 0 <= i < |kvs| :: IsNumberKey(kvs[i].key) ==> Decimal.Stoll(kvs[i].value).Parsed?
  }

  /** The loop's distinct keys: they differ in their first characters. */
  lemma KeysDistinct()
    ensures TOPK_KEY != OFFSET_KEY && TOPK_KEY != METRIC_TYPE_KEY && TOPK_KEY != ROUND_DECIMAL_KEY
    ensures TOPK_KEY != SEARCH_PARAM_KEY && TOPK_KEY != GROUP_BY_FIELD_KEY && TOPK_KEY != ANN_FIELD_KEY
    ensures OFFSET_KEY != METRIC_TYPE_KEY && OFFSET_KEY != ROUND_DECIMAL_KEY && OFFSET_KEY != SEARCH_PARAM_KEY
    ensures OFFSET_KEY != GROUP_BY_FIELD_KEY && OFFSET_KEY != ANN_FIELD_KEY
    ensures METRIC_TYPE_KEY != ROUND_DECIMAL_KEY && METRIC_TYPE_KEY != SEARCH_PARAM_KEY
    ensures METRIC_TYPE_KEY != GROUP_BY_FIELD_KEY && METRIC_TYPE_KEY != ANN_FIELD_KEY
    ensures ROUND_DECIMAL_KEY != SEARCH_PARAM_KEY && ROUND_DECIMAL_KEY != GROUP_BY_FIELD_KEY
    ensures ROUND_DECIMAL_KEY != ANN_FIELD_KEY && SEARCH_PARAM_KEY != GROUP_BY_FIELD_KEY
    ensures SEARCH_PARAM_KEY != ANN_FIELD_KEY && GROUP_BY_FIELD_KEY != ANN_FIELD_KEY
  {
    assert TOPK_KEY[0] == 't' && OFFSET_KEY[0] == 'o' && METRIC_TYPE_KEY[0] == 'm' && ROUND_DECIMAL_KEY[0] == 'r';
    assert SEARCH_PARAM_KEY[0] == 'p' && GROUP_BY_FIELD_KEY[0] == 'g' && ANN_FIELD_KEY[0] == 'a';
  }

  /** The loop runs to the end exactly when every number parameter parses. */
  lemma {:induction false} ScanRunsThrough(p0: SearchParams, kvs: seq<KV>)
    ensures ScanFrom(p0, kvs).ok <==> NumbersParse(kvs)
    decreases |kvs|
  {
    if |kvs| > 0 {
      var pre := kvs[..|kvs| - 1];
      var kv := kvs[|kvs| - 1];
      ScanRunsThrough(p0, pre);
      NumbersParseSnoc(pre, kv);
      assert pre + [kv] == kvs;
    }
  }

  lemma NumbersParseSnoc(pre: seq<KV>, kv: KV)
    ensures NumbersParse(pre + [kv]) <==> NumbersParse(pre) && (IsNumberKey(kv.key) ==> Decimal.Stoll(kv.value).Parsed?)
  {
    var kvs := pre + [kv];
    assert forall i | 0 <= i < |pre| :: kvs[i] == pre[i];
    assert kvs[|pre|] == kv;
  }

  /** The values the loop has assigned: each key's last value, or its initial value. */
  function LastValues(kvs: seq<KV>): SearchParams
  {
    SearchParams(
      SchemaUtil.NumberOr(kvs, TOPK_KEY, -1), SchemaUtil.NumberOr(kvs, OFFSET_KEY, 0),
      SchemaUtil.TextOr(kvs, METRIC_TYPE_KEY, ""), SchemaUtil.NumberOr(kvs, ROUND_DECIMAL_KEY, -1),
      SchemaUtil.TextOr(kvs, SEARCH_PARAM_KEY, ""), SchemaUtil.TextOr(kvs, GROUP_BY_FIELD_KEY, ""),
      SchemaUtil.TextOr(kvs, ANN_FIELD_KEY, ""))
  }

  /**
   * When the loop runs to the end, each assigned value is the one of the
   * key's last parameter, and the initial value for a key that is absent.
   */
  lemma {:induction false} ScanLastWins(kvs: seq<KV>)
    requires ScanFrom(INITIAL_PARAMS, kvs).ok
    ensures ScanFrom(INITIAL_PARAMS, kvs).params == LastValues(kvs)
    decreases |kvs|
  {
    if |kvs| > 0 {
      var pre := kvs[..|kvs| - 1];
      var kv := kvs[|kvs| - 1];
      ScanLastWins(pre);
      KeysDistinct();
      if kv.key != TOPK_KEY { SchemaUtil.LastValueOther(kvs, TOPK_KEY); }
      if kv.key != OFFSET_KEY { SchemaUtil.LastValueOther(kvs, OFFSET_KEY); }
      if kv.key != METRIC_TYPE_KEY { SchemaUtil.LastValueOther(kvs, METRIC_TYPE_KEY); }
      if kv.key != ROUND_DECIMAL_KEY { SchemaUtil.LastValueOther(kvs, ROUND_DECIMAL_KEY); }
      if kv.key != SEARCH_PARAM_KEY { SchemaUtil.LastValueOther(kvs, SEARCH_PARAM_KEY); }
      if kv.key != GROUP_BY_FIELD_KEY { SchemaUtil.LastValueOther(kvs, GROUP_BY_FIELD_KEY); }
      if kv.key != ANN_FIELD_KEY { SchemaUtil.LastValueOther(kvs, ANN_FIELD_KEY); }
    }
  }

  /** Position of the first schema field named `name`. */
  function FirstNamed(fields: seq<FieldSchema>, name: string): (r: Option<nat>)
    ensures r.None? <==> forall i | 0 <= i < |fields| :: fields[i].name != name
    ensures r.Some? ==> r.value < |fields| && fields[r.value].name == name &&
                        forall j | 0 <= j < r.value :: fields[j].name != name
    decreases |fields|
  {
    if |fields| == 0 then None
    else if fields[0].name == name then Some(0)
    else
      var r := FirstNamed(fields[1..], name);
      assert forall j | 0 < j <= |fields[1..]| :: fields[j] == fields[1..][j - 1];
      if r.None? then None else Some(r.value + 1)
  }

  /** The id of the first schema field named `name`, or -1 when none is. */
  function FirstFieldId(fields: seq<FieldSchema>, name: string): int
  {
    match FirstNamed(fields, name) case Some(i) => fields[i].fieldId case None => -1
  }

  /** The group-by field id: the row-id field when no name is given, else the first field of that name (or -1). */
  function GroupById(p: SearchParams, fields: seq<FieldSchema>): int
  {
    if p.groupByName == "" then ROW_ID_FIELD else FirstFieldId(fields, p.groupByName)
  }

  /** The range checks as the source makes them: a negative offset passes. */
  predicate InRangeAsWritten(p: SearchParams)
  {
    1 <= p.topk <= TOPK_LIMIT && p.offset <= TOPK_LIMIT && p.topk + p.offset <= TOPK_LIMIT &&
    (p.roundDecimal == -1 || 0 <= p.roundDecimal <= 6)
  }

  /** The range checks with the offset range [0, 16384] the error message names. */
  predicate InRange(p: SearchParams)
  {
    InRangeAsWritten(p) && 0 <= p.offset
  }

  datatype InfoOutcome = InfoOutcome(ok: bool, info: QueryInfo, params: SearchParams)

  /** After the loop: the checks, the group-by lookup and the query info. */
  function Conclude(s: Scan, fields: seq<FieldSchema>, inRange: bool): (r: InfoOutcome)
    ensures r.params == s.params
    ensures r.ok <==> s.ok && inRange && GroupById(s.params, fields) != -1
    ensures r.ok ==> r.info == QueryInfo(s.params.topk + s.params.offset, s.params.searchParam,
                                         s.params.roundDecimal, GroupById(s.params, fields), "")
  {
    if !s.ok || !inRange then InfoOutcome(false, EMPTY_INFO, s.params)
    else
      var gid := GroupById(s.params, fields);
      if gid == -1 then InfoOutcome(false, EMPTY_INFO, s.params)
      else InfoOutcome(true, QueryInfo(s.params.topk + s.params.offset, s.params.searchParam, s.params.roundDecimal, gid, ""), s.params)
  }

  /** ParseSearchInfo as written, from the task's current field values. */
  function ParseInfoAsWrittenFrom(p0: SearchParams, kvs: seq<KV>, fields: seq<FieldSchema>): InfoOutcome
  {
    var s := ScanFrom(p0, kvs);
    Conclude(s, fields, InRangeAsWritten(s.params))
  }

  /** ParseSearchInfo with the offset lower bound, from the task's current field values. */
  function ParseInfoFrom(p0: SearchParams, kvs: seq<KV>, fields: seq<FieldSchema>): InfoOutcome
  {
    var s := ScanFrom(p0, kvs);
    Conclude(s, fields, InRange(s.params))
  }

  /**
   * ParseSearchInfo on a fresh task: it succeeds exactly when every number
   * parameter parses, the last topk lies in [1, 16384], the last offset in
   * [0, 16384], their sum is at most 16384, round_decimal is -1 or in [0, 6],
   * and a named group-by field exists (with an id other than -1); the plan's
   * topk is then topk + offset and the group-by id is the row-id field when
   * no name is given.
   */
  lemma ParseInfoSpec(kvs: seq<KV>, fields: seq<FieldSchema>)
    ensures var r := ParseInfoFrom(INITIAL_PARAMS, kvs, fields);
            var topk := SchemaUtil.NumberOr(kvs, TOPK_KEY, -1);
            var offset := SchemaUtil.NumberOr(kvs, OFFSET_KEY, 0);
            var rd := SchemaUtil.NumberOr(kvs, ROUND_DECIMAL_KEY, -1);
            var group := SchemaUtil.TextOr(kvs, GROUP_BY_FIELD_KEY, "");
            (r.ok <==> NumbersParse(kvs) && 1 <= topk <= TOPK_LIMIT && 0 <= offset <= TOPK_LIMIT &&
                       topk + offset <= TOPK_LIMIT && (rd == -1 || 0 <= rd <= 6) &&
                       (group != "" ==> FirstFieldId(fields, group) != -1)) &&
            (r.ok ==> r.info.topk == topk + offset && r.info.roundDecimal == rd &&
                      r.info.searchParams == SchemaUtil.TextOr(kvs, SEARCH_PARAM_KEY, "") &&
                      r.info.groupByFieldId == (if group == "" then ROW_ID_FIELD else FirstFieldId(fields, group)))
  {
    ScanRunsThrough(INITIAL_PARAMS, kvs);
    if ScanFrom(INITIAL_PARAMS, kvs).ok {
      ScanLastWins(kvs);
    }
  }

  /** A group-by name that no schema field carries makes the parse fail. */
  lemma UnknownGroupByRejected(kvs: seq<KV>, fields: seq<FieldSchema>)
    requires SchemaUtil.TextOr(kvs, GROUP_BY_FIELD_KEY, "") != ""
    requires forall i | 0 <= i < |fields| :: fields[i].name != SchemaUtil.TextOr(kvs, GROUP_BY_FIELD_KEY, "")
    ensures !ParseInfoFrom(INITIAL_PARAMS, kvs, fields).ok
  {
    ParseInfoSpec(kvs, fields);
  }

  /** The two checks differ only on a negative offset. */
  lemma ParseInfoCorrection(p0: SearchParams, kvs: seq<KV>, fields: seq<FieldSchema>)
    ensures ParseInfoFrom(p0, kvs, fields).ok ==> ParseInfoAsWrittenFrom(p0, kvs, fields) == ParseInfoFrom(p0, kvs, fields)
    ensures ParseInfoFrom(p0, kvs, fields).ok ==> ParseInfoFrom(p0, kvs, fields).params.offset >= 0
    ensures ParseInfoAsWrittenFrom(p0, kvs, fields).ok && !ParseInfoFrom(p0, kvs, fields).ok ==>
              ScanFrom(p0, kvs).params.offset < 0
  {
  }

  /** As written, topk 10 with offset -1 is accepted and the plan asks for 9 hits. */
  lemma NegativeOffsetAcceptedAsWritten()
    ensures var kvs := [KV(TOPK_KEY, "10"), KV(OFFSET_KEY, "-1")];
            ParseInfoAsWrittenFrom(INITIAL_PARAMS, kvs, []).ok &&
            ParseInfoAsWrittenFrom(INITIAL_PARAMS, kvs, []).info.topk == 9 &&
            !ParseInfoFrom(INITIAL_PARAMS, kvs, []).ok
  {
    var kvs := [KV(TOPK_KEY, "10"), KV(OFFSET_KEY, "-1")];
    StollLiterals();
    KeysDistinct();
    assert kvs[..1] == [KV(TOPK_KEY, "10")] && kvs[..1][..0] == [];
    assert ScanFrom(INITIAL_PARAMS, kvs[..1]) == Scan(true, INITIAL_PARAMS.(topk := 10));
    assert ScanFrom(INITIAL_PARAMS, kvs).params == INITIAL_PARAMS.(topk := 10, offset := -1);
  }

  lemma StollLiterals()
    ensures Decimal.Stoll("10") == Decimal.Parsed(10)
    ensures Decimal.Stoll("-1") == Decimal.Parsed(-1)
  {
    assert StringUtil.FirstNotSpace("10") == 0;
    assert StringUtil.FirstNotSpace("-1") == 0;
    assert Decimal.DigitRun("10") == 2;
    assert Decimal.DigitRun("1") == 1;
    assert "10"[..2] == "10" && "10"[..1] == "1";
    assert Decimal.DigitsValue("10") == 10;
    assert "-1"[1..] == "1" && "1"[..1] == "1";
  }

  // ---------------------------------------------------------------------------
  // Metric resolution

  /**
   * The metric the index loop settles on: the stored metas are read in order,
   * one that does not parse stops the loop (None), and the last meta of the
   * vector field gives the metric ("" when there is none).
   */
  function IndexMetricUpTo(allIndex: seq<Option<FieldIndexMeta>>, fieldId: int, n: nat): (r: Option<string>)
    requires n <= |allIndex|
    ensures r.None? <==> exists i | 0 <= i < n :: allIndex[i].None?
  {
    if n == 0 then Some("")
    else
      var prev := IndexMetricUpTo(allIndex, fieldId, n - 1);
      if prev.None? || allIndex[n - 1].None? then None
      else if allIndex[n - 1].value.fieldId == fieldId then Some(SchemaUtil.GetIndexMetricType(allIndex[n - 1].value))
      else prev
  }

  predicate MetaOfField(m: Option<FieldIndexMeta>, fieldId: int)
  {
    m.Some? && m.value.fieldId == fieldId
  }

  /** With every meta readable and none of the field, the metric is "". */
  lemma {:induction false} IndexMetricNoneOfField(allIndex: seq<Option<FieldIndexMeta>>, fieldId: int, n: nat)
    requires n <= |allIndex| && forall i | 0 <= i < n :: allIndex[i].Some?
    requires forall i | 0 <= i < n :: !MetaOfField(allIndex[i], fieldId)
    ensures IndexMetricUpTo(allIndex, fieldId, n) == Some("")
    decreases n
  {
    if n > 0 {
      IndexMetricNoneOfField(allIndex, fieldId, n - 1);
    }
  }

  /** With every meta readable, the metric is that of the last meta of the field. */
  lemma {:induction false} IndexMetricLastWins(allIndex: seq<Option<FieldIndexMeta>>, fieldId: int, n: nat, i: nat)
    requires n <= |allIndex| && forall j | 0 <= j < n :: allIndex[j].Some?
    requires i < n && MetaOfField(allIndex[i], fieldId) && forall j | i < j < n :: !MetaOfField(allIndex[j], fieldId)
    ensures IndexMetricUpTo(allIndex, fieldId, n) == Some(SchemaUtil.GetIndexMetricType(allIndex[i].value))
    decreases n
  {
    if i < n - 1 {
      IndexMetricLastWins(allIndex, fieldId, n - 1, i);
      assert !MetaOfField(allIndex[n - 1], fieldId);
    } else {
      assert forall j | 0 <= j < n - 1 :: allIndex[j].Some?;
    }
  }

  /**
   * The user's metric against the index's: no index metric is IndexNotFound,
   * an empty user metric takes the index's, and a different one is
   * ParameterInvalid.
   */
  function ResolveMetric(user: string, index: string): (r: MilvusStatus.Outcome<string>)
    ensures r.Success? <==> index != "" && (user == "" || user == index)
    ensures r.Success? ==> r.value == index
    ensures index == "" ==> r == MilvusStatus.Failure(MilvusStatus.IndexNotFound(""))
    ensures index != "" && user != "" && user != index ==> r == MilvusStatus.Failure(MilvusStatus.ParameterInvalid(""))
  {
    if index == "" then MilvusStatus.Failure(MilvusStatus.IndexNotFound(""))
    else
      var m := if user == "" then index else user;
      if m == "" || m != index then MilvusStatus.Failure(MilvusStatus.ParameterInvalid(""))
      else MilvusStatus.Success(m)
  }

  /** What Process sets after ParseSearchInfo: the status, the vector field, its type and the metric. */
  datatype AnnsOutcome = AnnsOutcome(status: MilvusStatus.Status, fieldId: int, vectorType: Option<SchemaUtil.VectorType>, metric: string)

  /** The index metric once the vector field is known; ServiceInternal for an unreadable meta. */
  function ResolveAnns(field: FieldSchema, metric: string, allIndex: seq<Option<FieldIndexMeta>>,
                       dsl: string, exprParses: bool): (r: AnnsOutcome)
    ensures r.fieldId == field.fieldId && r.vectorType == SchemaUtil.DataTypeToVectorType(field.dataType)
    ensures IndexMetricUpTo(allIndex, field.fieldId, |allIndex|).None? ==>
              r.status == MilvusStatus.ServiceInternal("") && r.metric == metric
    ensures IndexMetricUpTo(allIndex, field.fieldId, |allIndex|).Some? ==>
              var im := IndexMetricUpTo(allIndex, field.fieldId, |allIndex|).value;
              r.metric == (if metric == "" then im else metric) &&
              (ResolveMetric(metric, im).Failure? ==> r.status == ResolveMetric(metric, im).status) &&
              (ResolveMetric(metric, im).Success? ==>
                 r.status == (if dsl == "" then MilvusStatus.Ok() else SchemaUtil.ParseExpr(dsl, exprParses)))
  {
    var vtype := SchemaUtil.DataTypeToVectorType(field.dataType);
    match IndexMetricUpTo(allIndex, field.fieldId, |allIndex|)
    case None => AnnsOutcome(MilvusStatus.ServiceInternal(""), field.fieldId, vtype, metric)
    case Some(im) =>
      var m := if metric == "" then im else metric;
      match ResolveMetric(metric, im)
      case Failure(st) => AnnsOutcome(st, field.fieldId, vtype, m)
      case Success(_) =>
        AnnsOutcome(if dsl == "" then MilvusStatus.Ok() else SchemaUtil.ParseExpr(dsl, exprParses), field.fieldId, vtype, m)
  }

  /** Process's part after ParseSearchInfo, from the parsed anns field and metric. */
  function VectorAnnsOutcome(schema: CollectionSchema, p: SearchParams, allIndex: seq<Option<FieldIndexMeta>>,
                             dsl: string, exprParses: bool): AnnsOutcome
  {
    match SchemaUtil.FindVectorField(schema, p.annField)
    case Failure(st) => AnnsOutcome(st, 0, None, p.metric)
    case Success(field) => ResolveAnns(field, p.metric, allIndex, dsl, exprParses)
  }

  /**
   * With a vector field found, the search goes through exactly when no stored
   * meta is unreadable, the field has an index with a metric, the requested
   * metric is empty or that metric, and a filter (if any) parses; the plan
   * then carries the index's metric.
   */
  lemma AnnsOkIff(field: FieldSchema, metric: string, allIndex: seq<Option<FieldIndexMeta>>, dsl: string, exprParses: bool)
    ensures var r := ResolveAnns(field, metric, allIndex, dsl, exprParses);
            var im := IndexMetricUpTo(allIndex, field.fieldId, |allIndex|);
            (r.status.IsOk() <==> im.Some? && im.value != "" && (metric == "" || metric == im.value) &&
                                  (dsl != "" ==> exprParses)) &&
            (r.status.IsOk() ==> r.metric == im.value)
  {
    var im := IndexMetricUpTo(allIndex, field.fieldId, |allIndex|);
    MilvusStatus.FactoryCodes("");
    if im.Some? && ResolveMetric(metric, im.value).Success? && dsl != "" {
      assert SchemaUtil.ParseExpr(dsl, exprParses).IsOk() <==> exprParses;
    }
  }

  /** A field with no index (no meta of its id) is IndexNotFound, whatever metric was asked for. */
  lemma NoIndexNotFound(field: FieldSchema, metric: string, allIndex: seq<Option<FieldIndexMeta>>, dsl: string, exprParses: bool)
    requires forall i | 0 <= i < |allIndex| :: allIndex[i].Some? && allIndex[i].value.fieldId != field.fieldId
    ensures ResolveAnns(field, metric, allIndex, dsl, exprParses).status == MilvusStatus.IndexNotFound("")
  {
    IndexMetricNoneOfField(allIndex, field.fieldId, |allIndex|);
  }

  /** PositivelyRelated: IP and COSINE, in any letter case, rank larger scores first. */
  predicate PositivelyRelated(metric: string)
  {
    var u := StringUtil.ToUpper(metric);
    u == IP_METRIC || u == COSINE_METRIC
  }

  /** The factor PostProcess multiplies scores by: 1 for IP or COSINE, -1 for distances. */
  function ScoreCoefficient(metric: string): (c: int)
    ensures c == 1 || c == -1
    ensures c == 1 <==> StringUtil.ToUpper(metric) in {IP_METRIC, COSINE_METRIC}
  {
    if PositivelyRelated(metric) then 1 else -1
  }

  lemma ScoreCoefficientExamples()
    ensures ScoreCoefficient("ip") == 1 && ScoreCoefficient("COSINE") == 1 && ScoreCoefficient("L2") == -1
  {
    assert StringUtil.ToUpper("ip") == "IP";
    assert StringUtil.ToUpper("COSINE") == "COSINE";
    assert StringUtil.ToUpper("L2") == "L2";
  }

  // ---------------------------------------------------------------------------
  // PostProcess

  /** schema.SearchResultData, both as segcore returns it and as the task returns it. */
  datatype SearchResultData = SearchResultData(
    numQueries: int,
    topK: int,
    topks: seq<int>,
    scores: seq<real>,
    ids: MilvusIds.IDs,
    outputFields: seq<string>,
    fieldsData: seq<FieldData>)

  /** The number of hits of the queries before query n. */
  function Start(topks: seq<int>, n: nat): int
    requires n <= |topks|
  {
    if n == 0 then 0 else Start(topks, n - 1) + topks[n - 1]
  }

  lemma {:induction false} StartMono(topks: seq<int>, a: nat, b: nat)
    requires a <= b <= |topks|
    requires forall i | 0 <= i < |topks| :: topks[i] >= 0
    ensures 0 <= Start(topks, a) <= Start(topks, b)
    decreases b
  {
    if a < b {
      StartMono(topks, a, b - 1);
    } else if a > 0 {
      StartMono(topks, a - 1, a - 1);
    }
  }

  /** The hits a query keeps once its first `offset` are dropped. */
  function Limit(t: int, offset: int): (l: int)
    ensures l >= 0 && l >= t - offset
    ensures l == 0 || l == t - offset
  {
    if t - offset > 0 then t - offset else 0
  }

  /** The (start, count) range of every query among the first n. */
  function Ranges(topks: seq<int>, offset: int, n: nat): (r: seq<(int, int)>)
    requires n <= |topks|
    ensures |r| == n
  {
    if n == 0 then []
    else Ranges(topks, offset, n - 1) + [(Start(topks, n - 1) + offset, Limit(topks[n - 1], offset))]
  }

  /** Range i starts after the hits of the earlier queries and the offset, and keeps Limit hits. */
  lemma {:induction false} RangesAt(topks: seq<int>, offset: int, n: nat, i: nat)
    requires i < n <= |topks|
    ensures Ranges(topks, offset, n)[i] == (Start(topks, i) + offset, Limit(topks[i], offset))
    decreases n
  {
    if i < n - 1 {
      RangesAt(topks, offset, n - 1, i);
    }
  }

  predicate InBounds(idx: seq<int>, n: int)
  {
    forall k | 0 <= k < |idx| :: 0 <= idx[k] < n
  }

  /** A score multiplied by the coefficient, converted to floating point. */
  function Scale(x: real, c: int): real
  {
    x * (c as real)
  }

  /** The scores at the given indexes, in order, each multiplied by c. */
  function ScaledPick(s: seq<real>, idx: seq<int>, c: int): (r: seq<real>)
    requires InBounds(idx, |s|)
    ensures |r| == |idx|
  {
    if |idx| == 0 then [] else ScaledPick(s, idx[..|idx| - 1], c) + [Scale(s[idx[|idx| - 1]], c)]
  }

  lemma {:induction false} ScaledPickAt(s: seq<real>, idx: seq<int>, c: int)
    requires InBounds(idx, |s|)
    ensures forall k | 0 <= k < |idx| :: ScaledPick(s, idx, c)[k] == s[idx[k]] * (c as real)
    decreases |idx|
  {
    if |idx| > 0 {
      ScaledPickAt(s, idx[..|idx| - 1], c);
    }
  }

  function IdCount(ids: MilvusIds.IDs): int
  {
    if ids.IntId? then |ids.ints| else if ids.StrId? then |ids.strs| else 0
  }

  /** The ids at the given indexes, appended one by one; no oneof member is set when nothing is copied. */
  function PickIds(ids: MilvusIds.IDs, idx: seq<int>): MilvusIds.IDs
    requires !ids.NoId? && InBounds(idx, IdCount(ids))
  {
    if |idx| == 0 then MilvusIds.NoId
    else MilvusIds.AppendToIDs(MilvusIds.FromIDs(ids, idx[|idx| - 1]), PickIds(ids, idx[..|idx| - 1]))
  }

  /** The picked ids are of the source's kind and are the source's ids at the indexes. */
  lemma {:induction false} PickIdsAt(ids: MilvusIds.IDs, idx: seq<int>)
    requires !ids.NoId? && InBounds(idx, IdCount(ids))
    ensures |idx| == 0 ==> PickIds(ids, idx) == MilvusIds.NoId
    ensures |idx| > 0 && ids.IntId? ==>
              PickIds(ids, idx).IntId? && |PickIds(ids, idx).ints| == |idx| &&
              forall k | 0 <= k < |idx| :: PickIds(ids, idx).ints[k] == ids.ints[idx[k]]
    ensures |idx| > 0 && ids.StrId? ==>
              PickIds(ids, idx).StrId? && |PickIds(ids, idx).strs| == |idx| &&
              forall k | 0 <= k < |idx| :: PickIds(ids, idx).strs[k] == ids.strs[idx[k]]
    decreases |idx|
  {
    if |idx| > 1 {
      PickIdsAt(ids, idx[..|idx| - 1]);
    }
  }

  /** The largest of 0 and the first n limits: the top_k PostProcess reports. */
  function MaxLimit(topks: seq<int>, offset: int, n: nat): (m: int)
    requires n <= |topks|
    ensures m >= 0
  {
    if n == 0 then 0
    else
      var prev := MaxLimit(topks, offset, n - 1);
      var l := Limit(topks[n - 1], offset);
      if prev < l then l else prev
  }

  /** MaxLimit is at least every limit and is 0 or one of them. */
  lemma {:induction false} MaxLimitIsMax(topks: seq<int>, offset: int, n: nat)
    requires n <= |topks|
    ensures forall i | 0 <= i < n :: Limit(topks[i], offset) <= MaxLimit(topks, offset, n)
    ensures MaxLimit(topks, offset, n) == 0 || exists i | 0 <= i < n :: MaxLimit(topks, offset, n) == Limit(topks[i], offset)
    decreases n
  {
    if n > 0 {
      MaxLimitIsMax(topks, offset, n - 1);
    }
  }

  /** What segcore's result must look like for PostProcess to read it: per-query counts that add up to the hits. */
  predicate WellFormedResult(tmp: SearchResultData)
  {
    0 <= tmp.numQueries == |tmp.topks| &&
    (forall i | 0 <= i < |tmp.topks| :: tmp.topks[i] >= 0) &&
    Start(tmp.topks, |tmp.topks|) == |tmp.scores| == IdCount(tmp.ids) &&
    !tmp.ids.NoId?
  }

  /** Every range index lies among the hits. */
  lemma RangesInBounds(topks: seq<int>, offset: int, n: nat, total: int)
    requires n <= |topks| && 0 <= offset
    requires forall i | 0 <= i < |topks| :: topks[i] >= 0
    requires Start(topks, |topks|) == total
    ensures InBounds(SchemaUtil.SliceIndexes(Ranges(topks, offset, n)), total)
  {
    var rs := Ranges(topks, offset, n);
    var idx := SchemaUtil.SliceIndexes(rs);
    forall k | 0 <= k < |idx| ensures 0 <= idx[k] < total {
      SchemaUtil.SliceIndexesMembership(rs, idx[k]);
      var r :| 0 <= r < |rs| && rs[r].0 <= idx[k] < rs[r].0 + rs[r].1;
      RangesAt(topks, offset, n, r);
      StartMono(topks, r, r + 1);
      StartMono(topks, r + 1, |topks|);
    }
  }

  /** The column PostProcess appends for one result column: its header and the rows of the ranges. */
  function Sliced(fd: FieldData, ranges: seq<(int, int)>): FieldData
    requires SchemaUtil.WellFormedDim(fd) && SchemaUtil.AllReadable(fd, SchemaUtil.SliceIndexes(ranges))
  {
    var header := EmptyField(fd.dtype, fd.fieldName, fd.fieldId, fd.isDynamic);
    if |SchemaUtil.SliceIndexes(ranges)| == 0 || fd.dtype != NoneType then
      SchemaUtil.PickResult(fd, SchemaUtil.SliceIndexes(ranges), header)
    else header
  }

  /** Every column's sliced rows exist. */
  predicate ColumnsReadable(fds: seq<FieldData>, ranges: seq<(int, int)>)
  {
    forall c | 0 <= c < |fds| :: SchemaUtil.WellFormedDim(fds[c]) && SchemaUtil.AllReadable(fds[c], SchemaUtil.SliceIndexes(ranges))
  }

  /** True when PostProcess copies hits: nq * offset is below the number of scores. */
  predicate CopiesHits(tmp: SearchResultData, offset: int)
  {
    tmp.numQueries * offset < |tmp.scores|
  }

  /** Hits lo .. hi-1 of the scores, each scaled by c. */
  function Window(s: seq<real>, lo: int, hi: int, c: int): (r: seq<real>)
    requires 0 <= lo && (lo < hi ==> hi <= |s|)
    decreases hi - lo
  {
    if hi <= lo then [] else Window(s, lo, hi - 1, c) + [Scale(s[hi - 1], c)]
  }

  /** The ids of hits lo .. hi-1 appended to acc. */
  function IdsWindow(acc: MilvusIds.IDs, ids: MilvusIds.IDs, lo: int, hi: int): MilvusIds.IDs
    requires !ids.NoId? && 0 <= lo && (lo < hi ==> hi <= IdCount(ids))
    decreases hi - lo
  {
    if hi <= lo then acc else MilvusIds.AppendToIDs(MilvusIds.FromIDs(ids, hi - 1), IdsWindow(acc, ids, lo, hi - 1))
  }

  /** The scores copied for the first n queries, window after window. */
  function ScoresUpTo(tmp: SearchResultData, offset: int, c: int, n: nat): seq<real>
    requires WellFormedResult(tmp) && 0 <= offset && n <= tmp.numQueries
  {
    if n == 0 then []
    else
      WindowInHits(tmp.topks, n - 1);
      var cur := Start(tmp.topks, n - 1);
      ScoresUpTo(tmp, offset, c, n - 1) + Window(tmp.scores, cur + offset, cur + tmp.topks[n - 1], c)
  }

  /** The ids copied for the first n queries, window after window. */
  function IdsUpTo(tmp: SearchResultData, offset: int, n: nat): MilvusIds.IDs
    requires WellFormedResult(tmp) && 0 <= offset && n <= tmp.numQueries
  {
    if n == 0 then MilvusIds.NoId
    else
      WindowInHits(tmp.topks, n - 1);
      var cur := Start(tmp.topks, n - 1);
      IdsWindow(IdsUpTo(tmp, offset, n - 1), tmp.ids, cur + offset, cur + tmp.topks[n - 1])
  }

  /** Appending the window lo .. hi-1 of indexes is appending lo .. hi-2 and then hi-1. */
  lemma RangeAppend(idx: seq<int>, lo: int, hi: int)
    requires lo < hi
    ensures idx + SchemaUtil.Range(lo, hi) == (idx + SchemaUtil.Range(lo, hi - 1)) + [hi - 1]
  {
    assert SchemaUtil.Range(lo, hi) == SchemaUtil.Range(lo, hi - 1) + [hi - 1];
  }

  lemma RangeAppendEmpty(idx: seq<int>, lo: int, hi: int)
    requires hi <= lo
    ensures idx + SchemaUtil.Range(lo, hi) == idx
  {
    assert SchemaUtil.Range(lo, hi) == [];
  }

  /** The window's indexes lie among the hits. */
  lemma {:induction false} RangeInBounds(idx: seq<int>, lo: int, hi: int, n: int)
    requires InBounds(idx, n) && 0 <= lo && (lo < hi ==> hi <= n)
    ensures InBounds(idx + SchemaUtil.Range(lo, hi), n)
    decreases hi - lo
  {
    if hi > lo {
      RangeInBounds(idx, lo, hi - 1, n);
      RangeAppend(idx, lo, hi);
      var idx' := idx + SchemaUtil.Range(lo, hi - 1);
      assert forall k | 0 <= k < |idx'| :: (idx' + [hi - 1])[k] == idx'[k];
    } else {
      RangeAppendEmpty(idx, lo, hi);
    }
  }

  /** A window appended to the picked scores is the pick of the window's indexes appended. */
  lemma {:induction false} WindowPick(s: seq<real>, idx: seq<int>, lo: int, hi: int, c: int)
    requires InBounds(idx, |s|) && 0 <= lo && (lo < hi ==> hi <= |s|)
    ensures InBounds(idx + SchemaUtil.Range(lo, hi), |s|) &&
            ScaledPick(s, idx, c) + Window(s, lo, hi, c) == ScaledPick(s, idx + SchemaUtil.Range(lo, hi), c)
    decreases hi - lo
  {
    RangeInBounds(idx, lo, hi, |s|);
    if hi > lo {
      WindowPick(s, idx, lo, hi - 1, c);
      RangeAppend(idx, lo, hi);
      ScaledPickSnoc(s, idx + SchemaUtil.Range(lo, hi - 1), hi - 1, c);
      AppendAssoc(ScaledPick(s, idx, c), Window(s, lo, hi - 1, c), [Scale(s[hi - 1], c)]);
    } else {
      RangeAppendEmpty(idx, lo, hi);
    }
  }

  lemma AppendAssoc<T>(a: seq<T>, b: seq<T>, c: seq<T>)
    ensures a + (b + c) == (a + b) + c
  {
  }

  /** The same for the ids. */
  lemma {:induction false} IdsWindowPick(ids: MilvusIds.IDs, idx: seq<int>, lo: int, hi: int)
    requires !ids.NoId? && InBounds(idx, IdCount(ids)) && 0 <= lo && (lo < hi ==> hi <= IdCount(ids))
    ensures InBounds(idx + SchemaUtil.Range(lo, hi), IdCount(ids))
    ensures IdsWindow(PickIds(ids, idx), ids, lo, hi) == PickIds(ids, idx + SchemaUtil.Range(lo, hi))
    decreases hi - lo
  {
    if hi > lo {
      IdsWindowPick(ids, idx, lo, hi - 1);
      IdsWindowPickStep(ids, idx, lo, hi);
    } else {
      IdsWindowPickEmpty(ids, idx, lo, hi);
    }
  }

  lemma IdsWindowPickEmpty(ids: MilvusIds.IDs, idx: seq<int>, lo: int, hi: int)
    requires !ids.NoId? && InBounds(idx, IdCount(ids)) && 0 <= lo && hi <= lo
    ensures InBounds(idx + SchemaUtil.Range(lo, hi), IdCount(ids))
    ensures IdsWindow(PickIds(ids, idx), ids, lo, hi) == PickIds(ids, idx + SchemaUtil.Range(lo, hi))
  {
    RangeAppendEmpty(idx, lo, hi);
  }

  lemma IdsWindowPickStep(ids: MilvusIds.IDs, idx: seq<int>, lo: int, hi: int)
    requires !ids.NoId? && InBounds(idx, IdCount(ids)) && 0 <= lo < hi <= IdCount(ids)
    requires InBounds(idx + SchemaUtil.Range(lo, hi - 1), IdCount(ids))
    requires IdsWindow(PickIds(ids, idx), ids, lo, hi - 1) == PickIds(ids, idx + SchemaUtil.Range(lo, hi - 1))
    ensures InBounds(idx + SchemaUtil.Range(lo, hi), IdCount(ids))
    ensures IdsWindow(PickIds(ids, idx), ids, lo, hi) == PickIds(ids, idx + SchemaUtil.Range(lo, hi))
  {
    RangeAppend(idx, lo, hi);
    var idx' := idx + SchemaUtil.Range(lo, hi - 1);
    PickIdsSnoc(ids, idx', hi - 1);
  }

  /** One more query appends its window start+offset .. start+topk-1 to the kept indexes. */
  lemma KeptStep(topks: seq<int>, offset: int, n: nat)
    requires 0 < n <= |topks|
    ensures SchemaUtil.SliceIndexes(Ranges(topks, offset, n)) ==
              SchemaUtil.SliceIndexes(Ranges(topks, offset, n - 1)) +
              SchemaUtil.Range(Start(topks, n - 1) + offset, Start(topks, n - 1) + topks[n - 1])
  {
    var lo := Start(topks, n - 1) + offset;
    var hi := Start(topks, n - 1) + topks[n - 1];
    var limit := Limit(topks[n - 1], offset);
    var rs := Ranges(topks, offset, n - 1);
    assert Ranges(topks, offset, n) == rs + [(lo, limit)];
    SliceIndexesSnoc(rs, (lo, limit));
    assert SchemaUtil.Range(lo, lo + limit) == SchemaUtil.Range(lo, hi) by {
      if limit == 0 {
        assert |SchemaUtil.Range(lo, lo + limit)| == 0 == |SchemaUtil.Range(lo, hi)|;
      } else {
        assert lo + limit == hi;
      }
    }
  }

  /** The hit positions of the first n queries' windows, window after window. */
  function KeptUpTo(topks: seq<int>, offset: int, n: nat): seq<int>
    requires n <= |topks|
  {
    if n == 0 then []
    else KeptUpTo(topks, offset, n - 1) + SchemaUtil.Range(Start(topks, n - 1) + offset, Start(topks, n - 1) + topks[n - 1])
  }

  /** The windows are the ranges' indexes. */
  lemma {:induction false} KeptUpToIsSlice(topks: seq<int>, offset: int, n: nat)
    requires n <= |topks|
    ensures KeptUpTo(topks, offset, n) == SchemaUtil.SliceIndexes(Ranges(topks, offset, n))
    decreases n
  {
    if n > 0 {
      KeptUpToIsSlice(topks, offset, n - 1);
      KeptStep(topks, offset, n);
      KeptUpToIsSliceStep(topks, offset, n);
    }
  }

  lemma KeptUpToIsSliceStep(topks: seq<int>, offset: int, n: nat)
    requires 0 < n <= |topks|
    requires KeptUpTo(topks, offset, n - 1) == SchemaUtil.SliceIndexes(Ranges(topks, offset, n - 1))
    requires SchemaUtil.SliceIndexes(Ranges(topks, offset, n)) ==
               SchemaUtil.SliceIndexes(Ranges(topks, offset, n - 1)) +
               SchemaUtil.Range(Start(topks, n - 1) + offset, Start(topks, n - 1) + topks[n - 1])
    ensures KeptUpTo(topks, offset, n) == SchemaUtil.SliceIndexes(Ranges(topks, offset, n))
  {
  }

  /** Window after window, the loop copies exactly the scores of the kept indexes. */
  lemma {:induction false} ScoresUpToIsPick(tmp: SearchResultData, offset: int, c: int, n: nat)
    requires WellFormedResult(tmp) && 0 <= offset && n <= tmp.numQueries
    ensures InBounds(KeptUpTo(tmp.topks, offset, n), |tmp.scores|)
    ensures ScoresUpTo(tmp, offset, c, n) == ScaledPick(tmp.scores, KeptUpTo(tmp.topks, offset, n), c)
    decreases n
  {
    if n > 0 {
      ScoresUpToIsPick(tmp, offset, c, n - 1);
      ScoresUpToIsPickStep(tmp, offset, c, n);
    }
  }

  lemma ScoresUpToIsPickStep(tmp: SearchResultData, offset: int, c: int, n: nat)
    requires WellFormedResult(tmp) && 0 <= offset && 0 < n <= tmp.numQueries
    requires InBounds(KeptUpTo(tmp.topks, offset, n - 1), |tmp.scores|)
    requires ScoresUpTo(tmp, offset, c, n - 1) == ScaledPick(tmp.scores, KeptUpTo(tmp.topks, offset, n - 1), c)
    ensures InBounds(KeptUpTo(tmp.topks, offset, n), |tmp.scores|)
    ensures ScoresUpTo(tmp, offset, c, n) == ScaledPick(tmp.scores, KeptUpTo(tmp.topks, offset, n), c)
  {
    WindowInHits(tmp.topks, n - 1);
    var cur := Start(tmp.topks, n - 1);
    var lo, hi := cur + offset, cur + tmp.topks[n - 1];
    var prev := KeptUpTo(tmp.topks, offset, n - 1);
    assert KeptUpTo(tmp.topks, offset, n) == prev + SchemaUtil.Range(lo, hi);
    assert ScoresUpTo(tmp, offset, c, n) == ScoresUpTo(tmp, offset, c, n - 1) + Window(tmp.scores, lo, hi, c);
    WindowPick(tmp.scores, prev, lo, hi, c);
  }

  /** Window after window, the loop copies exactly the ids of the kept indexes. */
  lemma {:induction false} IdsUpToIsPick(tmp: SearchResultData, offset: int, n: nat)
    requires WellFormedResult(tmp) && 0 <= offset && n <= tmp.numQueries
    ensures InBounds(KeptUpTo(tmp.topks, offset, n), IdCount(tmp.ids))
    ensures IdsUpTo(tmp, offset, n) == PickIds(tmp.ids, KeptUpTo(tmp.topks, offset, n))
    decreases n
  {
    if n > 0 {
      IdsUpToIsPick(tmp, offset, n - 1);
      IdsUpToIsPickStep(tmp, offset, n);
    }
  }

  lemma IdsUpToIsPickStep(tmp: SearchResultData, offset: int, n: nat)
    requires WellFormedResult(tmp) && 0 <= offset && 0 < n <= tmp.numQueries
    requires InBounds(KeptUpTo(tmp.topks, offset, n - 1), IdCount(tmp.ids))
    requires IdsUpTo(tmp, offset, n - 1) == PickIds(tmp.ids, KeptUpTo(tmp.topks, offset, n - 1))
    ensures InBounds(KeptUpTo(tmp.topks, offset, n), IdCount(tmp.ids))
    ensures IdsUpTo(tmp, offset, n) == PickIds(tmp.ids, KeptUpTo(tmp.topks, offset, n))
  {
    WindowInHits(tmp.topks, n - 1);
    var cur := Start(tmp.topks, n - 1);
    var lo, hi := cur + offset, cur + tmp.topks[n - 1];
    var prev := KeptUpTo(tmp.topks, offset, n - 1);
    assert KeptUpTo(tmp.topks, offset, n) == prev + SchemaUtil.Range(lo, hi);
    assert IdsUpTo(tmp, offset, n) == IdsWindow(IdsUpTo(tmp, offset, n - 1), tmp.ids, lo, hi);
    IdsWindowPick(tmp.ids, prev, lo, hi);
  }

  /** The per-query counts PostProcess reports when it copies hits. */
  function Limits(topks: seq<int>, offset: int, n: nat): (r: seq<int>)
    requires n <= |topks|
    ensures |r| == n
  {
    if n == 0 then [] else Limits(topks, offset, n - 1) + [Limit(topks[n - 1], offset)]
  }

  lemma {:induction false} LimitsAt(topks: seq<int>, offset: int, n: nat)
    requires n <= |topks|
    ensures forall i | 0 <= i < n :: Limits(topks, offset, n)[i] == Limit(topks[i], offset)
    decreases n
  {
    if n > 0 {
      LimitsAt(topks, offset, n - 1);
    }
  }

  /** The hit positions PostProcess keeps, in order. */
  function KeptIndexes(tmp: SearchResultData, offset: int): seq<int>
    requires WellFormedResult(tmp)
  {
    SchemaUtil.SliceIndexes(Ranges(tmp.topks, offset, tmp.numQueries))
  }

  /** The kept scores, multiplied by the metric's coefficient. */
  function KeptScores(tmp: SearchResultData, offset: int, coefficient: int): (r: seq<real>)
    requires WellFormedResult(tmp) && 0 <= offset
    ensures |r| == |KeptIndexes(tmp, offset)|
  {
    RangesInBounds(tmp.topks, offset, tmp.numQueries, |tmp.scores|);
    ScaledPick(tmp.scores, KeptIndexes(tmp, offset), coefficient)
  }

  /** The ids of the kept hits. */
  function KeptIds(tmp: SearchResultData, offset: int): MilvusIds.IDs
    requires WellFormedResult(tmp) && 0 <= offset
  {
    RangesInBounds(tmp.topks, offset, tmp.numQueries, |tmp.scores|);
    PickIds(tmp.ids, KeptIndexes(tmp, offset))
  }

  /** The result columns sliced to the kept rows and relabelled from the schema. */
  function KeptColumns(fds: seq<FieldData>, ranges: seq<(int, int)>, outputs: seq<string>, fields: seq<FieldSchema>): (r: seq<FieldData>)
    requires ColumnsReadable(fds, ranges)
    ensures |r| == |fds|
  {
    seq(|fds|, c requires 0 <= c < |fds| => FieldInfo.Relabel(outputs, fields, Sliced(fds[c], ranges)))
  }

  /** The result PostProcess builds from segcore's result. */
  function PostProcessResult(tmp: SearchResultData, offset: int, metric: string, userOutputs: seq<string>,
                             outputs: seq<string>, schema: CollectionSchema): SearchResultData
    requires WellFormedResult(tmp) && 0 <= offset
    requires ColumnsReadable(tmp.fieldsData, Ranges(tmp.topks, offset, tmp.numQueries))
  {
    var nq := tmp.numQueries;
    if CopiesHits(tmp, offset) then
      SearchResultData(
        nq, MaxLimit(tmp.topks, offset, nq), Limits(tmp.topks, offset, nq),
        KeptScores(tmp, offset, ScoreCoefficient(metric)), KeptIds(tmp, offset), userOutputs,
        KeptColumns(tmp.fieldsData, Ranges(tmp.topks, offset, nq), outputs, schema.fields))
    else
      SearchResultData(nq, 0, Zeros(nq), [], MilvusIds.NoId, [], [])
  }

  function Zeros(n: nat): (r: seq<int>)
    ensures |r| == n && forall i | 0 <= i < n :: r[i] == 0
  {
    if n == 0 then [] else Zeros(n - 1) + [0]
  }

  /**
   * The kept hits of query i are its hits start(i)+offset .. start(i)+topk_i - 1,
   * where start(i) counts the hits of the queries before it; nothing else is kept.
   */
  lemma KeptIndexesAre(tmp: SearchResultData, offset: int)
    requires WellFormedResult(tmp)
    ensures |KeptIndexes(tmp, offset)| == SchemaUtil.RangeCount(Ranges(tmp.topks, offset, tmp.numQueries))
    ensures forall x :: x in KeptIndexes(tmp, offset) <==>
              exists i | 0 <= i < tmp.numQueries :: Start(tmp.topks, i) + offset <= x < Start(tmp.topks, i) + tmp.topks[i]
  {
    var nq := tmp.numQueries;
    var rs := Ranges(tmp.topks, offset, nq);
    SchemaUtil.SliceIndexesLength(rs);
    forall x ensures x in KeptIndexes(tmp, offset) <==>
                     exists i | 0 <= i < nq :: Start(tmp.topks, i) + offset <= x < Start(tmp.topks, i) + tmp.topks[i] {
      SchemaUtil.SliceIndexesMembership(rs, x);
      if exists r | 0 <= r < |rs| :: rs[r].0 <= x < rs[r].0 + rs[r].1 {
        var r :| 0 <= r < |rs| && rs[r].0 <= x < rs[r].0 + rs[r].1;
        RangesAt(tmp.topks, offset, nq, r);
      }
      if exists i | 0 <= i < nq :: Start(tmp.topks, i) + offset <= x < Start(tmp.topks, i) + tmp.topks[i] {
        var i :| 0 <= i < nq && Start(tmp.topks, i) + offset <= x < Start(tmp.topks, i) + tmp.topks[i];
        RangesAt(tmp.topks, offset, nq, i);
      }
    }
  }

  /**
   * When hits are copied: query i reports max(topk_i - offset, 0) hits, top_k
   * is the largest of these, and the k-th score is the k-th kept hit's score
   * times 1 for IP/COSINE and -1 otherwise.
   */
  lemma PostProcessKeepsWindows(tmp: SearchResultData, offset: int, metric: string, userOutputs: seq<string>,
                                outputs: seq<string>, schema: CollectionSchema)
    requires WellFormedResult(tmp) && 0 <= offset && CopiesHits(tmp, offset)
    requires ColumnsReadable(tmp.fieldsData, Ranges(tmp.topks, offset, tmp.numQueries))
    ensures var r := PostProcessResult(tmp, offset, metric, userOutputs, outputs, schema);
            var idx := KeptIndexes(tmp, offset);
            |r.topks| == tmp.numQueries &&
            (forall i | 0 <= i < tmp.numQueries :: r.topks[i] == Limit(tmp.topks[i], offset) <= r.topK) &&
            (r.topK == 0 || exists i | 0 <= i < tmp.numQueries :: r.topK == r.topks[i]) &&
            r.outputFields == userOutputs && InBounds(idx, |tmp.scores|) && |r.scores| == |idx| &&
            (forall k | 0 <= k < |idx| :: r.scores[k] == tmp.scores[idx[k]] * (ScoreCoefficient(metric) as real))
  {
    RangesInBounds(tmp.topks, offset, tmp.numQueries, |tmp.scores|);
    ScaledPickAt(tmp.scores, KeptIndexes(tmp, offset), ScoreCoefficient(metric));
    LimitsAt(tmp.topks, offset, tmp.numQueries);
    MaxLimitIsMax(tmp.topks, offset, tmp.numQueries);
  }

  /** The kept ids are the ids of the kept hits, of the same kind; none are set when no hit is kept. */
  lemma PostProcessIds(tmp: SearchResultData, offset: int, metric: string, userOutputs: seq<string>,
                       outputs: seq<string>, schema: CollectionSchema)
    requires WellFormedResult(tmp) && 0 <= offset && CopiesHits(tmp, offset)
    requires ColumnsReadable(tmp.fieldsData, Ranges(tmp.topks, offset, tmp.numQueries))
    ensures var r := PostProcessResult(tmp, offset, metric, userOutputs, outputs, schema);
            var idx := KeptIndexes(tmp, offset);
            InBounds(idx, IdCount(tmp.ids)) &&
            (|idx| == 0 ==> r.ids == MilvusIds.NoId) &&
            (|idx| > 0 && tmp.ids.IntId? ==>
               r.ids.IntId? && |r.ids.ints| == |idx| &&
               (forall k | 0 <= k < |idx| :: r.ids.ints[k] == tmp.ids.ints[idx[k]])) &&
            (|idx| > 0 && tmp.ids.StrId? ==>
               r.ids.StrId? && |r.ids.strs| == |idx| &&
               (forall k | 0 <= k < |idx| :: r.ids.strs[k] == tmp.ids.strs[idx[k]]))
  {
    RangesInBounds(tmp.topks, offset, tmp.numQueries, |tmp.scores|);
    PickIdsAt(tmp.ids, KeptIndexes(tmp, offset));
  }

  /**
   * When nq * offset is at least the number of hits, no hit is copied: every
   * query reports 0, top_k is 0, and the result has no scores, ids or columns.
   */
  lemma PostProcessEmptyWhenOffsetCoversHits(tmp: SearchResultData, offset: int, metric: string, userOutputs: seq<string>,
                                             outputs: seq<string>, schema: CollectionSchema)
    requires WellFormedResult(tmp) && 0 <= offset && !CopiesHits(tmp, offset)
    requires ColumnsReadable(tmp.fieldsData, Ranges(tmp.topks, offset, tmp.numQueries))
    ensures var r := PostProcessResult(tmp, offset, metric, userOutputs, outputs, schema);
            |r.topks| == tmp.numQueries && (forall i | 0 <= i < |r.topks| :: r.topks[i] == 0) &&
            r.topK == 0 && r.scores == [] && r.ids == MilvusIds.NoId && r.fieldsData == [] && r.outputFields == []
  {
  }

  /**
   * When every query returned the same number of hits, the shortcut agrees
   * with the per-query rule: reporting 0 for every query is what
   * max(topk_i - offset, 0) gives.
   */
  lemma ShortcutAgreesOnEqualCounts(tmp: SearchResultData, offset: int, metric: string, userOutputs: seq<string>,
                                    outputs: seq<string>, schema: CollectionSchema, t: int)
    requires WellFormedResult(tmp) && 0 <= offset && !CopiesHits(tmp, offset) && tmp.numQueries > 0
    requires forall i | 0 <= i < tmp.numQueries :: tmp.topks[i] == t
    requires ColumnsReadable(tmp.fieldsData, Ranges(tmp.topks, offset, tmp.numQueries))
    ensures forall i | 0 <= i < tmp.numQueries ::
              PostProcessResult(tmp, offset, metric, userOutputs, outputs, schema).topks[i] == Limit(tmp.topks[i], offset)
  {
    StartUniform(tmp.topks, t, tmp.numQueries);
    if t > offset {
      MulStrict(tmp.numQueries, t, offset);
    }
  }

  lemma {:induction false} MulStrict(n: nat, x: int, y: int)
    requires n > 0 && x > y
    ensures n * x > n * y
  {
    if n > 1 {
      MulStrict(n - 1, x, y);
      assert n * x == (n - 1) * x + x;
      assert n * y == (n - 1) * y + y;
    }
  }

  lemma {:induction false} StartUniform(topks: seq<int>, t: int, n: nat)
    requires n <= |topks| && forall i | 0 <= i < n :: topks[i] == t
    ensures Start(topks, n) == n * t
  {
    if n > 0 {
      StartUniform(topks, t, n - 1);
    }
  }

  /** Appending one range appends its indexes. */
  lemma SliceIndexesSnoc(ranges: seq<(int, int)>, r: (int, int))
    ensures SchemaUtil.SliceIndexes(ranges + [r]) == SchemaUtil.SliceIndexes(ranges) + SchemaUtil.Range(r.0, r.0 + r.1)
  {
    assert (ranges + [r])[..|ranges|] == ranges;
  }

  // ---------------------------------------------------------------------------
  // The task

  class SearchTask {
    const request: SearchRequest
    const schema: CollectionSchema
    /** The stored index metas; None for one whose bytes do not parse. */
    const allIndex: seq<Option<FieldIndexMeta>>
    var outputFields: seq<string>
    var userOutputFields: seq<string>
    var topk: int
    var offset: int
    var annField: string
    var metric: string
    var groupByName: string

    /** The task fields as the parameter loop's starting point (the two locals start at -1 and ""). */
    function Params(): SearchParams
      reads this`topk, this`offset, this`metric, this`groupByName, this`annField
    {
      SearchParams(topk, offset, metric, -1, "", groupByName, annField)
    }

    constructor(request: SearchRequest, schema: CollectionSchema, allIndex: seq<Option<FieldIndexMeta>>)
      ensures this.request == request && this.schema == schema && this.allIndex == allIndex
      ensures outputFields == [] && userOutputFields == []
      ensures Params() == INITIAL_PARAMS
    {
      this.request := request;
      this.schema := schema;
      this.allIndex := allIndex;
      outputFields := [];
      userOutputFields := [];
      topk := -1;
      offset := 0;
      annField := "";
      metric := "";
      groupByName := "";
    }

    /** ParseSearchInfo, with the offset lower bound; the task fields keep what the loop assigned. */
    method ParseSearchInfo() returns (ok: bool, info: QueryInfo)
      modifies this`topk, this`offset, this`metric, this`groupByName, this`annField
      ensures var r := ParseInfoFrom(old(Params()), request.searchParams, schema.fields);
              ok == r.ok && info == r.info &&
              topk == r.params.topk && offset == r.params.offset && metric == r.params.metric &&
              groupByName == r.params.groupByName && annField == r.params.annField
    {
      ghost var p0 := Params();
      var roundDecimal := -1;
      var searchParamStr := "";
      var kvs := request.searchParams;
      var i := 0;
      while i < |kvs|
        invariant 0 <= i <= |kvs|
        invariant ScanFrom(p0, kvs[..i]) ==
                  Scan(true, SearchParams(topk, offset, metric, roundDecimal, searchParamStr, groupByName, annField))
      {
        var kv := kvs[i];
        assert kvs[..i + 1][..i] == kvs[..i] && kvs[..i + 1][i] == kv;
        var read;
        read, roundDecimal, searchParamStr := ReadOne(kv, roundDecimal, searchParamStr);
        if !read {
          ScanStopStays(p0, kvs, i + 1);
          return false, EMPTY_INFO;
        }
        i := i + 1;
      }
      assert kvs[..i] == kvs;
      if topk <= 0 || topk > TOPK_LIMIT {
        return false, EMPTY_INFO;
      }
      if offset < 0 || offset > TOPK_LIMIT {
        return false, EMPTY_INFO;
      }
      if topk + offset > TOPK_LIMIT {
        return false, EMPTY_INFO;
      }
      if roundDecimal != -1 && (roundDecimal > 6 || roundDecimal < 0) {
        return false, EMPTY_INFO;
      }
      var groupById := ROW_ID_FIELD;
      if groupByName != "" {
        groupById := FindGroupByField(schema.fields, groupByName);
        if groupById == -1 {
          return false, EMPTY_INFO;
        }
      }
      info := QueryInfo(topk + offset, searchParamStr, roundDecimal, groupById, "");
      ok := true;
    }

    /**
     * One parameter of the loop: the field of its key takes its value; false
     * when a number key's value does not parse, and then nothing is assigned.
     */
    method ReadOne(kv: KV, rdIn: int, spIn: string) returns (ok: bool, rd: int, sp: string)
      modifies this`topk, this`offset, this`metric, this`groupByName, this`annField
      ensures ReadParam(old(SearchParams(topk, offset, metric, rdIn, spIn, groupByName, annField)), kv) ==
              if ok then Some(SearchParams(topk, offset, metric, rd, sp, groupByName, annField)) else None
      ensures !ok ==> unchanged(this)
    {
      ghost var q := SearchParams(topk, offset, metric, rdIn, spIn, groupByName, annField);
      KeysDistinct();
      ok, rd, sp := true, rdIn, spIn;
      if kv.key == TOPK_KEY {
        var v := Decimal.Stoll(kv.value);
        if !v.Parsed? {
          return false, rd, sp;
        }
        topk := v.value;
      } else if kv.key == OFFSET_KEY {
        var v := Decimal.Stoll(kv.value);
        if !v.Parsed? {
          return false, rd, sp;
        }
        offset := v.value;
      } else if kv.key == METRIC_TYPE_KEY {
        metric := kv.value;
      } else if kv.key == ROUND_DECIMAL_KEY {
        var v := Decimal.Stoll(kv.value);
        if !v.Parsed? {
          return false, rd, sp;
        }
        rd := v.value;
      } else if kv.key == SEARCH_PARAM_KEY {
        sp := kv.value;
      } else if kv.key == GROUP_BY_FIELD_KEY {
        groupByName := kv.value;
      } else if kv.key == ANN_FIELD_KEY {
        annField := kv.value;
      }
    }

    /** The index loop of Process: the metric of the last meta of the field, or false for an unreadable meta. */
    method ScanIndexMetric(fieldId: int) returns (ok: bool, indexMetric: string)
      ensures ok <==> IndexMetricUpTo(allIndex, fieldId, |allIndex|).Some?
      ensures ok ==> indexMetric == IndexMetricUpTo(allIndex, fieldId, |allIndex|).value
    {
      indexMetric := "";
      var i := 0;
      while i < |allIndex|
        invariant 0 <= i <= |allIndex|
        invariant IndexMetricUpTo(allIndex, fieldId, i) == Some(indexMetric)
      {
        var meta := allIndex[i];
        if meta.None? {
          assert IndexMetricUpTo(allIndex, fieldId, i + 1).None?;
          NoneStays(allIndex, fieldId, i + 1);
          return false, indexMetric;
        }
        if meta.value.fieldId == fieldId {
          indexMetric := SchemaUtil.GetIndexMetricType(meta.value);
        }
        i := i + 1;
      }
      ok := true;
    }

    /** Process after ParseSearchInfo: the vector field, the metric check and the filter. */
    method ProcessVectorAnns(exprParses: bool) returns (r: AnnsOutcome)
      modifies this`metric
      ensures r == VectorAnnsOutcome(schema, old(Params()), allIndex, request.dsl, exprParses)
      ensures metric == r.metric
    {
      var found := SchemaUtil.FindVectorField(schema, annField);
      if found.Failure? {
        return AnnsOutcome(found.status, 0, None, metric);
      }
      var field := found.value;
      var vtype := SchemaUtil.DataTypeToVectorType(field.dataType);
      var ok, indexMetric := ScanIndexMetric(field.fieldId);
      if !ok {
        return AnnsOutcome(MilvusStatus.ServiceInternal(""), field.fieldId, vtype, metric);
      }
      if indexMetric == "" {
        return AnnsOutcome(MilvusStatus.IndexNotFound(""), field.fieldId, vtype, metric);
      }
      if metric == "" {
        metric := indexMetric;
      }
      if metric == "" || metric != indexMetric {
        return AnnsOutcome(MilvusStatus.ParameterInvalid(""), field.fieldId, vtype, metric);
      }
      var st := MilvusStatus.Ok();
      if request.dsl != "" {
        st := SchemaUtil.ParseExpr(request.dsl, exprParses);
      }
      r := AnnsOutcome(st, field.fieldId, vtype, metric);
    }

    /**
     * Process: output fields, the query info, the vector field and its
     * metric, and the filter; the plan, the placeholder group and the nq/topk
     * vectors are filled on the way.
     */
    method Process(parseIdent: string -> seq<string>, exprParses: bool)
      returns (s: MilvusStatus.Status, plan: PlanNode, placeholder: string, nqs: seq<int>, topks: seq<int>)
      modifies this
      ensures !SchemaUtil.AllAccepted(schema, request.outputFields) ==> s == MilvusStatus.ParameterInvalid("")
      ensures SchemaUtil.AllAccepted(schema, request.outputFields) ==>
                Lex.Sorted(outputFields) && Lex.Sorted(userOutputFields) &&
                (forall y :: y in outputFields <==> y in SchemaUtil.Finish(SchemaUtil.RequestedResult(schema, parseIdent, request.outputFields), schema, false)) &&
                (forall y :: y in userOutputFields <==> y in SchemaUtil.Finish(SchemaUtil.RequestedUser(schema, parseIdent, request.outputFields), schema, false))
      ensures SchemaUtil.AllAccepted(schema, request.outputFields) &&
              !(forall i | 0 <= i < |outputFields| :: outputFields[i] in SchemaUtil.NameIds(schema.fields)) ==>
                s == MilvusStatus.ParameterInvalid("")
      ensures SchemaUtil.AllAccepted(schema, request.outputFields) &&
              (forall i | 0 <= i < |outputFields| :: outputFields[i] in SchemaUtil.NameIds(schema.fields)) ==>
                var info := ParseInfoFrom(old(Params()), request.searchParams, schema.fields);
                (!info.ok ==> s == MilvusStatus.ParameterInvalid("")) &&
                (info.ok ==>
                   var anns := VectorAnnsOutcome(schema, info.params, allIndex, request.dsl, exprParses);
                   s == anns.status && nqs == [request.nq] && topks == [info.info.topk] &&
                   placeholder == request.placeholderGroup && offset == info.params.offset && metric == anns.metric &&
                   (s.IsOk() ==>
                      |plan.outputFieldIds| == |outputFields| &&
                      (forall i | 0 <= i < |outputFields| :: plan.outputFieldIds[i] == SchemaUtil.NameIds(schema.fields)[outputFields[i]]) &&
                      plan.vectorAnns == VectorAnns(PLACEHOLDER_TAG, info.info.(metricType := anns.metric), anns.fieldId, anns.vectorType)))
    {
      plan := EMPTY_PLAN;
      placeholder := "";
      nqs := [];
      topks := [];
      ghost var p0 := Params();
      var ok;
      ok, outputFields, userOutputFields := SchemaUtil.TranslateOutputFields(request.outputFields, schema, false, parseIdent, [], []);
      if !ok {
        return MilvusStatus.ParameterInvalid(""), plan, placeholder, nqs, topks;
      }
      assert outputFields[0..] == outputFields && userOutputFields[0..] == userOutputFields;
      var ids;
      ok, ids := SchemaUtil.GetOutputFieldsIds(outputFields, schema, []);
      if !ok {
        return MilvusStatus.ParameterInvalid(""), plan, placeholder, nqs, topks;
      }
      plan := plan.(outputFieldIds := ids);
      var anns;
      s, anns, placeholder, nqs, topks := PlanVectorAnns(exprParses);
      plan := plan.(vectorAnns := anns);
    }

    /** Process from ParseSearchInfo on: the query info, the nq and topk vectors, the vector field, its metric and the filter. */
    method PlanVectorAnns(exprParses: bool)
      returns (s: MilvusStatus.Status, anns: VectorAnns, placeholder: string, nqs: seq<int>, topks: seq<int>)
      modifies this`topk, this`offset, this`metric, this`groupByName, this`annField
      ensures var info := ParseInfoFrom(old(Params()), request.searchParams, schema.fields);
              (!info.ok ==> s == MilvusStatus.ParameterInvalid("") && placeholder == "" && nqs == [] && topks == []) &&
              (info.ok ==>
                 var a := VectorAnnsOutcome(schema, info.params, allIndex, request.dsl, exprParses);
                 s == a.status && nqs == [request.nq] && topks == [info.info.topk] &&
                 placeholder == request.placeholderGroup && offset == info.params.offset && metric == a.metric &&
                 anns == VectorAnns(PLACEHOLDER_TAG, info.info.(metricType := a.metric), a.fieldId, a.vectorType))
    {
      anns := EMPTY_PLAN.vectorAnns;
      var ok, info := ParseSearchInfo();
      if !ok {
        return MilvusStatus.ParameterInvalid(""), anns, "", [], [];
      }
      placeholder := request.placeholderGroup;
      nqs := [request.nq];
      topks := [info.topk];
      var r := ProcessVectorAnns(exprParses);
      s := r.status;
      anns := VectorAnns(PLACEHOLDER_TAG, info.(metricType := metric), r.fieldId, r.vectorType);
    }

    /**
     * PostProcess: the kept window of every query, its scores turned so that
     * larger is better, the ids beside them, and the result columns sliced to
     * the same rows.
     */
    method PostProcess(tmp: SearchResultData) returns (r: SearchResultData)
      requires WellFormedResult(tmp) && 0 <= offset
      requires ColumnsReadable(tmp.fieldsData, Ranges(tmp.topks, offset, tmp.numQueries))
      ensures r == PostProcessResult(tmp, offset, metric, userOutputFields, outputFields, schema)
    {
      var nq := tmp.numQueries;
      var coefficient := if PositivelyRelated(metric) then 1 else -1;
      if !(nq * offset < |tmp.scores|) {
        var zeros: seq<int> := [];
        var i := 0;
        while i < nq
          invariant 0 <= i <= nq && zeros == Zeros(i)
        {
          zeros := zeros + [0];
          i := i + 1;
        }
        return SearchResultData(nq, 0, zeros, [], MilvusIds.NoId, [], []);
      }
      var topK, outTopks, ranges, scores, ids := CopyHits(tmp, offset, coefficient);
      ScoresUpToIsPick(tmp, offset, coefficient, nq);
      IdsUpToIsPick(tmp, offset, nq);
      KeptUpToIsSlice(tmp.topks, offset, nq);
      var columns := SliceColumns(tmp.fieldsData, ranges);
      columns := FieldInfo.FillInFieldInfo(outputFields, schema, columns);
      r := SearchResultData(nq, topK, outTopks, scores, ids, userOutputFields, columns);
    }
  }

  /** The first-match loop of the group-by lookup. */
  method FindGroupByField(fields: seq<FieldSchema>, name: string) returns (id: int)
    ensures id == FirstFieldId(fields, name)
  {
    id := -1;
    var k := 0;
    while k < |fields|
      invariant 0 <= k <= |fields|
      invariant forall j | 0 <= j < k :: fields[j].name != name
    {
      if fields[k].name == name {
        return fields[k].fieldId;
      }
      k := k + 1;
    }
  }

  /** An unreadable meta keeps the index loop stopped. */
  lemma {:induction false} NoneStays(allIndex: seq<Option<FieldIndexMeta>>, fieldId: int, n: nat)
    requires n <= |allIndex| && IndexMetricUpTo(allIndex, fieldId, n).None?
    ensures IndexMetricUpTo(allIndex, fieldId, |allIndex|).None?
    decreases |allIndex| - n
  {
    if n < |allIndex| {
      NoneStays(allIndex, fieldId, n + 1);
    }
  }

  /**
   * The query loop of PostProcess: each query's kept window start+offset ..
   * start+topk-1, its scores scaled by the coefficient and its ids, the
   * per-query counts and their maximum.
   */
  method CopyHits(tmp: SearchResultData, offset: int, coefficient: int)
    returns (topK: int, outTopks: seq<int>, ranges: seq<(int, int)>, scores: seq<real>, ids: MilvusIds.IDs)
    requires WellFormedResult(tmp) && 0 <= offset
    ensures topK == MaxLimit(tmp.topks, offset, tmp.numQueries) && outTopks == Limits(tmp.topks, offset, tmp.numQueries)
    ensures ranges == Ranges(tmp.topks, offset, tmp.numQueries)
    ensures scores == ScoresUpTo(tmp, offset, coefficient, tmp.numQueries)
    ensures ids == IdsUpTo(tmp, offset, tmp.numQueries)
  {
    var nq := tmp.numQueries;
    topK, outTopks, ranges, scores, ids := 0, [], [], [], MilvusIds.NoId;
    var cur := 0;
    var i := 0;
    while i < nq
      invariant 0 <= i <= nq
      invariant cur == Start(tmp.topks, i)
      invariant ranges == Ranges(tmp.topks, offset, i)
      invariant topK == MaxLimit(tmp.topks, offset, i)
      invariant outTopks == Limits(tmp.topks, offset, i)
      invariant scores == ScoresUpTo(tmp, offset, coefficient, i)
      invariant ids == IdsUpTo(tmp, offset, i)
    {
      topK, outTopks, ranges := CountQuery(tmp.topks, offset, i, cur, topK, outTopks, ranges);
      scores, ids := CopyQueryHits(tmp, offset, coefficient, i, cur, scores, ids);
      cur := cur + tmp.topks[i];
      i := i + 1;
    }
  }

  /** The counting part of one pass of the query loop: query i's count, the running maximum and its range. */
  method CountQuery(topks: seq<int>, offset: int, i: nat, cur: int, topKIn: int, outTopksIn: seq<int>, rangesIn: seq<(int, int)>)
    returns (topK: int, outTopks: seq<int>, ranges: seq<(int, int)>)
    requires i < |topks| && cur == Start(topks, i)
    requires rangesIn == Ranges(topks, offset, i) && topKIn == MaxLimit(topks, offset, i) && outTopksIn == Limits(topks, offset, i)
    ensures ranges == Ranges(topks, offset, i + 1) && topK == MaxLimit(topks, offset, i + 1)
    ensures outTopks == Limits(topks, offset, i + 1)
  {
    var limit := 0;
    if topks[i] - offset > 0 {
      limit := topks[i] - offset;
    }
    topK := topKIn;
    if topK < limit {
      topK := limit;
    }
    outTopks := outTopksIn + [limit];
    ranges := rangesIn + [(cur + offset, limit)];
    QueryStep(topks, offset, i);
  }

  /** The copy part of one pass of the query loop: query i's window of hits, scaled, and their ids. */
  method CopyQueryHits(tmp: SearchResultData, offset: int, coefficient: int, i: nat, cur: int,
                       scoresIn: seq<real>, idsIn: MilvusIds.IDs) returns (scores: seq<real>, ids: MilvusIds.IDs)
    requires WellFormedResult(tmp) && 0 <= offset && i < tmp.numQueries && cur == Start(tmp.topks, i)
    requires scoresIn == ScoresUpTo(tmp, offset, coefficient, i) && idsIn == IdsUpTo(tmp, offset, i)
    ensures scores == ScoresUpTo(tmp, offset, coefficient, i + 1) && ids == IdsUpTo(tmp, offset, i + 1)
  {
    UpToStep(tmp, offset, coefficient, i);
    scores, ids := CopyWindow(tmp, cur + offset, cur + tmp.topks[i], coefficient, scoresIn, idsIn);
  }

  /** What one more query adds to the ranges, the counts and their maximum. */
  lemma QueryStep(topks: seq<int>, offset: int, i: nat)
    requires i < |topks|
    ensures Ranges(topks, offset, i + 1) == Ranges(topks, offset, i) + [(Start(topks, i) + offset, Limit(topks[i], offset))]
    ensures Limits(topks, offset, i + 1) == Limits(topks, offset, i) + [Limit(topks[i], offset)]
    ensures MaxLimit(topks, offset, i + 1) ==
              if MaxLimit(topks, offset, i) < Limit(topks[i], offset) then Limit(topks[i], offset) else MaxLimit(topks, offset, i)
    ensures Start(topks, i + 1) == Start(topks, i) + topks[i]
  {
  }

  /** What one more query adds to the copied scores and ids. */
  lemma UpToStep(tmp: SearchResultData, offset: int, c: int, i: nat)
    requires WellFormedResult(tmp) && 0 <= offset && i < tmp.numQueries
    ensures 0 <= Start(tmp.topks, i) && Start(tmp.topks, i) + tmp.topks[i] <= |tmp.scores|
    ensures ScoresUpTo(tmp, offset, c, i + 1) ==
              ScoresUpTo(tmp, offset, c, i) + Window(tmp.scores, Start(tmp.topks, i) + offset, Start(tmp.topks, i) + tmp.topks[i], c)
    ensures IdsUpTo(tmp, offset, i + 1) ==
              IdsWindow(IdsUpTo(tmp, offset, i), tmp.ids, Start(tmp.topks, i) + offset, Start(tmp.topks, i) + tmp.topks[i])
  {
    WindowInHits(tmp.topks, i);
  }

  /** Query i's hits lie among all the hits. */
  lemma WindowInHits(topks: seq<int>, i: nat)
    requires i < |topks| && forall j | 0 <= j < |topks| :: topks[j] >= 0
    ensures 0 <= Start(topks, i) && Start(topks, i) + topks[i] <= Start(topks, |topks|)
  {
    StartMono(topks, i, i + 1);
    StartMono(topks, i + 1, |topks|);
  }

  /** The inner copy loop: hits lo .. hi-1, scaled, and their ids, appended. */
  method CopyWindow(tmp: SearchResultData, lo: int, hi: int, coefficient: int, scoresIn: seq<real>, idsIn: MilvusIds.IDs)
    returns (scores: seq<real>, ids: MilvusIds.IDs)
    requires WellFormedResult(tmp) && 0 <= lo && (lo < hi ==> hi <= |tmp.scores|)
    ensures scores == scoresIn + Window(tmp.scores, lo, hi, coefficient)
    ensures ids == IdsWindow(idsIn, tmp.ids, lo, hi)
  {
    scores, ids := scoresIn, idsIn;
    var j := lo;
    while j < hi
      invariant lo <= j && (j <= hi || j == lo)
      invariant scores == scoresIn + Window(tmp.scores, lo, j, coefficient)
      invariant ids == IdsWindow(idsIn, tmp.ids, lo, j)
      decreases hi - j
    {
      scores := scores + [Scale(tmp.scores[j], coefficient)];
      ids := MilvusIds.AppendToIDs(MilvusIds.FromIDs(tmp.ids, j), ids);
      j := j + 1;
    }
  }

  lemma ScaledPickSnoc(s: seq<real>, idx: seq<int>, k: int, c: int)
    requires InBounds(idx, |s|) && 0 <= k < |s|
    ensures InBounds(idx + [k], |s|)
    ensures ScaledPick(s, idx + [k], c) == ScaledPick(s, idx, c) + [Scale(s[k], c)]
  {
    assert (idx + [k])[..|idx|] == idx && (idx + [k])[|idx|] == k;
  }

  lemma PickIdsSnoc(ids: MilvusIds.IDs, idx: seq<int>, k: int)
    requires !ids.NoId? && InBounds(idx, IdCount(ids)) && 0 <= k < IdCount(ids)
    ensures InBounds(idx + [k], IdCount(ids))
    ensures PickIds(ids, idx + [k]) == MilvusIds.AppendToIDs(MilvusIds.FromIDs(ids, k), PickIds(ids, idx))
  {
    assert (idx + [k])[..|idx|] == idx && (idx + [k])[|idx|] == k;
  }

  /** The column loop of PostProcess: each result column's header and sliced rows. */
  method SliceColumns(fds: seq<FieldData>, ranges: seq<(int, int)>) returns (cols: seq<FieldData>)
    requires ColumnsReadable(fds, ranges)
    ensures |cols| == |fds| && forall c | 0 <= c < |fds| :: cols[c] == Sliced(fds[c], ranges)
  {
    cols := [];
    var c := 0;
    while c < |fds|
      invariant 0 <= c <= |fds| && |cols| == c
      invariant forall c' | 0 <= c' < c :: cols[c'] == Sliced(fds[c'], ranges)
    {
      var fd := fds[c];
      var header := EmptyField(fd.dtype, fd.fieldName, fd.fieldId, fd.isDynamic);
      var _, col := SchemaUtil.SliceFieldData(fd, ranges, header);
      cols := cols + [col];
      c := c + 1;
    }
  }
}
