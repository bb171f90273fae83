// The query task: reading limit and offset into the plan, recognising a
// count(*) query, choosing the output field ids, and shaping segcore's
// retrieve result by keeping the first row of every id and slicing
// [offset, offset + limit).
module QueryTask {
  import opened Wrappers
  import opened Schema
  import MilvusStatus
  import Decimal
  import StringUtil
  import SchemaUtil
  import MilvusIds
  import FieldInfo
  import Lex


  /** milvus.QueryRequest: the filter, the requested output fields and the query parameters. */
  datatype QueryRequest = QueryRequest(expr: string, outputFields: seq<string>, queryParams: seq<KV>)

  /** plan.QueryPlanNode's limit and is_count, and the PlanNode's output field ids (the predicates come from the expression parser). */
  datatype QueryPlan = QueryPlan(limit: int, isCount: bool, outputFieldIds: seq<int>)

  const EMPTY_PLAN: QueryPlan := QueryPlan(0, false, [])

  // ---------------------------------------------------------------------------
  // ParseQueryParams

  /** The task's limit_ and offset_. */
  datatype QueryParams = QueryParams(limit: int, offset: int)

  /** The constructor's values. */
  const INITIAL_PARAMS: QueryParams := QueryParams(-1, 0)

  predicate IsNumberKey(k: string)
  {
    k == LIMIT_KEY || k == OFFSET_KEY
  }

  /** One parameter: limit and offset take std::stoll of their value, which stops the loop when it throws; other keys are ignored. */
  function ReadParam(p: QueryParams, kv: KV): (r: Option<QueryParams>)
    ensures r.None? <==> IsNumberKey(kv.key) && !Decimal.Stoll(kv.value).Parsed?
  {
    if kv.key == LIMIT_KEY then
      match Decimal.Stoll(kv.value) case Parsed(n) => Some(p.(limit := n)) case _ => None
    else if kv.key == OFFSET_KEY then
      match Decimal.Stoll(kv.value) case Parsed(n) => Some(p.(offset := n)) case _ => None
    else Some(p)
  }

  /** Where the loop stands: still going (ok) or stopped by a failed stoll, and the values assigned so far. */
  datatype Scan = Scan(ok: bool, params: QueryParams)

  function ScanFrom(p0: QueryParams, kvs: seq<KV>): Scan
    decreases |kvs|
  {
    if |kvs| == 0 then Scan(true, p0)
    else
      var s := ScanFrom(p0, kvs[..|kvs| - 1]);
      if !s.ok then s
      else match ReadParam(s.params, kvs[|kvs| - 1])
        case None => Scan(false, s.params)
        case Some(q) => Scan(true, q)
  }

  /** Once the loop stopped, later parameters change nothing. */
  lemma {:induction false} ScanStopStays(p0: QueryParams, kvs: seq<KV>, n: int)
    requires 0 <= n <= |kvs| && !ScanFrom(p0, kvs[..n]).ok
    ensures ScanFrom(p0, kvs) == ScanFrom(p0, kvs[..n])
    decreases |kvs| - n
  {
    if n < |kvs| {
      assert kvs[..n + 1][..n] == kvs[..n];
      ScanStopStays(p0, kvs, n + 1);
    } else {
      assert kvs[..n] == kvs;
    }
  }

  /** Every limit and offset parameter's value is one stoll accepts. */
  predicate NumbersParse(kvs: seq<KV>)
  {
    forall i | 0 <= i < |kvs| :: IsNumberKey(kvs[i].key) ==> Decimal.Stoll(kvs[i].value).Parsed?
  }

  /** The loop runs to the end exactly when every limit and offset value parses. */
  lemma {:induction false} ScanRunsThrough(p0: QueryParams, kvs: seq<KV>)
    ensures ScanFrom(p0, kvs).ok <==> NumbersParse(kvs)
    decreases |kvs|
  {
    if |kvs| > 0 {
      var pre := kvs[..|kvs| - 1];
      var kv := kvs[|kvs| - 1];
      ScanRunsThrough(p0, pre);
      NumbersParseSnoc(kvs);
    }
  }

  lemma NumbersParseSnoc(kvs: seq<KV>)
    requires |kvs| > 0
    ensures NumbersParse(kvs) <==>
              NumbersParse(kvs[..|kvs| - 1]) &&
              (IsNumberKey(kvs[|kvs| - 1].key) ==> Decimal.Stoll(kvs[|kvs| - 1].value).Parsed?)
  {
    var pre := kvs[..|kvs| - 1];
    assert forall i | 0 <= i < |pre| :: kvs[i] == pre[i];
  }

  /** When the loop runs to the end, limit_ and offset_ hold stoll of the last limit and offset values, or what they held before. */
  lemma {:induction false} ScanLastWins(p0: QueryParams, kvs: seq<KV>)
    requires ScanFrom(p0, kvs).ok
    ensures ScanFrom(p0, kvs).params ==
              QueryParams(SchemaUtil.NumberOr(kvs, LIMIT_KEY, p0.limit), SchemaUtil.NumberOr(kvs, OFFSET_KEY, p0.offset))
    decreases |kvs|
  {
    if |kvs| > 0 {
      var kv := kvs[|kvs| - 1];
      ScanLastWins(p0, kvs[..|kvs| - 1]);
      assert LIMIT_KEY[0] == 'l' && OFFSET_KEY[0] == 'o';
      if kv.key != LIMIT_KEY { SchemaUtil.LastValueOther(kvs, LIMIT_KEY); }
      if kv.key != OFFSET_KEY { SchemaUtil.LastValueOther(kvs, OFFSET_KEY); }
    }
  }

  /** The status ParseQueryParams returns, the task's limit_ and offset_ after it, and the plan's limit. */
  datatype ParamsOutcome = ParamsOutcome(status: MilvusStatus.Status, params: QueryParams, planLimit: int)

  /**
   * The checks after the loop: the offset must lie in [0, 16384); a limit
   * of at most 0 becomes -1 for a count query, is an error with an empty
   * filter, and becomes 16384 - offset - 1 otherwise; then limit and
   * limit + offset must stay below 16384, and the plan asks for limit + offset.
   */
  function CheckLimits(p: QueryParams, isCount: bool, exprEmpty: bool): (r: ParamsOutcome)
    ensures r.params.offset == p.offset
    ensures r.status.IsOk() ==>
              0 <= p.offset < TOPK_LIMIT && r.params.limit < TOPK_LIMIT &&
              r.planLimit == r.params.limit + p.offset < TOPK_LIMIT
    ensures r.status.IsOk() ==> -1 <= r.params.limit && (!isCount ==> 0 <= r.params.limit)
    ensures !r.status.IsOk() ==> r.status == MilvusStatus.ParameterInvalid("")
  {
    if p.offset < 0 || p.offset >= TOPK_LIMIT then ParamsOutcome(MilvusStatus.ParameterInvalid(""), p, 0)
    else
      var limit :=
        if p.limit > 0 then Some(p.limit)
        else if isCount then Some(-1)
        else if exprEmpty then None
        else Some(TOPK_LIMIT - p.offset - 1);
      if limit.None? then ParamsOutcome(MilvusStatus.ParameterInvalid(""), p, 0)
      else
        var q := p.(limit := limit.value);
        if q.limit >= TOPK_LIMIT || q.limit + q.offset >= TOPK_LIMIT then ParamsOutcome(MilvusStatus.ParameterInvalid(""), q, 0)
        else ParamsOutcome(MilvusStatus.Ok(), q, q.limit + q.offset)
  }

  /** ParseQueryParams from the task's current limit_ and offset_. */
  function ParseParamsFrom(p0: QueryParams, kvs: seq<KV>, isCount: bool, exprEmpty: bool): ParamsOutcome
  {
    var s := ScanFrom(p0, kvs);
    if !s.ok then ParamsOutcome(MilvusStatus.ParameterInvalid(""), s.params, 0)
    else CheckLimits(s.params, isCount, exprEmpty)
  }

  /**
   * ParseQueryParams succeeds exactly when every limit and offset parses,
   * the last offset O lies in [0, 16384), a limit L of at most 0 comes with
   * a count query or a filter, and a positive L has L + O below 16384; the
   * limit is then L, or -1 for a count query, or 16384 - O - 1.
   */
  lemma ParseParamsSpec(p0: QueryParams, kvs: seq<KV>, isCount: bool, exprEmpty: bool)
    ensures var r := ParseParamsFrom(p0, kvs, isCount, exprEmpty);
            var lim := SchemaUtil.NumberOr(kvs, LIMIT_KEY, p0.limit);
            var off := SchemaUtil.NumberOr(kvs, OFFSET_KEY, p0.offset);
            (r.status.IsOk() <==> NumbersParse(kvs) && 0 <= off < TOPK_LIMIT &&
                                  (lim <= 0 ==> isCount || !exprEmpty) && (lim > 0 ==> lim + off < TOPK_LIMIT)) &&
            (r.status.IsOk() ==>
               r.params.offset == off && r.planLimit == r.params.limit + off &&
               r.params.limit == (if lim > 0 then lim else if isCount then -1 else TOPK_LIMIT - off - 1))
  {
    ScanRunsThrough(p0, kvs);
    MilvusStatus.FactoryCodes("");
    if ScanFrom(p0, kvs).ok {
      ScanLastWins(p0, kvs);
    }
  }

  /** A filter-less query that is not a count must give a positive limit. */
  lemma EmptyExprNeedsLimit(kvs: seq<KV>)
    requires SchemaUtil.NumberOr(kvs, LIMIT_KEY, -1) <= 0
    ensures !ParseParamsFrom(INITIAL_PARAMS, kvs, false, true).status.IsOk()
  {
    ParseParamsSpec(INITIAL_PARAMS, kvs, false, true);
  }

  // ---------------------------------------------------------------------------
  // Count detection and output field ids

  /** A count query asks for exactly one output field, which reads count(*) once lowered and trimmed. */
  predicate IsCountQuery(outputs: seq<string>)
  {
    |outputs| == 1 && StringUtil.Trim(StringUtil.ToLower(outputs[0])) == COUNT_STR
  }

  /** Upper-case letters count too, and a second output field or none at all makes it an ordinary query. */
  lemma CountQueryExamples()
    ensures IsCountQuery(["COUNT(*)"])
    ensures !IsCountQuery(["count(*)", "id"]) && !IsCountQuery([])
  {
    var lowered := StringUtil.ToLower("COUNT(*)");
    assert lowered == COUNT_STR by {
      assert |lowered| == 8;
      forall i | 0 <= i < 8 ensures lowered[i] == COUNT_STR[i] { }
    }
    StringUtil.TrimFixpoint(COUNT_STR);
  }

  /** The ids of the user fields (id >= 100) that are not vectors, in schema order. */
  function UserScalarIds(fields: seq<FieldSchema>): seq<int>
    decreases |fields|
  {
    if |fields| == 0 then []
    else
      var f := fields[|fields| - 1];
      UserScalarIds(fields[..|fields| - 1]) +
        (if f.fieldId >= START_OF_USER_FIELD_ID && !SchemaUtil.IsVectorField(f.dataType) then [f.fieldId] else [])
  }

  lemma {:induction false} UserScalarIdsSpec(fields: seq<FieldSchema>, x: int)
    ensures x in UserScalarIds(fields) <==>
              exists i | 0 <= i < |fields| :: fields[i].fieldId == x && x >= START_OF_USER_FIELD_ID && !SchemaUtil.IsVectorField(fields[i].dataType)
    decreases |fields|
  {
    if |fields| > 0 {
      var pre := fields[..|fields| - 1];
      UserScalarIdsSpec(pre, x);
      assert forall i | 0 <= i < |pre| :: pre[i] == fields[i];
    }
  }

  /** The ids of the fields marked primary key, in schema order. */
  function PkIds(fields: seq<FieldSchema>): seq<int>
    decreases |fields|
  {
    if |fields| == 0 then []
    else
      var f := fields[|fields| - 1];
      PkIds(fields[..|fields| - 1]) + (if f.isPrimaryKey then [f.fieldId] else [])
  }

  /** The ids the named output fields add: the pk is skipped, an unknown name fails, system fields are dropped. */
  function NamedIds(outputs: seq<string>, pk: string, nameIds: map<string, int>): Option<seq<int>>
    decreases |outputs|
  {
    if |outputs| == 0 then Some([])
    else
      var o := outputs[|outputs| - 1];
      match NamedIds(outputs[..|outputs| - 1], pk, nameIds)
      case None => None
      case Some(ids) =>
        if o == pk then Some(ids)
        else if o !in nameIds then None
        else Some(ids + (if nameIds[o] >= START_OF_USER_FIELD_ID then [nameIds[o]] else []))
  }

  /**
   * The named ids exist exactly when every output name other than the pk
   * names a schema field; they are then the user-field ids of those names.
   */
  lemma {:induction false} NamedIdsSpec(outputs: seq<string>, pk: string, nameIds: map<string, int>)
    ensures NamedIds(outputs, pk, nameIds).Some? <==> forall i | 0 <= i < |outputs| :: outputs[i] == pk || outputs[i] in nameIds
    ensures NamedIds(outputs, pk, nameIds).Some? ==>
              forall x | x in NamedIds(outputs, pk, nameIds).value ::
                x >= START_OF_USER_FIELD_ID && exists i | 0 <= i < |outputs| :: outputs[i] != pk && outputs[i] in nameIds && nameIds[outputs[i]] == x
    ensures NamedIds(outputs, pk, nameIds).Some? ==>
              forall i | 0 <= i < |outputs| && outputs[i] != pk && nameIds[outputs[i]] >= START_OF_USER_FIELD_ID ::
                nameIds[outputs[i]] in NamedIds(outputs, pk, nameIds).value
    decreases |outputs|
  {
    if |outputs| > 0 {
      var pre := outputs[..|outputs| - 1];
      NamedIdsSpec(pre, pk, nameIds);
      assert forall i | 0 <= i < |pre| :: pre[i] == outputs[i];
    }
  }

  /**
   * GetOutputFieldIds: with no output fields, every user non-vector field;
   * otherwise the primary keys first and then the named user fields, or
   * nothing when a name is unknown.
   */
  function OutputFieldIds(outputs: seq<string>, fields: seq<FieldSchema>): Option<seq<int>>
  {
    if |outputs| == 0 then Some(UserScalarIds(fields))
    else
      match NamedIds(outputs, SchemaUtil.LastPkName(fields), SchemaUtil.NameIds(fields))
      case None => None
      case Some(ids) => Some(PkIds(fields) + ids)
  }

  /** With output fields, the pk ids lead, and the ids fail exactly on a name that is neither the pk nor a schema field. */
  lemma OutputFieldIdsNamed(outputs: seq<string>, fields: seq<FieldSchema>)
    requires |outputs| > 0
    ensures var pk := SchemaUtil.LastPkName(fields);
            var r := OutputFieldIds(outputs, fields);
            (r.Some? <==> forall i | 0 <= i < |outputs| :: outputs[i] == pk || exists j | 0 <= j < |fields| :: fields[j].name == outputs[i]) &&
            (r.Some? ==> |r.value| >= |PkIds(fields)| && r.value[..|PkIds(fields)|] == PkIds(fields))
  {
    NamedIdsSpec(outputs, SchemaUtil.LastPkName(fields), SchemaUtil.NameIds(fields));
    var r := OutputFieldIds(outputs, fields);
    if r.Some? {
      assert r.value[..|PkIds(fields)|] == PkIds(fields);
    }
  }

  // ---------------------------------------------------------------------------
  // Result columns

  /** milvus.proto.segcore.RetrieveResults: the ids of the returned rows and one column per field. */
  datatype RetrieveResults = RetrieveResults(ids: MilvusIds.IDs, fieldsData: seq<FieldData>)

  /** milvus.QueryResults: the result columns and the output field names. */
  datatype QueryResults = QueryResults(fieldsData: seq<FieldData>, outputFields: seq<string>)

  const EMPTY_RESULTS: QueryResults := QueryResults([], [])

  /** A freshly made FieldData: no type, no name, id 0, no rows. */
  const BLANK_FIELD: FieldData := EmptyField(NoneType, "", 0, false)

  /** A column of exactly n full rows (segcore returns one row per id in every typed column). */
  predicate FullRows(fd: FieldData, n: nat)
  {
    SchemaUtil.WellFormedDim(fd) &&
    (fd.dtype != NoneType ==>
       |fd.cells| == SchemaUtil.Offset(n, SchemaUtil.RowWidth(fd)) &&
       (!SchemaUtil.IsDenseVector(fd.dtype) ==> |fd.cells| == n))
  }

  predicate Below(idx: seq<int>, n: nat)
  {
    forall k | 0 <= k < |idx| :: 0 <= idx[k] < n
  }

  /** Every row below n of a column of n full rows can be read. */
  lemma FullRowsReadable(fd: FieldData, n: nat, idx: seq<int>)
    requires FullRows(fd, n) && Below(idx, n)
    ensures SchemaUtil.AllReadable(fd, idx)
  {
    if fd.dtype != NoneType {
      forall k | 0 <= k < |idx| ensures SchemaUtil.RowReadable(fd, idx[k]) {
        SchemaUtil.RowCellsFull(fd, idx[k], n);
      }
    }
  }

  /** Row i < n of a column of n full rows can be read and is one row wide. */
  lemma RowFull(fd: FieldData, n: nat, i: int)
    requires FullRows(fd, n) && fd.dtype != NoneType && 0 <= i < n
    ensures SchemaUtil.RowReadable(fd, i) && |SchemaUtil.RowCells(fd, i)| == SchemaUtil.RowWidth(fd)
  {
    SchemaUtil.RowCellsFull(fd, i, n);
  }

  /** Picking m rows of a column of full rows gives m rows' worth of payload. */
  lemma {:induction false} PickedFullLength(fd: FieldData, n: nat, idx: seq<int>)
    requires FullRows(fd, n) && fd.dtype != NoneType && Below(idx, n)
    ensures SchemaUtil.AllReadable(fd, idx)
    ensures |SchemaUtil.Picked(fd, idx)| == SchemaUtil.Offset(|idx|, SchemaUtil.RowWidth(fd))
    decreases |idx|
  {
    FullRowsReadable(fd, n, idx);
    if |idx| > 0 {
      var m := |idx| - 1;
      var pre := idx[..m];
      assert Below(pre, n) by {
        assert forall k | 0 <= k < m :: pre[k] == idx[k];
      }
      PickedFullLength(fd, n, pre);
      RowFull(fd, n, idx[m]);
      assert SchemaUtil.Picked(fd, idx) == SchemaUtil.Picked(fd, pre) + SchemaUtil.RowCells(fd, idx[m]);
    }
  }

  lemma BelowSlice(idx: seq<int>, n: nat, a: nat, b: nat)
    requires Below(idx, n) && a <= b <= |idx|
    ensures Below(idx[a..b], n)
  {
    assert forall j | 0 <= j < b - a :: idx[a..b][j] == idx[a + j];
  }

  lemma OffsetAdd(a: nat, b: nat, w: int)
    requires a <= b
    ensures SchemaUtil.Offset(a, w) + SchemaUtil.Offset(b - a, w) == SchemaUtil.Offset(b, w)
  {
    SchemaUtil.OffsetIsProduct(a, w);
    SchemaUtil.OffsetIsProduct(b - a, w);
    SchemaUtil.OffsetIsProduct(b, w);
    assert a * w + (b - a) * w == b * w;
  }

  /** The picked rows idx[a..b] sit at payload positions [Offset(a), Offset(b)) of the rows picked by idx. */
  lemma PickedMiddle(fd: FieldData, n: nat, idx: seq<int>, a: nat, b: nat)
    requires FullRows(fd, n) && fd.dtype != NoneType && Below(idx, n) && a <= b <= |idx|
    ensures SchemaUtil.AllReadable(fd, idx) && SchemaUtil.AllReadable(fd, idx[a..b])
    ensures var w := SchemaUtil.RowWidth(fd);
            0 <= SchemaUtil.Offset(a, w) <= SchemaUtil.Offset(b, w) <= |SchemaUtil.Picked(fd, idx)| &&
            SchemaUtil.Picked(fd, idx)[SchemaUtil.Offset(a, w) .. SchemaUtil.Offset(b, w)] == SchemaUtil.Picked(fd, idx[a..b])
  {
    var w := SchemaUtil.RowWidth(fd);
    PickedThree(fd, n, idx, a, b);
    var px, py, pz := SchemaUtil.Picked(fd, idx[..a]), SchemaUtil.Picked(fd, idx[a..b]), SchemaUtil.Picked(fd, idx[b..]);
    SliceMiddle(px, py, pz);
    OffsetAdd(a, b, w);
    RowWidthNonNegative(fd);
    SchemaUtil.OffsetMono(a, b, w);
    PickedFullLength(fd, n, idx);
    SchemaUtil.OffsetMono(b, |idx|, w);
  }

  /** The rows picked by idx are those picked by idx[..a], then idx[a..b], then idx[b..], each a full run of rows. */
  lemma PickedThree(fd: FieldData, n: nat, idx: seq<int>, a: nat, b: nat)
    requires FullRows(fd, n) && fd.dtype != NoneType && Below(idx, n) && a <= b <= |idx|
    ensures SchemaUtil.AllReadable(fd, idx[..a]) && SchemaUtil.AllReadable(fd, idx[a..b]) && SchemaUtil.AllReadable(fd, idx[b..])
    ensures SchemaUtil.AllReadable(fd, idx)
    ensures SchemaUtil.Picked(fd, idx) == SchemaUtil.Picked(fd, idx[..a]) + SchemaUtil.Picked(fd, idx[a..b]) + SchemaUtil.Picked(fd, idx[b..])
    ensures |SchemaUtil.Picked(fd, idx[..a])| == SchemaUtil.Offset(a, SchemaUtil.RowWidth(fd))
    ensures |SchemaUtil.Picked(fd, idx[a..b])| == SchemaUtil.Offset(b - a, SchemaUtil.RowWidth(fd))
  {
    var x, y, z := idx[..a], idx[a..b], idx[b..];
    BelowSlice(idx, n, 0, a);
    BelowSlice(idx, n, a, b);
    BelowSlice(idx, n, b, |idx|);
    assert idx[0..a] == x && idx[b..|idx|] == z;
    Split3(idx, a, b);
    PickedFullLength(fd, n, x);
    PickedFullLength(fd, n, y);
    PickedFullLength(fd, n, z);
    SchemaUtil.PickedAppend(fd, x, y);
    SchemaUtil.PickedAppend(fd, x + y, z);
  }

  lemma RowWidthNonNegative(fd: FieldData)
    requires SchemaUtil.WellFormedDim(fd)
    ensures SchemaUtil.RowWidth(fd) >= 0
  {
  }

  lemma Split3(s: seq<int>, a: nat, b: nat)
    requires a <= b <= |s|
    ensures s[..a] + s[a..b] + s[b..] == s
  {
  }

  lemma SliceMiddle<T>(p: seq<T>, q: seq<T>, r: seq<T>)
    ensures (p + q + r)[|p| .. |p| + |q|] == q
  {
  }

  /** Rows [a, b) of a column of n full rows are its payload positions [Offset(a), Offset(b)). */
  lemma PickedRangeOfFull(fd: FieldData, n: nat, a: nat, b: nat)
    requires FullRows(fd, n) && fd.dtype != NoneType && a <= b <= n
    ensures SchemaUtil.AllReadable(fd, SchemaUtil.Range(a, b))
    ensures var w := SchemaUtil.RowWidth(fd);
            0 <= SchemaUtil.Offset(a, w) <= SchemaUtil.Offset(b, w) <= |fd.cells| &&
            SchemaUtil.Picked(fd, SchemaUtil.Range(a, b)) == fd.cells[SchemaUtil.Offset(a, w) .. SchemaUtil.Offset(b, w)]
  {
    var w := SchemaUtil.RowWidth(fd);
    RowWidthNonNegative(fd);
    SchemaUtil.PickedPrefix(fd, a, n);
    SchemaUtil.PickedPrefix(fd, b, n);
    assert Below(SchemaUtil.Range(a, b), n);
    FullRowsReadable(fd, n, SchemaUtil.Range(a, b));
    RangeConcat(0, a, b);
    SchemaUtil.PickedAppend(fd, SchemaUtil.Range(0, a), SchemaUtil.Range(a, b));
    SchemaUtil.OffsetMono(a, b, w);
    SchemaUtil.OffsetMono(b, n, w);
  }

  lemma RangeConcat(lo: int, mid: int, hi: int)
    requires lo <= mid <= hi
    ensures SchemaUtil.Range(lo, hi) == SchemaUtil.Range(lo, mid) + SchemaUtil.Range(mid, hi)
  {
    var l, r := SchemaUtil.Range(lo, mid), SchemaUtil.Range(mid, hi);
    assert |SchemaUtil.Range(lo, hi)| == |l + r|;
    forall k | 0 <= k < hi - lo ensures SchemaUtil.Range(lo, hi)[k] == (l + r)[k] {
      if k < mid - lo { assert (l + r)[k] == l[k]; } else { assert (l + r)[k] == r[k - (mid - lo)]; }
    }
  }

  /** A column after ReduceFieldByIDs succeeded with rows idx: the header of fd and the picked rows. */
  function ReducedRows(fd: FieldData, n: nat, idx: seq<int>): (r: FieldData)
    requires FullRows(fd, n) && Below(idx, n)
    ensures r.dtype == fd.dtype && r.fieldId == fd.fieldId && r.fieldName == fd.fieldName && r.isDynamic == fd.isDynamic
  {
    FullRowsReadable(fd, n, idx);
    SchemaUtil.PickResult(fd, idx, SchemaUtil.WithHeaderOf(BLANK_FIELD, fd))
  }

  /** The reduced column holds exactly |idx| full rows, as wide as fd's. */
  lemma ReducedFull(fd: FieldData, n: nat, idx: seq<int>)
    requires FullRows(fd, n) && fd.dtype != NoneType && Below(idx, n) && |idx| > 0
    ensures FullRows(ReducedRows(fd, n, idx), |idx|)
    ensures SchemaUtil.RowWidth(ReducedRows(fd, n, idx)) == SchemaUtil.RowWidth(fd)
    ensures SchemaUtil.AllReadable(fd, idx) && ReducedRows(fd, n, idx).cells == SchemaUtil.Picked(fd, idx)
  {
    PickedFullLength(fd, n, idx);
    var r := ReducedRows(fd, n, idx);
    assert r.cells == [] + SchemaUtil.Picked(fd, idx);
    SchemaUtil.OffsetIsProduct(|idx|, 1);
  }

  /** Rows [a, b) of the reduced column are the source rows idx[a..b]. */
  lemma ReducedWindow(fd: FieldData, n: nat, idx: seq<int>, a: nat, b: nat)
    requires FullRows(fd, n) && fd.dtype != NoneType && Below(idx, n) && a <= b <= |idx| && |idx| > 0
    ensures SchemaUtil.WellFormedDim(ReducedRows(fd, n, idx))
    ensures SchemaUtil.AllReadable(ReducedRows(fd, n, idx), SchemaUtil.Range(a, b))
    ensures SchemaUtil.AllReadable(fd, idx[a..b])
    ensures SchemaUtil.Picked(ReducedRows(fd, n, idx), SchemaUtil.Range(a, b)) == SchemaUtil.Picked(fd, idx[a..b])
  {
    ReducedFull(fd, n, idx);
    PickedRangeOfFull(ReducedRows(fd, n, idx), |idx|, a, b);
    PickedMiddle(fd, n, idx, a, b);
  }

  /** The rows a query keeps: the first row of each distinct id, in order. */
  function KeptRows(ids: MilvusIds.IDs): seq<int>
  {
    SchemaUtil.FirstOccurrences(SchemaUtil.IdKeys(ids))
  }

  /** What PostProcess needs of the retrieve result: a count has a column, otherwise every column has one full row per id. */
  predicate Ready(rt: RetrieveResults, isCount: bool, offset: int)
  {
    0 <= offset &&
    (isCount ==> |rt.fieldsData| > 0) &&
    (!isCount ==> AllFullRows(rt))
  }

  /** Every column has one full row per id. */
  predicate AllFullRows(rt: RetrieveResults)
  {
    forall c {:trigger FullRows(rt.fieldsData[c], |SchemaUtil.IdKeys(rt.ids)|)} | 0 <= c < |rt.fieldsData| ::
      FullRows(rt.fieldsData[c], |SchemaUtil.IdKeys(rt.ids)|)
  }

  /** ReduceFieldByIDs succeeds on every column: there is no row to keep, or the column has a type. */
  predicate ReduceOk(rt: RetrieveResults)
  {
    forall c | 0 <= c < |rt.fieldsData| :: |KeptRows(rt.ids)| == 0 || rt.fieldsData[c].dtype != NoneType
  }

  /** ret_size after the reduce loop: the number of distinct ids, or 0 with no column. */
  function RetSize(rt: RetrieveResults): int
  {
    if |rt.fieldsData| == 0 then 0 else |KeptRows(rt.ids)|
  }

  /** A column sliced to rows [a, b) onto a fresh column with its header. */
  function Window(fd: FieldData, a: int, b: int): FieldData
    requires SchemaUtil.WellFormedDim(fd) && SchemaUtil.AllReadable(fd, SchemaUtil.Range(a, b))
  {
    SchemaUtil.PickResult(fd, SchemaUtil.Range(a, b), EmptyField(fd.dtype, fd.fieldName, fd.fieldId, fd.isDynamic))
  }

  /** Column c reduced by the ids and then sliced to rows [a, b). */
  function WindowColumn(rt: RetrieveResults, c: nat, a: nat, b: int): FieldData
    requires c < |rt.fieldsData| && FullRows(rt.fieldsData[c], |SchemaUtil.IdKeys(rt.ids)|)
    requires b <= |KeptRows(rt.ids)|
  {
    ReducedWindowReadable(rt.fieldsData[c], |SchemaUtil.IdKeys(rt.ids)|, KeptRows(rt.ids), a, b);
    Window(ReducedRows(rt.fieldsData[c], |SchemaUtil.IdKeys(rt.ids)|, KeptRows(rt.ids)), a, b)
  }

  /** Every column reduced by the ids and sliced to rows [a, b). */
  function WindowColumns(rt: RetrieveResults, a: nat, b: int): (r: seq<FieldData>)
    requires AllFullRows(rt) && b <= |KeptRows(rt.ids)|
    ensures |r| == |rt.fieldsData| && forall c | 0 <= c < |r| :: r[c] == WindowColumn(rt, c, a, b)
  {
    seq(|rt.fieldsData|, c requires 0 <= c < |rt.fieldsData| => WindowColumn(rt, c, a, b))
  }

  /** The end of the rows a query returns: offset + min(limit, size - offset). */
  function WindowEnd(size: int, offset: int, limit: int): int
  {
    offset + SchemaUtil.Min(limit, size - offset)
  }

  lemma ReducedWindowReadable(fd: FieldData, n: nat, idx: seq<int>, a: nat, b: int)
    requires FullRows(fd, n) && Below(idx, n) && b <= |idx|
    ensures SchemaUtil.WellFormedDim(ReducedRows(fd, n, idx))
    ensures SchemaUtil.AllReadable(ReducedRows(fd, n, idx), SchemaUtil.Range(a, b))
  {
    if fd.dtype != NoneType && a < b {
      ReducedFull(fd, n, idx);
      var rg := SchemaUtil.Range(a, b);
      assert Below(rg, |idx|);
      FullRowsReadable(ReducedRows(fd, n, idx), |idx|, rg);
    } else if fd.dtype != NoneType {
      ReducedFullOrEmpty(fd, n, idx);
      assert SchemaUtil.Range(a, b) == [];
    } else {
      UntypedReadable(ReducedRows(fd, n, idx), SchemaUtil.Range(a, b), a);
    }
  }

  /** Every row at or past 0 of a column without a type can be asked for. */
  lemma UntypedReadable(fd: FieldData, idx: seq<int>, a: nat)
    requires fd.dtype == NoneType && forall k | 0 <= k < |idx| :: idx[k] >= a
    ensures SchemaUtil.WellFormedDim(fd) && SchemaUtil.AllReadable(fd, idx)
  {
  }

  lemma ReducedFullOrEmpty(fd: FieldData, n: nat, idx: seq<int>)
    requires FullRows(fd, n) && Below(idx, n) && fd.dtype != NoneType
    ensures SchemaUtil.WellFormedDim(ReducedRows(fd, n, idx))
  {
    if |idx| > 0 {
      ReducedFull(fd, n, idx);
    }
  }

  /** The empty result: a column with the header of every user field and no rows. */
  function EmptyColumns(fields: seq<FieldSchema>): seq<FieldData>
    decreases |fields|
  {
    if |fields| == 0 then []
    else
      var f := fields[|fields| - 1];
      EmptyColumns(fields[..|fields| - 1]) + (if f.fieldId >= START_OF_USER_FIELD_ID then [SchemaUtil.FillEmptyField(f).1] else [])
  }

  function RelabelAll(outputs: seq<string>, schema: CollectionSchema, cols: seq<FieldData>): (r: seq<FieldData>)
    ensures |r| == |cols| && forall j | 0 <= j < |cols| :: r[j] == FieldInfo.Relabel(outputs, schema.fields, cols[j])
  {
    seq(|cols|, j requires 0 <= j < |cols| => FieldInfo.Relabel(outputs, schema.fields, cols[j]))
  }

  /**
   * PostProcess: a count query returns the first column renamed count(*);
   * otherwise every column is reduced to the first row of each distinct id
   * (failing on an untyped column with rows), the window [offset, offset +
   * min(limit, size - offset)) is cut when there are more than offset rows,
   * and otherwise every user field gets an empty column; the columns then
   * take their schema headers and the user output names are listed.
   */
  function PostProcessResult(rt: RetrieveResults, limit: int, offset: int, isCount: bool,
                             outputs: seq<string>, userOutputs: seq<string>, schema: CollectionSchema): (bool, QueryResults)
    requires Ready(rt, isCount, offset)
  {
    if isCount then (true, QueryResults([rt.fieldsData[0].(fieldName := COUNT_STR)], [COUNT_STR]))
    else if !ReduceOk(rt) then (false, EMPTY_RESULTS)
    else
      var size := RetSize(rt);
      var cols :=
        if size > offset then
          WindowColumns(rt, offset, WindowEnd(size, offset, limit))
        else EmptyColumns(schema.fields);
      (true, QueryResults(RelabelAll(outputs, schema, cols), userOutputs))
  }

  /** The kept row positions a query returns: [offset, offset + min(limit, size - offset)) of the kept rows. */
  function KeptWindow(rt: RetrieveResults, offset: int, limit: int): (r: seq<int>)
    requires 0 <= offset < RetSize(rt) && limit > 0
    ensures 0 < |r| <= limit && |r| <= |KeptRows(rt.ids)| - offset
    ensures forall k | 0 <= k < |r| :: r[k] == KeptRows(rt.ids)[offset + k]
  {
    KeptRows(rt.ids)[offset .. WindowEnd(RetSize(rt), offset, limit)]
  }

  /** Column col holds the rows `rows` of source column fd and fd's field id. */
  predicate HoldsRows(col: FieldData, fd: FieldData, rows: seq<int>)
  {
    SchemaUtil.WellFormedDim(fd) && SchemaUtil.AllReadable(fd, rows) &&
    col.cells == SchemaUtil.Picked(fd, rows) && col.fieldId == fd.fieldId
  }

  /** A non-empty window of a column is the rows of the range, under the column's header. */
  lemma WindowCells(fd: FieldData, a: int, b: int)
    requires SchemaUtil.WellFormedDim(fd)
    requires SchemaUtil.AllReadable(fd, SchemaUtil.Range(a, b))
    requires a < b
    ensures Window(fd, a, b).cells == SchemaUtil.Picked(fd, SchemaUtil.Range(a, b))
    ensures var w := Window(fd, a, b);
            w.dtype == fd.dtype && w.fieldName == fd.fieldName && w.fieldId == fd.fieldId && w.isDynamic == fd.isDynamic
  {
    assert [] + SchemaUtil.Picked(fd, SchemaUtil.Range(a, b)) == SchemaUtil.Picked(fd, SchemaUtil.Range(a, b));
  }

  /** A non-empty window of a reduced column holds the source rows at positions [a, b) of idx. */
  lemma ReducedWindowRows(fd: FieldData, n: nat, idx: seq<int>, a: nat, b: nat)
    requires FullRows(fd, n) && fd.dtype != NoneType && Below(idx, n)
    requires a < b <= |idx|
    ensures SchemaUtil.WellFormedDim(ReducedRows(fd, n, idx))
    ensures SchemaUtil.AllReadable(ReducedRows(fd, n, idx), SchemaUtil.Range(a, b))
    ensures HoldsRows(Window(ReducedRows(fd, n, idx), a, b), fd, idx[a..b])
  {
    ReducedWindowReadable(fd, n, idx, a, b);
    var red := ReducedRows(fd, n, idx);
    WindowCells(red, a, b);
    ReducedWindow(fd, n, idx, a, b);
  }

  /** A non-empty window column holds the source rows at kept positions [a, b). */
  lemma WindowColumnRows(rt: RetrieveResults, c: nat, a: nat, b: nat)
    requires AllFullRows(rt) && ReduceOk(rt) && c < |rt.fieldsData|
    requires a < b <= |KeptRows(rt.ids)|
    ensures HoldsRows(WindowColumn(rt, c, a, b), rt.fieldsData[c], KeptRows(rt.ids)[a..b])
  {
    var fd := rt.fieldsData[c];
    var n := |SchemaUtil.IdKeys(rt.ids)|;
    var idx := KeptRows(rt.ids);
    assert FullRows(fd, n);
    assert Below(idx, n);
    assert fd.dtype != NoneType;
    ReducedWindowRows(fd, n, idx, a, b);
  }

  /** Outside a count query PostProcess succeeds exactly when every column reduces, and then lists the user output names. */
  lemma PostProcessOk(rt: RetrieveResults, limit: int, offset: int,
                      outputs: seq<string>, userOutputs: seq<string>, schema: CollectionSchema)
    requires Ready(rt, false, offset)
    ensures var res := PostProcessResult(rt, limit, offset, false, outputs, userOutputs, schema);
            (res.0 <==> ReduceOk(rt)) && (res.0 ==> res.1.outputFields == userOutputs)
  {
  }

  /**
   * With more kept rows than the offset, result column c holds the rows of
   * source column c at the kept positions past the offset, at most limit of
   * them: the first row of each distinct id, in order.
   */
  lemma PostProcessRows(rt: RetrieveResults, limit: int, offset: int,
                        outputs: seq<string>, userOutputs: seq<string>, schema: CollectionSchema)
    requires Ready(rt, false, offset) && ReduceOk(rt) && limit > 0 && offset < RetSize(rt)
    ensures var res := PostProcessResult(rt, limit, offset, false, outputs, userOutputs, schema).1;
            |res.fieldsData| == |rt.fieldsData| &&
            forall c | 0 <= c < |rt.fieldsData| :: HoldsRows(res.fieldsData[c], rt.fieldsData[c], KeptWindow(rt, offset, limit))
  {
    var b := WindowEnd(RetSize(rt), offset, limit);
    var cols := WindowColumns(rt, offset, b);
    var res := PostProcessResult(rt, limit, offset, false, outputs, userOutputs, schema).1;
    assert res.fieldsData == RelabelAll(outputs, schema, cols);
    forall c | 0 <= c < |rt.fieldsData|
      ensures HoldsRows(res.fieldsData[c], rt.fieldsData[c], KeptWindow(rt, offset, limit))
    {
      WindowColumnRows(rt, c, offset, b);
    }
  }

  /** With no more kept rows than the offset, the result is an empty column per user field, under its schema header. */
  lemma PostProcessEmpty(rt: RetrieveResults, limit: int, offset: int,
                         outputs: seq<string>, userOutputs: seq<string>, schema: CollectionSchema)
    requires Ready(rt, false, offset) && ReduceOk(rt) && RetSize(rt) <= offset
    ensures PostProcessResult(rt, limit, offset, false, outputs, userOutputs, schema).1.fieldsData
              == RelabelAll(outputs, schema, EmptyColumns(schema.fields))
  {
  }

  // ---------------------------------------------------------------------------
  // The task object

  class QueryTask {
    const request: QueryRequest
    const schema: CollectionSchema
    var outputFields: seq<string>
    var userOutputFields: seq<string>
    var limit: int
    var offset: int
    var isCount: bool

    function Params(): QueryParams
      reads this`limit, this`offset
    {
      QueryParams(limit, offset)
    }

    constructor(request: QueryRequest, schema: CollectionSchema)
      ensures this.request == request && this.schema == schema
      ensures outputFields == [] && userOutputFields == []
      ensures Params() == INITIAL_PARAMS && !isCount
    {
      this.request := request;
      this.schema := schema;
      outputFields := [];
      userOutputFields := [];
      limit := -1;
      offset := 0;
      isCount := false;
    }

    /** GetOutputFieldIds over the translated output fields. */
    method GetOutputFieldIds() returns (ok: bool, ids: seq<int>)
      ensures ok <==> OutputFieldIds(outputFields, schema.fields).Some?
      ensures ok ==> ids == OutputFieldIds(outputFields, schema.fields).value
    {
      if |outputFields| == 0 {
        ids := CollectUserScalarIds(schema.fields);
        return true, ids;
      }
      var pkIds, pk, nameIds := ScanFields(schema.fields);
      ok, ids := AppendNamedIds(outputFields, pk, nameIds, pkIds);
    }

    /** ParseQueryParams; limit_ and offset_ keep what it assigned, also when it fails. */
    method ParseQueryParams(exprEmpty: bool) returns (s: MilvusStatus.Status, planLimit: int)
      modifies this`limit, this`offset
      ensures var r := ParseParamsFrom(old(Params()), request.queryParams, isCount, exprEmpty);
              s == r.status && Params() == r.params && (s.IsOk() ==> planLimit == r.planLimit)
    {
      var kvs := request.queryParams;
      ghost var p0 := Params();
      var i := 0;
      while i < |kvs|
        invariant 0 <= i <= |kvs| && ScanFrom(p0, kvs[..i]) == Scan(true, Params())
      {
        assert kvs[..i + 1][..i] == kvs[..i];
        var read := ReadOne(kvs[i]);
        if !read {
          ScanStopStays(p0, kvs, i + 1);
          return MilvusStatus.ParameterInvalid(""), 0;
        }
        i := i + 1;
      }
      assert kvs[..i] == kvs;
      s, planLimit := ApplyLimits(exprEmpty);
    }

    /** One turn of the parameter loop. */
    method ReadOne(kv: KV) returns (ok: bool)
      modifies this`limit, this`offset
      ensures ReadParam(old(Params()), kv) == if ok then Some(Params()) else None
      ensures !ok ==> Params() == old(Params())
    {
      if kv.key == LIMIT_KEY {
        var v := Decimal.Stoll(kv.value);
        if !v.Parsed? {
          return false;
        }
        limit := v.value;
      } else if kv.key == OFFSET_KEY {
        var v := Decimal.Stoll(kv.value);
        if !v.Parsed? {
          return false;
        }
        offset := v.value;
      }
      ok := true;
    }

    /** The checks after the parameter loop. */
    method ApplyLimits(exprEmpty: bool) returns (s: MilvusStatus.Status, planLimit: int)
      modifies this`limit
      ensures var r := CheckLimits(old(Params()), isCount, exprEmpty);
              s == r.status && Params() == r.params && (s.IsOk() ==> planLimit == r.planLimit)
    {
      planLimit := 0;
      if offset < 0 || offset >= TOPK_LIMIT {
        return MilvusStatus.ParameterInvalid(""), 0;
      }
      if limit <= 0 {
        if isCount {
          limit := -1;
        } else if exprEmpty {
          return MilvusStatus.ParameterInvalid(""), 0;
        } else {
          limit := TOPK_LIMIT - offset - 1;
        }
      }
      if limit >= TOPK_LIMIT {
        return MilvusStatus.ParameterInvalid(""), 0;
      }
      if limit + offset >= TOPK_LIMIT {
        return MilvusStatus.ParameterInvalid(""), 0;
      }
      return MilvusStatus.Ok(), limit + offset;
    }

    /**
     * Process: count detection, the parameters, the filter, and then either
     * the count(*) output or the translated output fields and their ids.
     */
    method Process(parseIdent: string -> seq<string>, exprParses: bool) returns (s: MilvusStatus.Status, plan: QueryPlan)
      modifies this
      ensures isCount == (old(isCount) || IsCountQuery(request.outputFields)) && plan.isCount == IsCountQuery(request.outputFields)
      ensures var expr := StringUtil.Trim(request.expr);
              var r := ParseParamsFrom(old(Params()), request.queryParams, isCount, expr == "");
              Params() == r.params &&
              (!r.status.IsOk() ==> s == r.status) &&
              (r.status.IsOk() ==> plan.limit == r.planLimit) &&
              (r.status.IsOk() && !exprParses ==> s == SchemaUtil.ParseExpr(expr, false))
      ensures var ok := ParseParamsFrom(old(Params()), request.queryParams, isCount, StringUtil.Trim(request.expr) == "").status.IsOk() && exprParses;
              (!ok ==> outputFields == old(outputFields) && userOutputFields == old(userOutputFields) && plan.outputFieldIds == []) &&
              (ok && isCount ==> s == MilvusStatus.Ok() && outputFields == old(outputFields) &&
                                 userOutputFields == old(userOutputFields) + [COUNT_STR] && plan.outputFieldIds == [])
      ensures ParseParamsFrom(old(Params()), request.queryParams, isCount, StringUtil.Trim(request.expr) == "").status.IsOk() &&
              exprParses && !isCount ==>
                OutputsPlanned(old(outputFields), old(userOutputFields), parseIdent, s, plan)
    {
      plan := EMPTY_PLAN;
      if IsCountQuery(request.outputFields) {
        plan := plan.(isCount := true);
        isCount := true;
      }
      var expr := StringUtil.Trim(request.expr);
      var planLimit;
      s, planLimit := ParseQueryParams(expr == "");
      if !s.IsOk() {
        return;
      }
      plan := plan.(limit := planLimit);
      s := SchemaUtil.ParseExpr(expr, exprParses);
      if !s.IsOk() {
        return;
      }
      if isCount {
        userOutputFields := userOutputFields + [COUNT_STR];
      } else {
        var ids;
        s, ids := PlanOutputs(parseIdent);
        plan := plan.(outputFieldIds := ids);
      }
    }

    /** What the output-field part of Process leaves behind when it runs. */
    ghost predicate OutputsPlanned(out0: seq<string>, user0: seq<string>, parseIdent: string -> seq<string>,
                                   s: MilvusStatus.Status, plan: QueryPlan)
      reads this`outputFields, this`userOutputFields
    {
      var accepted := SchemaUtil.AllAccepted(schema, request.outputFields);
      (!accepted ==> s == MilvusStatus.ParameterInvalid("") && outputFields == out0 && userOutputFields == user0 && plan.outputFieldIds == []) &&
      (accepted ==>
         |outputFields| >= |out0| && outputFields[..|out0|] == out0 &&
         |userOutputFields| >= |user0| && userOutputFields[..|user0|] == user0 &&
         Lex.Sorted(outputFields[|out0|..]) && Lex.Sorted(userOutputFields[|user0|..]) &&
         (forall y :: y in outputFields[|out0|..] <==> y in SchemaUtil.Finish(SchemaUtil.RequestedResult(schema, parseIdent, request.outputFields), schema, true)) &&
         (forall y :: y in userOutputFields[|user0|..] <==> y in SchemaUtil.Finish(SchemaUtil.RequestedUser(schema, parseIdent, request.outputFields), schema, true)) &&
         var ids := OutputFieldIds(outputFields, schema.fields);
         (ids.None? ==> s == MilvusStatus.ParameterInvalid("") && plan.outputFieldIds == []) &&
         (ids.Some? ==> s == MilvusStatus.Ok() && plan.outputFieldIds == ids.value))
    }

    /** TranslateOutputFields with the primary key added, then GetOutputFieldIds. */
    method PlanOutputs(parseIdent: string -> seq<string>) returns (s: MilvusStatus.Status, ids: seq<int>)
      modifies this`outputFields, this`userOutputFields
      ensures OutputsPlanned(old(outputFields), old(userOutputFields), parseIdent, s, EMPTY_PLAN.(outputFieldIds := ids))
    {
      var ok;
      ok, outputFields, userOutputFields := SchemaUtil.TranslateOutputFields(request.outputFields, schema, true, parseIdent, outputFields, userOutputFields);
      if !ok {
        return MilvusStatus.ParameterInvalid(""), [];
      }
      ok, ids := GetOutputFieldIds();
      if !ok {
        return MilvusStatus.ParameterInvalid(""), [];
      }
      s := MilvusStatus.Ok();
    }

    /** PostProcess of one retrieve result (already decoded). */
    method PostProcess(rt: RetrieveResults) returns (ok: bool, ret: QueryResults)
      requires Ready(rt, isCount, offset)
      ensures (ok, ret) == PostProcessResult(rt, limit, offset, isCount, outputFields, userOutputFields, schema)
    {
      if isCount {
        var countData := rt.fieldsData[0].(fieldName := COUNT_STR);
        return true, QueryResults([countData], [COUNT_STR]);
      }
      var reducedOk, reduced, retSize := ReduceColumns(rt);
      if !reducedOk {
        return false, EMPTY_RESULTS;
      }
      var cols: seq<FieldData>;
      if retSize > offset {
        var off := offset;
        var lim := SchemaUtil.Min(limit, retSize - off);
        ghost var b := WindowEnd(retSize, off, limit);
        cols := SliceColumns(rt, reduced, off, lim, b);
        assert cols == WindowColumns(rt, off, b);
      } else {
        cols := FillEmptyColumns(schema.fields);
      }
      ghost var before := cols;
      cols := FieldInfo.FillInFieldInfo(outputFields, schema, cols);
      assert cols == RelabelAll(outputFields, schema, before);
      ret := QueryResults(cols, userOutputFields);
      ok := true;
    }
  }

  /** The loop of GetOutputFieldIds without output fields. */
  method CollectUserScalarIds(fields: seq<FieldSchema>) returns (ids: seq<int>)
    ensures ids == UserScalarIds(fields)
  {
    ids := [];
    var k := 0;
    while k < |fields|
      invariant 0 <= k <= |fields| && ids == UserScalarIds(fields[..k])
    {
      var f := fields[k];
      if f.fieldId >= START_OF_USER_FIELD_ID && !SchemaUtil.IsVectorField(f.dataType) {
        ids := ids + [f.fieldId];
      }
      assert fields[..k + 1][..k] == fields[..k];
      k := k + 1;
    }
    assert fields[..k] == fields;
  }

  /** The schema loop of GetOutputFieldIds: the primary key ids, the last pk name and the name-to-id map. */
  method ScanFields(fields: seq<FieldSchema>) returns (ids: seq<int>, pk: string, nameIds: map<string, int>)
    ensures ids == PkIds(fields) && pk == SchemaUtil.LastPkName(fields) && nameIds == SchemaUtil.NameIds(fields)
  {
    ids, pk, nameIds := [], "", map[];
    var k := 0;
    while k < |fields|
      invariant 0 <= k <= |fields|
      invariant ids == PkIds(fields[..k]) && pk == SchemaUtil.LastPkName(fields[..k])
      invariant nameIds == SchemaUtil.NameIds(fields[..k])
    {
      var f := fields[k];
      assert fields[..k + 1][..k] == fields[..k];
      nameIds := nameIds[f.name := f.fieldId];
      if f.isPrimaryKey {
        pk := f.name;
        ids := ids + [f.fieldId];
      }
      k := k + 1;
    }
    assert fields[..k] == fields;
  }

  /** The output loop of GetOutputFieldIds. */
  method AppendNamedIds(outputs: seq<string>, pk: string, nameIds: map<string, int>, idsIn: seq<int>)
    returns (ok: bool, ids: seq<int>)
    ensures ok <==> NamedIds(outputs, pk, nameIds).Some?
    ensures ok ==> ids == idsIn + NamedIds(outputs, pk, nameIds).value
  {
    ids := idsIn;
    var j := 0;
    while j < |outputs|
      invariant 0 <= j <= |outputs|
      invariant NamedIds(outputs[..j], pk, nameIds).Some?
      invariant ids == idsIn + NamedIds(outputs[..j], pk, nameIds).value
    {
      var o := outputs[j];
      assert outputs[..j + 1][..j] == outputs[..j];
      if o != pk {
        if o !in nameIds {
          NamedFailStays(outputs, pk, nameIds, j + 1);
          return false, ids;
        }
        if nameIds[o] >= START_OF_USER_FIELD_ID {
          ids := ids + [nameIds[o]];
        }
      }
      j := j + 1;
    }
    assert outputs[..j] == outputs;
    ok := true;
  }

  lemma {:induction false} NamedFailStays(outputs: seq<string>, pk: string, nameIds: map<string, int>, n: nat)
    requires 0 < n <= |outputs| && NamedIds(outputs[..n], pk, nameIds).None?
    ensures NamedIds(outputs, pk, nameIds).None?
    decreases |outputs| - n
  {
    if n < |outputs| {
      assert outputs[..n + 1][..n] == outputs[..n];
      NamedFailStays(outputs, pk, nameIds, n + 1);
    } else {
      assert outputs[..n] == outputs;
    }
  }

  /** Every column reduced by the ids. */
  function ReducedAll(rt: RetrieveResults): (r: seq<FieldData>)
    requires AllFullRows(rt)
    ensures |r| == |rt.fieldsData|
  {
    var n := |SchemaUtil.IdKeys(rt.ids)|;
    seq(|rt.fieldsData|, c requires 0 <= c < |rt.fieldsData| => ReducedRows(rt.fieldsData[c], n, KeptRows(rt.ids)))
  }

  /** The reduce loop: every column reduced by the ids, stopping at the first failure. */
  method ReduceColumns(rt: RetrieveResults) returns (ok: bool, reduced: seq<FieldData>, retSize: int)
    requires AllFullRows(rt)
    ensures ok <==> ReduceOk(rt)
    ensures ok ==> retSize == RetSize(rt) && reduced == ReducedAll(rt)
  {
    ghost var all := ReducedAll(rt);
    ghost var kept := |KeptRows(rt.ids)|;
    reduced := [];
    retSize := 0;
    var c := 0;
    while c < |rt.fieldsData|
      invariant 0 <= c <= |rt.fieldsData|
      invariant retSize == (if c == 0 then 0 else kept)
      invariant forall c' | 0 <= c' < c :: kept == 0 || rt.fieldsData[c'].dtype != NoneType
      invariant reduced == all[..c]
    {
      var rowOk;
      rowOk, reduced, retSize := ReduceStep(rt, c, reduced, retSize);
      if !rowOk {
        return false, reduced, retSize;
      }
      c := c + 1;
    }
    assert all[..c] == all;
    ok := true;
  }

  /** One turn of the reduce loop: column c reduced and appended. */
  method ReduceStep(rt: RetrieveResults, c: int, reducedIn: seq<FieldData>, retSizeIn: int)
    returns (ok: bool, reduced: seq<FieldData>, retSize: int)
    requires AllFullRows(rt) && 0 <= c < |rt.fieldsData|
    requires reducedIn == ReducedAll(rt)[..c]
    requires retSizeIn == 0 || retSizeIn == |KeptRows(rt.ids)|
    ensures ok <==> |KeptRows(rt.ids)| == 0 || rt.fieldsData[c].dtype != NoneType
    ensures retSize == |KeptRows(rt.ids)|
    ensures ok ==> reduced == ReducedAll(rt)[..c + 1]
  {
    ghost var all := ReducedAll(rt);
    ReducedAllAt(rt, c);
    var data;
    ok, data, retSize := ReduceOne(rt.ids, rt.fieldsData[c], retSizeIn);
    reduced := reducedIn + [data];
    if ok {
      assert all[..c + 1] == all[..c] + [all[c]];
    }
  }

  /** Column c can be reduced, and its entry of ReducedAll is that reduction. */
  lemma ReducedAllAt(rt: RetrieveResults, c: nat)
    requires AllFullRows(rt) && c < |rt.fieldsData|
    ensures FullRows(rt.fieldsData[c], |SchemaUtil.IdKeys(rt.ids)|)
    ensures ReducedAll(rt)[c] == ReducedRows(rt.fieldsData[c], |SchemaUtil.IdKeys(rt.ids)|, KeptRows(rt.ids))
  {
  }

  /** ReduceFieldByIDs on one column. */
  method ReduceOne(ids: MilvusIds.IDs, fd: FieldData, retSizeIn: int) returns (ok: bool, data: FieldData, retSize: int)
    requires FullRows(fd, |SchemaUtil.IdKeys(ids)|)
    requires retSizeIn == 0 || retSizeIn == |KeptRows(ids)|
    ensures ok <==> |KeptRows(ids)| == 0 || fd.dtype != NoneType
    ensures retSize == |KeptRows(ids)|
    ensures ok ==> data == ReducedRows(fd, |SchemaUtil.IdKeys(ids)|, KeptRows(ids))
  {
    var n := |SchemaUtil.IdKeys(ids)|;
    var idx := KeptRows(ids);
    assert Below(idx, n);
    FullRowsReadable(fd, n, idx);
    ok, data, retSize := SchemaUtil.ReduceFieldByIDs(ids, fd, BLANK_FIELD, retSizeIn);
    if ids.NoId? {
      assert SchemaUtil.IdKeys(ids) == [];
      assert idx == [];
    }
  }

  /** The slicing loop: each reduced column cut to [offset, offset + lim) onto a column with its header. */
  method SliceColumns(rt: RetrieveResults, reduced: seq<FieldData>, offset: nat, lim: int, ghost b: int) returns (cols: seq<FieldData>)
    requires AllFullRows(rt)
    requires ReduceOk(rt) && 0 <= offset < |KeptRows(rt.ids)| && b == offset + lim <= |KeptRows(rt.ids)|
    requires reduced == ReducedAll(rt)
    ensures |cols| == |rt.fieldsData| && forall c | 0 <= c < |cols| :: cols[c] == WindowColumn(rt, c, offset, b)
  {
    cols := [];
    var c := 0;
    while c < |reduced|
      invariant 0 <= c <= |reduced| && cols == WindowColumns(rt, offset, b)[..c]
    {
      cols := SliceStep(rt, reduced, c, cols, offset, lim, b);
      c := c + 1;
    }
    assert cols == WindowColumns(rt, offset, b);
  }

  /** Column c of the reduced columns sliced and appended to the columns sliced so far. */
  method SliceStep(rt: RetrieveResults, reduced: seq<FieldData>, c: nat, colsIn: seq<FieldData>, offset: nat, lim: int, ghost b: int)
    returns (cols: seq<FieldData>)
    requires AllFullRows(rt)
    requires ReduceOk(rt) && 0 <= offset < |KeptRows(rt.ids)| && b == offset + lim <= |KeptRows(rt.ids)|
    requires reduced == ReducedAll(rt) && c < |reduced|
    requires colsIn == WindowColumns(rt, offset, b)[..c]
    ensures cols == WindowColumns(rt, offset, b)[..c + 1]
  {
    ReducedAllAt(rt, c);
    assert |KeptRows(rt.ids)| == 0 || rt.fieldsData[c].dtype != NoneType;
    var col := SliceOne(rt, c, reduced[c], offset, lim, b);
    WindowColumnsPrefix(rt, offset, b, c);
    cols := colsIn + [col];
  }

  lemma WindowColumnsPrefix(rt: RetrieveResults, a: nat, b: int, c: nat)
    requires AllFullRows(rt) && b <= |KeptRows(rt.ids)| && c < |rt.fieldsData|
    ensures FullRows(rt.fieldsData[c], |SchemaUtil.IdKeys(rt.ids)|)
    ensures WindowColumns(rt, a, b)[..c + 1] == WindowColumns(rt, a, b)[..c] + [WindowColumn(rt, c, a, b)]
  {
    var all := WindowColumns(rt, a, b);
    assert all[..c + 1] == all[..c] + [all[c]];
  }

  /** One turn of the slicing loop. */
  method SliceOne(rt: RetrieveResults, c: nat, fd: FieldData, offset: nat, lim: int, ghost b: int) returns (col: FieldData)
    requires c < |rt.fieldsData| && FullRows(rt.fieldsData[c], |SchemaUtil.IdKeys(rt.ids)|)
    requires |KeptRows(rt.ids)| == 0 || rt.fieldsData[c].dtype != NoneType
    requires 0 <= offset < |KeptRows(rt.ids)| && b == offset + lim <= |KeptRows(rt.ids)|
    requires fd == ReducedRows(rt.fieldsData[c], |SchemaUtil.IdKeys(rt.ids)|, KeptRows(rt.ids))
    ensures col == WindowColumn(rt, c, offset, b)
  {
    var header := EmptyField(fd.dtype, fd.fieldName, fd.fieldId, fd.isDynamic);
    ReducedWindowReadable(rt.fieldsData[c], |SchemaUtil.IdKeys(rt.ids)|, KeptRows(rt.ids), offset, b);
    SliceIndexesTo(offset, lim, b);
    var _, sliced := SchemaUtil.SliceFieldData(fd, [(offset, lim)], header);
    col := sliced;
  }

  lemma SliceIndexesTo(offset: int, lim: int, b: int)
    requires b == offset + lim
    ensures SchemaUtil.SliceIndexes([(offset, lim)]) == SchemaUtil.Range(offset, b)
  {
    SchemaUtil.SliceIndexesSingle(offset, lim);
  }

  /** The empty branch: FillEmptyField for every user field, its status ignored. */
  method FillEmptyColumns(fields: seq<FieldSchema>) returns (cols: seq<FieldData>)
    ensures cols == EmptyColumns(fields)
  {
    cols := [];
    var k := 0;
    while k < |fields|
      invariant 0 <= k <= |fields| && cols == EmptyColumns(fields[..k])
    {
      var f := fields[k];
      if f.fieldId >= START_OF_USER_FIELD_ID {
        var filled := SchemaUtil.FillEmptyField(f);
        cols := cols + [filled.1];
      }
      assert fields[..k + 1][..k] == fields[..k];
      k := k + 1;
    }
    assert fields[..k] == fields;
  }
}
