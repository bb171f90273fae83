// The hybrid search task: reading the rank parameters, turning every
// sub-request into a plain search request, merging the sub-results' hits per
// query by summed score, sorting and windowing them, and fetching the output
// fields of the winners with a `pk in [...]` query whose rows are put back in
// the order of the search hits.
module HybridSearchTask {
  import opened Wrappers
  import opened Schema
  import MilvusStatus
  import Decimal
  import StringUtil
  import SchemaUtil
  import MilvusIds
  import FieldInfo
  import SearchTask
  import QueryTask
  import Lex
  import HybridMerge
  import HybridFetch

  import opened HybridRank

  /** ConsistencyLevel::Strong. */
  const CONSISTENCY_STRONG: int := 0

  // ---------------------------------------------------------------------------
  // The requests

  /** The SearchRequest fields the hybrid search reads and sets. */
  datatype SearchRequest = SearchRequest(
    collectionName: string,
    partitionNames: seq<string>,
    notReturnAllMeta: bool,
    consistencyLevel: int,
    useDefaultConsistency: bool,
    searchByPrimaryKeys: bool,
    dsl: string,
    placeholderGroup: string,
    dslType: int,
    searchParams: seq<KV>,
    nq: int)

  datatype HybridSearchRequest = HybridSearchRequest(
    collectionName: string,
    partitionNames: seq<string>,
    requests: seq<SearchRequest>,
    rankParams: seq<KV>,
    outputFields: seq<string>,
    notReturnAllMeta: bool,
    consistencyLevel: int,
    useDefaultConsistency: bool)

  datatype QueryRequest = QueryRequest(
    collectionName: string,
    outputFields: seq<string>,
    partitionNames: seq<string>,
    notReturnAllMeta: bool,
    consistencyLevel: int,
    useDefaultConsistency: bool,
    expr: string)

  /** The search parameters of a sub-request with every `offset` pair taken out, the rest in order. */
  function WithoutOffset(kvs: seq<KV>): (r: seq<KV>)
    ensures |r| <= |kvs|
    decreases |kvs|
  {
    if |kvs| == 0 then []
    else WithoutOffset(kvs[..|kvs| - 1]) + (if kvs[|kvs| - 1].key == OFFSET_KEY then [] else [kvs[|kvs| - 1]])
  }

  /** No offset pair is left, and every other pair is kept. */
  lemma {:induction false} WithoutOffsetKeeps(kvs: seq<KV>)
    ensures var r := WithoutOffset(kvs);
            (forall k | 0 <= k < |r| :: r[k].key != OFFSET_KEY && r[k] in kvs) &&
            (forall k | 0 <= k < |kvs| && kvs[k].key != OFFSET_KEY :: kvs[k] in r)
    decreases |kvs|
  {
    if |kvs| > 0 {
      var init := kvs[..|kvs| - 1];
      WithoutOffsetKeeps(init);
      assert forall k | 0 <= k < |init| :: kvs[k] == init[k];
    }
  }

  /** Every other key ends on the value it ended on before the offset pairs were taken out. */
  lemma {:induction false} WithoutOffsetLastValue(kvs: seq<KV>, key: string)
    requires key != OFFSET_KEY
    ensures SchemaUtil.LastValue(WithoutOffset(kvs), key) == SchemaUtil.LastValue(kvs, key)
    ensures SchemaUtil.LastValue(WithoutOffset(kvs), OFFSET_KEY).None?
    decreases |kvs|
  {
    if |kvs| > 0 {
      var init := kvs[..|kvs| - 1];
      WithoutOffsetLastValue(init, key);
      WithoutOffsetLastStep(kvs, key, WithoutOffset(init));
    }
  }

  lemma WithoutOffsetLastStep(kvs: seq<KV>, key: string, w0: seq<KV>)
    requires key != OFFSET_KEY && |kvs| > 0 && w0 == WithoutOffset(kvs[..|kvs| - 1])
    requires SchemaUtil.LastValue(w0, key) == SchemaUtil.LastValue(kvs[..|kvs| - 1], key)
    requires SchemaUtil.LastValue(w0, OFFSET_KEY).None?
    ensures SchemaUtil.LastValue(WithoutOffset(kvs), key) == SchemaUtil.LastValue(kvs, key)
    ensures SchemaUtil.LastValue(WithoutOffset(kvs), OFFSET_KEY).None?
  {
    var last := kvs[|kvs| - 1];
    if last.key != OFFSET_KEY {
      var w := w0 + [last];
      assert WithoutOffset(kvs) == w;
      assert w[..|w| - 1] == w0;
    } else {
      assert WithoutOffset(kvs) == w0 + [];
      assert w0 + [] == w0;
    }
  }

  /** The search request built for one sub-request: the hybrid request's target and consistency, the sub-request's query. */
  function SubRequest(h: HybridSearchRequest, req: SearchRequest): SearchRequest
  {
    SearchRequest(h.collectionName, h.partitionNames, h.notReturnAllMeta, h.consistencyLevel, h.useDefaultConsistency,
                  false, req.dsl, req.placeholderGroup, req.dslType, WithoutOffset(req.searchParams), req.nq)
  }

  // ---------------------------------------------------------------------------
  // GetMetricType

  /**
   * The metric of a generated search request: its anns_field must be set and
   * name a vector field, every stored index meta must parse, and the metric
   * asked for (the index's when none is) must be non-empty and equal the
   * metric of the field's index.
   */
  function MetricFor(schema: CollectionSchema, allIndex: seq<Option<FieldIndexMeta>>, kvs: seq<KV>): (r: MilvusStatus.Outcome<string>)
  {
    var annField := SchemaUtil.TextOr(kvs, ANN_FIELD_KEY, "");
    var user := SchemaUtil.TextOr(kvs, METRIC_TYPE_KEY, "");
    if annField == "" then MilvusStatus.Failure(MilvusStatus.ParameterInvalid(""))
    else match SchemaUtil.FindVectorField(schema, annField)
      case Failure(st) => MilvusStatus.Failure(st)
      case Success(field) =>
        match SearchTask.IndexMetricUpTo(allIndex, field.fieldId, |allIndex|)
        case None => MilvusStatus.Failure(MilvusStatus.ServiceInternal(""))
        case Some(im) =>
          var m := if user == "" then im else user;
          if m == "" || m != im then MilvusStatus.Failure(MilvusStatus.ParameterInvalid("")) else MilvusStatus.Success(m)
  }

  /**
   * The metric is found exactly when anns_field names one of the schema's
   * vector fields, every stored meta parses, that field's index has a
   * metric, and the request asks for none or for that one; it is then the
   * index's metric. Without anns_field, or with one naming no vector field,
   * the request is rejected.
   */
  lemma MetricForSpec(schema: CollectionSchema, allIndex: seq<Option<FieldIndexMeta>>, kvs: seq<KV>)
    ensures var annField := SchemaUtil.TextOr(kvs, ANN_FIELD_KEY, "");
            var user := SchemaUtil.TextOr(kvs, METRIC_TYPE_KEY, "");
            var r := MetricFor(schema, allIndex, kvs);
            var found := SchemaUtil.FindVectorField(schema, annField);
            (annField == "" ==> r == MilvusStatus.Failure(MilvusStatus.ParameterInvalid(""))) &&
            (annField != "" && annField !in SchemaUtil.VectorNames(schema.fields) ==> r.Failure? && r.status.code == 1100) &&
            (r.Success? <==>
               annField != "" && found.Success? &&
               var im := SearchTask.IndexMetricUpTo(allIndex, found.value.fieldId, |allIndex|);
               im.Some? && im.value != "" && (user == "" || user == im.value)) &&
            (r.Success? ==> r.value == SearchTask.IndexMetricUpTo(allIndex, found.value.fieldId, |allIndex|).value)
  {
  }

  // ---------------------------------------------------------------------------
  // ProcessSearch

  /** The metric GetMetricType finds for each generated request, sub-request by sub-request. */
  function Metrics(h: HybridSearchRequest, schema: CollectionSchema, allIndex: seq<Option<FieldIndexMeta>>): (ms: seq<MilvusStatus.Outcome<string>>)
    ensures |ms| == |h.requests|
  {
    seq(|h.requests|, i requires 0 <= i < |h.requests| => MetricFor(schema, allIndex, SubRequest(h, h.requests[i]).searchParams))
  }

  /** Each metric that does not resolve carries an error status. */
  predicate FailuresAreErrors(ms: seq<MilvusStatus.Outcome<string>>)
  {
    forall i | 0 <= i < |ms| :: ms[i].Failure? ==> !ms[i].status.IsOk()
  }

  /** A metric that does not resolve carries an error status. */
  lemma MetricFailuresAreErrors(h: HybridSearchRequest, schema: CollectionSchema, allIndex: seq<Option<FieldIndexMeta>>)
    ensures FailuresAreErrors(Metrics(h, schema, allIndex))
  {
    MilvusStatus.FactoryCodes("");
  }

  /** Where the sub-request loop stands: its status, the requests pushed and the metrics given to the rescorers. */
  datatype Generated = Generated(status: MilvusStatus.Status, pushed: seq<SearchRequest>, metrics: seq<string>)

  /** The sub-request loop over the first n sub-requests, given each one's metric outcome. */
  function Generate(h: HybridSearchRequest, ms: seq<MilvusStatus.Outcome<string>>, nq: int, n: nat): (r: Generated)
    requires n <= |h.requests| == |ms|
    ensures |r.pushed| == |r.metrics| <= n
  {
    if n == 0 then Generated(MilvusStatus.Ok(), [], [])
    else
      var prev := Generate(h, ms, nq, n - 1);
      var req := h.requests[n - 1];
      if !prev.status.IsOk() then prev
      else if req.nq != nq then Generated(MilvusStatus.ParameterInvalid(""), prev.pushed, prev.metrics)
      else match ms[n - 1]
        case Failure(st) => Generated(st, prev.pushed, prev.metrics)
        case Success(m) => Generated(MilvusStatus.Ok(), prev.pushed + [SubRequest(h, req)], prev.metrics + [m])
  }

  /** Sub-request i passes: it has the first one's nq and its metric resolves. */
  predicate SubRequestOk(h: HybridSearchRequest, ms: seq<MilvusStatus.Outcome<string>>, nq: int, i: nat)
    requires i < |h.requests| == |ms|
  {
    h.requests[i].nq == nq && ms[i].Success?
  }

  /**
   * The loop over n sub-requests succeeds exactly when every one of them
   * passes; every request that passed before the loop stopped has been
   * pushed, in order, with its metric, and nothing else has.
   */
  lemma {:induction false} GenerateSpec(h: HybridSearchRequest, ms: seq<MilvusStatus.Outcome<string>>, nq: int, n: nat)
    requires n <= |h.requests| == |ms| && FailuresAreErrors(ms)
    ensures var g := Generate(h, ms, nq, n);
            (g.status.IsOk() <==> forall i | 0 <= i < n :: SubRequestOk(h, ms, nq, i)) &&
            (g.status.IsOk() ==> |g.pushed| == n) &&
            (forall i | 0 <= i < |g.pushed| :: SubRequestOk(h, ms, nq, i) &&
               g.pushed[i] == SubRequest(h, h.requests[i]) && ms[i] == MilvusStatus.Success(g.metrics[i])) &&
            (!g.status.IsOk() ==> |g.pushed| < n && !SubRequestOk(h, ms, nq, |g.pushed|))
    decreases n
  {
    if n > 0 {
      GenerateSpec(h, ms, nq, n - 1);
      GenerateStep(h, ms, nq, n, Generate(h, ms, nq, n - 1));
    }
  }

  /** GenerateSpec's step: what holds of the loop over n - 1 sub-requests holds over n. */
  lemma GenerateStep(h: HybridSearchRequest, ms: seq<MilvusStatus.Outcome<string>>, nq: int, n: nat, prev: Generated)
    requires 0 < n <= |h.requests| == |ms| && FailuresAreErrors(ms)
    requires prev == Generate(h, ms, nq, n - 1)
    requires (prev.status.IsOk() <==> forall i | 0 <= i < n - 1 :: SubRequestOk(h, ms, nq, i)) &&
             (prev.status.IsOk() ==> |prev.pushed| == n - 1) &&
             (forall i | 0 <= i < |prev.pushed| :: SubRequestOk(h, ms, nq, i) &&
                prev.pushed[i] == SubRequest(h, h.requests[i]) && ms[i] == MilvusStatus.Success(prev.metrics[i])) &&
             (!prev.status.IsOk() ==> |prev.pushed| < n - 1 && !SubRequestOk(h, ms, nq, |prev.pushed|))
    ensures var g := Generate(h, ms, nq, n);
            (g.status.IsOk() <==> forall i | 0 <= i < n :: SubRequestOk(h, ms, nq, i)) &&
            (g.status.IsOk() ==> |g.pushed| == n) &&
            (forall i | 0 <= i < |g.pushed| :: SubRequestOk(h, ms, nq, i) &&
               g.pushed[i] == SubRequest(h, h.requests[i]) && ms[i] == MilvusStatus.Success(g.metrics[i])) &&
            (!g.status.IsOk() ==> |g.pushed| < n && !SubRequestOk(h, ms, nq, |g.pushed|))
  {
    MilvusStatus.FactoryCodes("");
    var g := Generate(h, ms, nq, n);
    if !prev.status.IsOk() {
      assert g == prev;
    } else if h.requests[n - 1].nq != nq || ms[n - 1].Failure? {
      assert g.pushed == prev.pushed && !g.status.IsOk();
      assert !SubRequestOk(h, ms, nq, n - 1);
    } else {
      assert g.status.IsOk() && g.pushed == prev.pushed + [SubRequest(h, h.requests[n - 1])];
      assert g.metrics == prev.metrics + [ms[n - 1].value];
    }
  }

  /** What ProcessSearch returns and leaves in the task once the output fields are translated. */
  datatype Planned = Planned(status: MilvusStatus.Status, rank: RankParams, nq: int, pushed: seq<SearchRequest>, metrics: Option<seq<string>>)

  /**
   * ProcessSearch after the output fields: the rank parameters, the
   * rescorers' own status (built outside this model), nq from the first
   * sub-request, and the sub-request loop.
   */
  function PlanFrom(h: HybridSearchRequest, schema: CollectionSchema, allIndex: seq<Option<FieldIndexMeta>>,
                    p0: RankParams, nq0: int, reScorers: MilvusStatus.Status): Planned
    requires |h.requests| > 0
  {
    var rk := ParseRankFrom(p0, h.rankParams);
    if !rk.status.IsOk() then Planned(rk.status, rk.params, nq0, [], None)
    else if !reScorers.IsOk() then Planned(reScorers, rk.params, nq0, [], None)
    else
      var nq := h.requests[0].nq;
      var g := Generate(h, Metrics(h, schema, allIndex), nq, |h.requests|);
      Planned(g.status, rk.params, nq, g.pushed, Some(g.metrics))
  }

  /**
   * On a fresh task, the translated part of ProcessSearch succeeds exactly
   * when the rank parameters are valid, the rescorers build, and every
   * sub-request has the first one's nq and a resolving metric; it then
   * pushes one search request per sub-request, in order, none with an
   * offset parameter, and gives each rescorer its request's metric.
   */
  lemma PlanSpec(h: HybridSearchRequest, schema: CollectionSchema, allIndex: seq<Option<FieldIndexMeta>>, reScorers: MilvusStatus.Status)
    requires |h.requests| > 0
    ensures var r := PlanFrom(h, schema, allIndex, INITIAL_RANK, -1, reScorers);
            var nq := h.requests[0].nq;
            var ms := Metrics(h, schema, allIndex);
            (r.status.IsOk() <==>
               ParseRankFrom(INITIAL_RANK, h.rankParams).status.IsOk() && reScorers.IsOk() &&
               forall i | 0 <= i < |h.requests| :: h.requests[i].nq == nq && ms[i].Success?) &&
            (r.status.IsOk() ==>
               r.nq == nq && |r.pushed| == |h.requests| && r.metrics.Some? && |r.metrics.value| == |h.requests| &&
               forall i | 0 <= i < |h.requests| ::
                 r.pushed[i] == SubRequest(h, h.requests[i]) && r.pushed[i].nq == nq &&
                 SchemaUtil.LastValue(r.pushed[i].searchParams, OFFSET_KEY).None? &&
                 ms[i] == MilvusStatus.Success(r.metrics.value[i]))
  {
    var nq := h.requests[0].nq;
    var ms := Metrics(h, schema, allIndex);
    var rk := ParseRankFrom(INITIAL_RANK, h.rankParams);
    if rk.status.IsOk() && reScorers.IsOk() {
      MetricFailuresAreErrors(h, schema, allIndex);
      GenerateSpec(h, ms, nq, |h.requests|);
      var g := Generate(h, ms, nq, |h.requests|);
      if g.status.IsOk() {
        forall i | 0 <= i < |h.requests| ensures SchemaUtil.LastValue(g.pushed[i].searchParams, OFFSET_KEY).None? {
          WithoutOffsetLastValue(h.requests[i].searchParams, LIMIT_KEY);
        }
      }
    }
  }

  /** Sub-requests with different nq are rejected, whatever else they carry. */
  lemma NqMismatchRejected(h: HybridSearchRequest, schema: CollectionSchema, allIndex: seq<Option<FieldIndexMeta>>,
                           p0: RankParams, nq0: int, reScorers: MilvusStatus.Status, i: nat)
    requires 0 < i < |h.requests| && h.requests[i].nq != h.requests[0].nq
    ensures !PlanFrom(h, schema, allIndex, p0, nq0, reScorers).status.IsOk()
  {
    var rk := ParseRankFrom(p0, h.rankParams);
    if rk.status.IsOk() && reScorers.IsOk() {
      MetricFailuresAreErrors(h, schema, allIndex);
      GenerateSpec(h, Metrics(h, schema, allIndex), h.requests[0].nq, |h.requests|);
    }
  }

  /** Once a sub-request fails, the loop over all of them ends where it stopped. */
  lemma {:induction false} GenerateStops(h: HybridSearchRequest, ms: seq<MilvusStatus.Outcome<string>>, nq: int, n: nat)
    requires n <= |h.requests| == |ms| && !Generate(h, ms, nq, n).status.IsOk()
    ensures Generate(h, ms, nq, |h.requests|) == Generate(h, ms, nq, n)
    decreases |h.requests| - n
  {
    if n < |h.requests| {
      assert Generate(h, ms, nq, n + 1) == Generate(h, ms, nq, n);
      GenerateStops(h, ms, nq, n + 1);
    }
  }

  /** One more step of the sub-request loop after a passing one. */
  lemma GenerateNext(h: HybridSearchRequest, ms: seq<MilvusStatus.Outcome<string>>, nq: int, n: nat, prev: Generated)
    requires 0 < n <= |h.requests| == |ms| && prev == Generate(h, ms, nq, n - 1) && prev.status.IsOk()
    ensures Generate(h, ms, nq, n) ==
              if h.requests[n - 1].nq != nq then Generated(MilvusStatus.ParameterInvalid(""), prev.pushed, prev.metrics)
              else if ms[n - 1].Failure? then Generated(ms[n - 1].status, prev.pushed, prev.metrics)
              else Generated(MilvusStatus.Ok(), prev.pushed + [SubRequest(h, h.requests[n - 1])], prev.metrics + [ms[n - 1].value])
  {
  }

  lemma MetricKeysDistinct()
    ensures METRIC_TYPE_KEY != ANN_FIELD_KEY
  {
    assert METRIC_TYPE_KEY[0] == 'm' && ANN_FIELD_KEY[0] == 'a';
  }

  /** The copy loop of ProcessSearch: every search parameter but `offset`, in order. */
  method CopyWithoutOffset(kvs: seq<KV>) returns (r: seq<KV>)
    ensures r == WithoutOffset(kvs)
  {
    r := [];
    var i := 0;
    while i < |kvs|
      invariant 0 <= i <= |kvs| && r == WithoutOffset(kvs[..i])
    {
      assert kvs[..i + 1][..i] == kvs[..i];
      if kvs[i].key != OFFSET_KEY {
        r := r + [kvs[i]];
      }
      i := i + 1;
    }
    assert kvs[..i] == kvs;
  }

  /** The search request ProcessSearch fills for one sub-request. */
  method BuildSubRequest(h: HybridSearchRequest, req: SearchRequest) returns (sub: SearchRequest)
    ensures sub == SubRequest(h, req)
  {
    var params := CopyWithoutOffset(req.searchParams);
    sub := SearchRequest(h.collectionName, h.partitionNames, h.notReturnAllMeta, h.consistencyLevel, h.useDefaultConsistency,
                         false, req.dsl, req.placeholderGroup, req.dslType, params, req.nq);
  }

  /** The first loop of PostProcess: each query id's last position. */
  method BuildOffsets(ids: MilvusIds.IDs) returns (offsets: map<MilvusIds.MilvusID, int>)
    ensures offsets == HybridFetch.Offsets(ids)
  {
    offsets := map[];
    var n := HybridMerge.IdCount(ids);
    var i := 0;
    while i < n
      invariant 0 <= i <= n && offsets == HybridFetch.OffsetsUpTo(ids, i)
    {
      HybridMerge.IdCountValid(ids, i);
      offsets := offsets[MilvusIds.FromIDs(ids, i) := i];
      i := i + 1;
    }
  }

  /** An id's entry in `offsets`, 0 when it has none (what operator[] inserts). */
  function OffsetOr0(offsets: map<MilvusIds.MilvusID, int>, x: MilvusIds.MilvusID): int
  {
    if x in offsets then offsets[x] else 0
  }

  /**
   * The second loop of PostProcess: the query position of each hit's id.
   * `offsets[id]` on a missing id inserts it with 0, so later hits with that
   * id read 0 as well.
   */
  method OrderBySearch(offsetsIn: map<MilvusIds.MilvusID, int>, sids: MilvusIds.IDs) returns (idx: seq<int>)
    ensures idx == HybridFetch.SearchOrder(offsetsIn, sids)
  {
    var offsets := offsetsIn;
    idx := [];
    var n := HybridMerge.IdCount(sids);
    var i := 0;
    while i < n
      invariant 0 <= i <= n && |idx| == i
      invariant forall k | 0 <= k < i :: idx[k] == HybridFetch.SearchOrder(offsetsIn, sids)[k]
      invariant forall y | y in offsetsIn :: y in offsets
      invariant forall y | y in offsets :: offsets[y] == OffsetOr0(offsetsIn, y)
    {
      HybridMerge.IdCountValid(sids, i);
      var x := MilvusIds.FromIDs(sids, i);
      if x !in offsets {
        offsets := offsets[x := 0];
      }
      idx := idx + [offsets[x]];
      i := i + 1;
    }
  }

  /** The column loop of PostProcess: a header and its picked rows for each query column of an output field. */
  method FetchColumnsLoop(fds: seq<FieldData>, fieldIds: seq<int>, idx: seq<int>) returns (cols: seq<FieldData>)
    requires HybridFetch.ColumnsReadable(fds, idx)
    ensures cols == HybridFetch.FetchColumns(fds, fieldIds, idx)
  {
    cols := [];
    var j := 0;
    while j < |fds|
      invariant 0 <= j <= |fds| && HybridFetch.ColumnsReadable(fds[..j], idx)
      invariant cols == HybridFetch.FetchColumns(fds[..j], fieldIds, idx)
    {
      var fd := fds[j];
      assert fds[..j + 1][..j] == fds[..j] && fds[..j + 1][j] == fd;
      if fd.fieldId in fieldIds {
        var header := EmptyField(fd.dtype, fd.fieldName, fd.fieldId, fd.isDynamic);
        var picked, col := SchemaUtil.PickFieldDataByIndex(fd, idx, header);
        cols := cols + [col];
      }
      j := j + 1;
    }
    assert fds[..j] == fds;
  }

  /** The quoting loop of ProcessQuery over the string ids (none when the ids are unset). */
  method QuoteStrIds(ids: MilvusIds.IDs) returns (texts: seq<string>)
    requires !ids.IntId?
    ensures texts == HybridFetch.IdTexts(ids)
  {
    var strs := if ids.StrId? then ids.strs else [];
    texts := [];
    var i := 0;
    while i < |strs|
      invariant 0 <= i <= |strs| && texts == HybridFetch.Quoted(strs[..i])
    {
      assert strs[..i + 1][..i] == strs[..i];
      texts := texts + ["'" + strs[i] + "'"];
      i := i + 1;
    }
    assert strs[..i] == strs;
  }

  // ---------------------------------------------------------------------------
  // The task object

  class HybridSearchTask {
    const schema: CollectionSchema
    /** The stored index metas; None for one whose bytes do not parse. */
    const allIndex: seq<Option<FieldIndexMeta>>
    var outputFields: seq<string>
    var userOutputFields: seq<string>
    /** offset_, held signed: the bound checks are those of a signed offset. */
    var offset: int
    var limit: int
    var roundDecimal: int
    var nq: int

    function Rank(): RankParams
      reads this`offset, this`limit, this`roundDecimal
    {
      RankParams(offset, limit, roundDecimal)
    }

    constructor(schema: CollectionSchema, allIndex: seq<Option<FieldIndexMeta>>)
      ensures this.schema == schema && this.allIndex == allIndex
      ensures outputFields == [] && userOutputFields == []
      ensures Rank() == INITIAL_RANK && nq == -1
    {
      this.schema := schema;
      this.allIndex := allIndex;
      outputFields := [];
      userOutputFields := [];
      offset := 0;
      limit := -1;
      roundDecimal := -1;
      nq := -1;
    }

    /** ParseRankParams: the loop over the rank parameters, then the bound checks. */
    method ParseRankParams(kvs: seq<KV>) returns (s: MilvusStatus.Status)
      modifies this`offset, this`limit, this`roundDecimal
      ensures var r := ParseRankFrom(old(Rank()), kvs);
              s == r.status && Rank() == r.params
    {
      ghost var p0 := Rank();
      var i := 0;
      while i < |kvs|
        invariant 0 <= i <= |kvs|
        invariant ScanRank(p0, kvs[..i]) == RankScan(true, Rank())
      {
        var kv := kvs[i];
        assert kvs[..i + 1][..i] == kvs[..i] && kvs[..i + 1][i] == kv;
        var read := ReadRankParam(kv);
        if !read {
          ScanRankStopStays(p0, kvs, i + 1);
          return MilvusStatus.ParameterInvalid("");
        }
        i := i + 1;
      }
      assert kvs[..i] == kvs;
      MilvusStatus.FactoryCodes("");
      if offset < 0 {
        return MilvusStatus.ParameterInvalid("");
      }
      if limit <= 0 {
        return MilvusStatus.ParameterInvalid("");
      }
      var depth := offset + limit;
      if depth <= 0 || depth > TOPK_LIMIT {
        return MilvusStatus.ParameterInvalid("");
      }
      s := MilvusStatus.Ok();
    }

    /** One rank parameter: false when a number key's value does not parse, and then nothing is assigned. */
    method ReadRankParam(kv: KV) returns (ok: bool)
      modifies this`offset, this`limit, this`roundDecimal
      ensures ReadRank(old(Rank()), kv) == if ok then Some(Rank()) else None
      ensures !ok ==> Rank() == old(Rank())
    {
      RankKeysDistinct();
      ok := true;
      if kv.key == LIMIT_KEY {
        var v := Decimal.Stoll(kv.value);
        if !v.Parsed? {
          return false;
        }
        limit := v.value;
      } else if kv.key == OFFSET_KEY {
        var v := Decimal.Stoll(kv.value);
        if !v.Parsed? {
          return false;
        }
        offset := v.value;
      } else if kv.key == ROUND_DECIMAL_KEY {
        var v := Decimal.Stoll(kv.value);
        if !v.Parsed? {
          return false;
        }
        roundDecimal := v.value;
      }
    }

    /** The index loop of GetMetricType: the metric of the last meta of the field, or false for an unreadable meta. */
    method ScanIndexMetric(fieldId: int) returns (ok: bool, indexMetric: string)
      ensures ok <==> SearchTask.IndexMetricUpTo(allIndex, fieldId, |allIndex|).Some?
      ensures ok ==> indexMetric == SearchTask.IndexMetricUpTo(allIndex, fieldId, |allIndex|).value
    {
      indexMetric := "";
      var i := 0;
      while i < |allIndex|
        invariant 0 <= i <= |allIndex|
        invariant SearchTask.IndexMetricUpTo(allIndex, fieldId, i) == Some(indexMetric)
      {
        var meta := allIndex[i];
        if meta.None? {
          assert SearchTask.IndexMetricUpTo(allIndex, fieldId, i + 1).None?;
          SearchTask.NoneStays(allIndex, fieldId, i + 1);
          return false, indexMetric;
        }
        if meta.value.fieldId == fieldId {
          indexMetric := SchemaUtil.GetIndexMetricType(meta.value);
        }
        i := i + 1;
      }
      ok := true;
    }

    /** GetMetricType of a generated search request. */
    method GetMetricType(req: SearchRequest) returns (s: MilvusStatus.Status, metric: string)
      ensures var r := MetricFor(schema, allIndex, req.searchParams);
              (r.Success? ==> s == MilvusStatus.Ok() && metric == r.value) && (r.Failure? ==> s == r.status)
    {
      MetricKeysDistinct();
      MilvusStatus.FactoryCodes("");
      metric := "";
      var annField := "";
      var kvs := req.searchParams;
      var i := 0;
      while i < |kvs|
        invariant 0 <= i <= |kvs|
        invariant metric == SchemaUtil.TextOr(kvs[..i], METRIC_TYPE_KEY, "")
        invariant annField == SchemaUtil.TextOr(kvs[..i], ANN_FIELD_KEY, "")
      {
        assert kvs[..i + 1][..i] == kvs[..i];
        if kvs[i].key == METRIC_TYPE_KEY {
          metric := kvs[i].value;
        } else if kvs[i].key == ANN_FIELD_KEY {
          annField := kvs[i].value;
        }
        i := i + 1;
      }
      assert kvs[..i] == kvs;
      if annField == "" {
        return MilvusStatus.ParameterInvalid(""), metric;
      }
      var found := SchemaUtil.FindVectorField(schema, annField);
      if found.Failure? {
        return found.status, metric;
      }
      var ok, indexMetric := ScanIndexMetric(found.value.fieldId);
      if !ok {
        return MilvusStatus.ServiceInternal(""), metric;
      }
      if metric == "" {
        metric := indexMetric;
      }
      if metric == "" || metric != indexMetric {
        return MilvusStatus.ParameterInvalid(""), metric;
      }
      s := MilvusStatus.Ok();
    }

    /** The sub-request loop of ProcessSearch, with nq already taken from the first sub-request. */
    method GenerateSearchRequests(h: HybridSearchRequest) returns (s: MilvusStatus.Status, pushed: seq<SearchRequest>, metrics: seq<string>)
      ensures Generate(h, Metrics(h, schema, allIndex), nq, |h.requests|) == Generated(s, pushed, metrics)
    {
      ghost var ms := Metrics(h, schema, allIndex);
      s, pushed, metrics := MilvusStatus.Ok(), [], [];
      var i := 0;
      while i < |h.requests| && s.IsOk()
        invariant 0 <= i <= |h.requests| == |ms|
        invariant Generate(h, ms, nq, i) == Generated(s, pushed, metrics)
        invariant s.IsOk() ==> s == MilvusStatus.Ok()
      {
        s, pushed, metrics := NextSearchRequest(h, ms, i, pushed, metrics);
        i := i + 1;
      }
      if !s.IsOk() {
        GenerateStops(h, ms, nq, i);
      }
    }

    /** One turn of the sub-request loop: check sub-request i's nq, build its request and find its metric. */
    method NextSearchRequest(h: HybridSearchRequest, ghost ms: seq<MilvusStatus.Outcome<string>>, i: nat,
                             pushed0: seq<SearchRequest>, metrics0: seq<string>)
      returns (st: MilvusStatus.Status, pushed: seq<SearchRequest>, metrics: seq<string>)
      requires ms == Metrics(h, schema, allIndex) && i < |h.requests|
      requires Generate(h, ms, nq, i) == Generated(MilvusStatus.Ok(), pushed0, metrics0)
      ensures Generate(h, ms, nq, i + 1) == Generated(st, pushed, metrics)
      ensures st.IsOk() ==> st == MilvusStatus.Ok()
    {
      MetricFailuresAreErrors(h, schema, allIndex);
      MilvusStatus.FactoryCodes("");
      GenerateNext(h, ms, nq, i + 1, Generate(h, ms, nq, i));
      if nq != h.requests[i].nq {
        return MilvusStatus.ParameterInvalid(""), pushed0, metrics0;
      }
      var sub := BuildSubRequest(h, h.requests[i]);
      assert ms[i] == MetricFor(schema, allIndex, sub.searchParams);
      var m;
      st, m := GetMetricType(sub);
      if !st.IsOk() {
        return st, pushed0, metrics0;
      }
      assert ms[i] == MilvusStatus.Success(m);
      pushed, metrics := pushed0 + [sub], metrics0 + [m];
    }

    /** What the output-field translation of ProcessSearch leaves behind (the primary key is not added). */
    ghost predicate OutputsTranslated(out0: seq<string>, user0: seq<string>, raw: seq<string>, parseIdent: string -> seq<string>)
      reads this`outputFields, this`userOutputFields
    {
      (!SchemaUtil.AllAccepted(schema, raw) ==> outputFields == out0 && userOutputFields == user0) &&
      (SchemaUtil.AllAccepted(schema, raw) ==>
         |outputFields| >= |out0| && outputFields[..|out0|] == out0 &&
         |userOutputFields| >= |user0| && userOutputFields[..|user0|] == user0 &&
         Lex.Sorted(outputFields[|out0|..]) && Lex.Sorted(userOutputFields[|user0|..]) &&
         (forall y :: y in outputFields[|out0|..] <==> y in SchemaUtil.Finish(SchemaUtil.RequestedResult(schema, parseIdent, raw), schema, false)) &&
         (forall y :: y in userOutputFields[|user0|..] <==> y in SchemaUtil.Finish(SchemaUtil.RequestedUser(schema, parseIdent, raw), schema, false)))
    }

    /**
     * ProcessSearch: no sub-request is an error; the output fields are
     * translated; then the rank parameters, the rescorers, nq and the
     * sub-request loop as PlanFrom states them. The rescorers are built
     * outside this model: reScorers is the status NewReScorers returns, and
     * metrics lists the metric each of them is given.
     */
    method ProcessSearch(h: HybridSearchRequest, parseIdent: string -> seq<string>, reScorers: MilvusStatus.Status)
      returns (s: MilvusStatus.Status, pushed: seq<SearchRequest>, metrics: seq<string>)
      modifies this
      ensures |h.requests| == 0 ==>
                s == MilvusStatus.ParameterInvalid("") && pushed == [] && metrics == [] &&
                outputFields == old(outputFields) && userOutputFields == old(userOutputFields) &&
                Rank() == old(Rank()) && nq == old(nq)
      ensures |h.requests| > 0 ==> OutputsTranslated(old(outputFields), old(userOutputFields), h.outputFields, parseIdent)
      ensures |h.requests| > 0 && !SchemaUtil.AllAccepted(schema, h.outputFields) ==>
                s == MilvusStatus.ParameterInvalid("") && pushed == [] && metrics == [] && Rank() == old(Rank()) && nq == old(nq)
      ensures |h.requests| > 0 && SchemaUtil.AllAccepted(schema, h.outputFields) ==>
                var r := PlanFrom(h, schema, allIndex, old(Rank()), old(nq), reScorers);
                s == r.status && Rank() == r.rank && nq == r.nq && pushed == r.pushed &&
                metrics == (if r.metrics.Some? then r.metrics.value else [])
    {
      if |h.requests| == 0 {
        return MilvusStatus.ParameterInvalid(""), [], [];
      }
      var ok;
      ok, outputFields, userOutputFields :=
        SchemaUtil.TranslateOutputFields(h.outputFields, schema, false, parseIdent, outputFields, userOutputFields);
      if !ok {
        return MilvusStatus.ParameterInvalid(""), [], [];
      }
      s := ParseRankParams(h.rankParams);
      if !s.IsOk() {
        return s, [], [];
      }
      if !reScorers.IsOk() {
        return reScorers, [], [];
      }
      nq := h.requests[0].nq;
      s, pushed, metrics := GenerateSearchRequests(h);
    }

    /**
     * PostProcessSearch, run after a successful ProcessSearch (nq, offset and
     * limit then hold no negative value): the sub-results, already rescored,
     * are summed per query and id, ranked and cut to their windows; the
     * result carries nq, limit as top_k, one topk per query, and the windows'
     * scores and ids one after another.
     */
    method PostProcessSearch(results: seq<SearchTask.SearchResultData>) returns (s: MilvusStatus.Status, res: SearchTask.SearchResultData)
      requires 0 <= nq && 0 <= offset && 0 <= limit && HybridMerge.AllCover(results, nq)
      ensures var ws := HybridMerge.AllWindows(results, nq, offset, limit);
              s == MilvusStatus.Ok() &&
              res == SearchTask.SearchResultData(nq, limit, HybridMerge.Sizes(ws), HybridMerge.Scores(HybridMerge.Flatten(ws)),
                                                 HybridMerge.IdsOf(HybridMerge.Flatten(ws)), [], [])
    {
      var acc := HybridMerge.AccumulateScores(results, nq);
      var topks, scores, ids := HybridMerge.EmitWindows(acc, results, nq, offset, limit);
      res := SearchTask.SearchResultData(nq, limit, topks, scores, ids, [], []);
      s := MilvusStatus.Ok();
    }

    /**
     * ProcessQuery: a query on the hybrid request's collection, partitions
     * and output fields, strongly consistent, filtering on the primary key
     * being one of the merged hits' ids.
     */
    method ProcessQuery(h: HybridSearchRequest, sr: SearchTask.SearchResultData) returns (q: QueryRequest)
      requires SchemaUtil.GetPkName(schema).Some?
      ensures q == QueryRequest(h.collectionName, h.outputFields, h.partitionNames, true, CONSISTENCY_STRONG, false,
                                HybridFetch.InExpr(SchemaUtil.GetPkName(schema).value, sr.ids))
    {
      var pk := SchemaUtil.GetPkName(schema).value;
      var texts: seq<string>;
      if sr.ids.IntId? {
        texts := SchemaUtil.IdKeys(sr.ids);
      } else {
        texts := QuoteStrIds(sr.ids);
      }
      var expr := pk + " in [" + StringUtil.Join(",", texts) + "]";
      q := QueryRequest(h.collectionName, h.outputFields, h.partitionNames, true, CONSISTENCY_STRONG, false, expr);
    }

    /** FillInFieldInfo: every column of the result takes its schema header. */
    method FillInFieldInfo(fds: seq<FieldData>) returns (r: seq<FieldData>)
      ensures r == QueryTask.RelabelAll(outputFields, schema, fds)
    {
      r := FieldInfo.FillInFieldInfo(outputFields, schema, fds);
    }

    /**
     * PostProcess: the query's columns of the output fields, their rows put
     * in the order of the hits' ids, join the hits' result after its own
     * columns, and the user output names after its own names.
     */
    method PostProcess(rt: QueryTask.RetrieveResults, sr: SearchTask.SearchResultData)
      returns (s: MilvusStatus.Status, res: SearchTask.SearchResultData)
      requires HybridFetch.Fetchable(rt, sr.ids)
      ensures s == MilvusStatus.Ok() && res == HybridFetch.FetchResult(rt, sr, outputFields, userOutputFields, schema)
    {
      var offsets := BuildOffsets(rt.ids);
      var indexes := OrderBySearch(offsets, sr.ids);
      var ok, fieldIds := SchemaUtil.GetOutputFieldsIds(outputFields, schema, []);
      assert fieldIds[..0] == [] && |fieldIds| - 0 == |fieldIds|;
      HybridFetch.OutputIdsPrefixUnique(outputFields, SchemaUtil.NameIds(schema.fields), fieldIds);
      HybridFetch.FetchableReadable(rt, sr.ids);
      var cols := FetchColumnsLoop(rt.fieldsData, fieldIds, indexes);
      var all := FillInFieldInfo(sr.fieldsData + cols);
      res := sr.(fieldsData := all, outputFields := sr.outputFields + userOutputFields);
      s := MilvusStatus.Ok();
    }
  }
}
