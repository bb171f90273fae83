// The rank parameters of the hybrid search: offset, limit and round_decimal
// read from the request's rank_params, and the bounds they must meet.
module HybridRank {
  import opened Wrappers
  import opened Schema
  import MilvusStatus
  import Decimal
  import SchemaUtil
  import SearchTask

  const UINT64_MOD: int := 0x1_0000_0000_0000_0000


  // ---------------------------------------------------------------------------
  // ParseRankParams

  /** The task's offset_, limit_ and round_decimal_. */
  datatype RankParams = RankParams(offset: int, limit: int, roundDecimal: int)

  /** The constructor's values. */
  const INITIAL_RANK: RankParams := RankParams(0, -1, -1)

  predicate IsRankKey(k: string)
  {
    k == LIMIT_KEY || k == OFFSET_KEY || k == ROUND_DECIMAL_KEY
  }

  /** One rank parameter: limit, offset and round_decimal take std::stoll of their value, which stops the loop when it throws. */
  function ReadRank(p: RankParams, kv: KV): (r: Option<RankParams>)
    ensures r.None? <==> IsRankKey(kv.key) && !Decimal.Stoll(kv.value).Parsed?
    ensures r.Some? && !IsRankKey(kv.key) ==> r.value == p
  {
    if kv.key == LIMIT_KEY then
      match Decimal.Stoll(kv.value) case Parsed(n) => Some(p.(limit := n)) case _ => None
    else if kv.key == OFFSET_KEY then
      match Decimal.Stoll(kv.value) case Parsed(n) => Some(p.(offset := n)) case _ => None
    else if kv.key == ROUND_DECIMAL_KEY then
      match Decimal.Stoll(kv.value) case Parsed(n) => Some(p.(roundDecimal := n)) case _ => None
    else Some(p)
  }

  /** Where the loop stands: still going (ok) or stopped by a failed stoll, and the values assigned so far. */
  datatype RankScan = RankScan(ok: bool, params: RankParams)

  function ScanRank(p0: RankParams, kvs: seq<KV>): RankScan
    decreases |kvs|
  {
    if |kvs| == 0 then RankScan(true, p0)
    else
      var s := ScanRank(p0, kvs[..|kvs| - 1]);
      if !s.ok then s
      else match ReadRank(s.params, kvs[|kvs| - 1])
        case None => RankScan(false, s.params)
        case Some(q) => RankScan(true, q)
  }

  /** Once the loop stopped, later parameters change nothing. */
  lemma {:induction false} ScanRankStopStays(p0: RankParams, kvs: seq<KV>, n: int)
    requires 0 <= n <= |kvs| && !ScanRank(p0, kvs[..n]).ok
    ensures ScanRank(p0, kvs) == ScanRank(p0, kvs[..n])
    decreases |kvs| - n
  {
    if n < |kvs| {
      assert kvs[..n + 1][..n] == kvs[..n];
      ScanRankStopStays(p0, kvs, n + 1);
    } else {
      assert kvs[..n] == kvs;
    }
  }

  /** Every limit, offset and round_decimal value is one stoll accepts. */
  predicate RankNumbersParse(kvs: seq<KV>)
  {
    forall i | 0 <= i < |kvs| :: IsRankKey(kvs[i].key) ==> Decimal.Stoll(kvs[i].value).Parsed?
  }

  lemma RankNumbersParseSnoc(kvs: seq<KV>)
    requires |kvs| > 0
    ensures RankNumbersParse(kvs) <==>
              RankNumbersParse(kvs[..|kvs| - 1]) &&
              (IsRankKey(kvs[|kvs| - 1].key) ==> Decimal.Stoll(kvs[|kvs| - 1].value).Parsed?)
  {
    var pre := kvs[..|kvs| - 1];
    assert forall i | 0 <= i < |pre| :: kvs[i] == pre[i];
  }

  /** The loop runs to the end exactly when every number parameter parses. */
  lemma {:induction false} ScanRankRunsThrough(p0: RankParams, kvs: seq<KV>)
    ensures ScanRank(p0, kvs).ok <==> RankNumbersParse(kvs)
    decreases |kvs|
  {
    if |kvs| > 0 {
      ScanRankRunsThrough(p0, kvs[..|kvs| - 1]);
      RankNumbersParseSnoc(kvs);
    }
  }

  lemma RankKeysDistinct()
    ensures LIMIT_KEY != OFFSET_KEY && LIMIT_KEY != ROUND_DECIMAL_KEY && OFFSET_KEY != ROUND_DECIMAL_KEY
  {
    assert LIMIT_KEY[0] == 'l' && OFFSET_KEY[0] == 'o' && ROUND_DECIMAL_KEY[0] == 'r';
  }

  /** When the loop runs to the end, each field holds stoll of its key's last value, or what it held before. */
  lemma {:induction false} ScanRankLastWins(p0: RankParams, kvs: seq<KV>)
    requires ScanRank(p0, kvs).ok
    ensures ScanRank(p0, kvs).params ==
              RankParams(SchemaUtil.NumberOr(kvs, OFFSET_KEY, p0.offset), SchemaUtil.NumberOr(kvs, LIMIT_KEY, p0.limit),
                         SchemaUtil.NumberOr(kvs, ROUND_DECIMAL_KEY, p0.roundDecimal))
    decreases |kvs|
  {
    if |kvs| > 0 {
      var kv := kvs[|kvs| - 1];
      ScanRankLastWins(p0, kvs[..|kvs| - 1]);
      RankKeysDistinct();
      if kv.key != LIMIT_KEY { SchemaUtil.LastValueOther(kvs, LIMIT_KEY); }
      if kv.key != OFFSET_KEY { SchemaUtil.LastValueOther(kvs, OFFSET_KEY); }
      if kv.key != ROUND_DECIMAL_KEY { SchemaUtil.LastValueOther(kvs, ROUND_DECIMAL_KEY); }
    }
  }

  /**
   * The checks after the loop with a signed offset: the offset must not be
   * negative, the limit must be positive, and offset + limit must lie in
   * [1, 16384].
   */
  function CheckRank(p: RankParams): (r: MilvusStatus.Status)
    ensures r.IsOk() <==> 0 <= p.offset && 0 < p.limit && p.offset + p.limit <= TOPK_LIMIT
    ensures !r.IsOk() ==> r == MilvusStatus.ParameterInvalid("")
  {
    MilvusStatus.FactoryCodes("");
    if p.offset < 0 then MilvusStatus.ParameterInvalid("")
    else if p.limit <= 0 then MilvusStatus.ParameterInvalid("")
    else
      var depth := p.offset + p.limit;
      if depth <= 0 || depth > TOPK_LIMIT then MilvusStatus.ParameterInvalid("")
      else MilvusStatus.Ok()
  }

  /** The status ParseRankParams returns and the task's fields after it. */
  datatype RankOutcome = RankOutcome(status: MilvusStatus.Status, params: RankParams)

  /** ParseRankParams with a signed offset_, from the task's current fields. */
  function ParseRankFrom(p0: RankParams, kvs: seq<KV>): RankOutcome
  {
    var s := ScanRank(p0, kvs);
    if !s.ok then RankOutcome(MilvusStatus.ParameterInvalid(""), s.params)
    else RankOutcome(CheckRank(s.params), s.params)
  }

  /**
   * On a fresh task ParseRankParams succeeds exactly when every number
   * parameter parses, the last offset O is at least 0, the last limit L is
   * positive and O + L is at most 16384; offset_ and limit_ then hold O and L.
   */
  lemma ParseRankSpec(kvs: seq<KV>)
    ensures var r := ParseRankFrom(INITIAL_RANK, kvs);
            var off := SchemaUtil.NumberOr(kvs, OFFSET_KEY, 0);
            var lim := SchemaUtil.NumberOr(kvs, LIMIT_KEY, -1);
            (r.status.IsOk() <==> RankNumbersParse(kvs) && 0 <= off && 0 < lim && off + lim <= TOPK_LIMIT) &&
            (r.status.IsOk() ==> r.params.offset == off && r.params.limit == lim &&
                                 r.params.roundDecimal == SchemaUtil.NumberOr(kvs, ROUND_DECIMAL_KEY, -1)) &&
            (!r.status.IsOk() ==> r.status == MilvusStatus.ParameterInvalid(""))
  {
    ScanRankRunsThrough(INITIAL_RANK, kvs);
    if ScanRank(INITIAL_RANK, kvs).ok {
      ScanRankLastWins(INITIAL_RANK, kvs);
    }
  }

  /** Without a limit parameter the constructor's limit -1 stays and the parse fails. */
  lemma MissingLimitRejected(kvs: seq<KV>)
    requires forall i | 0 <= i < |kvs| :: kvs[i].key != LIMIT_KEY
    ensures !ParseRankFrom(INITIAL_RANK, kvs).status.IsOk()
  {
    ParseRankSpec(kvs);
    SchemaUtil.LastValueIsLast(kvs, LIMIT_KEY);
  }

  /** uint64 conversion: the value modulo 2^64. */
  function ToUint64(n: int): (r: nat)
    ensures r < UINT64_MOD
    ensures 0 <= n < UINT64_MOD ==> r == n
  {
    n % UINT64_MOD
  }

  /** int64 conversion of a 64-bit pattern: the value modulo 2^64, read as two's complement. */
  function ToInt64(n: int): (r: int)
    ensures Decimal.IsInt64(r) && (r - n) % UINT64_MOD == 0
    ensures Decimal.IsInt64(n) ==> r == n
  {
    var m := n % UINT64_MOD;
    if m > Decimal.INT64_MAX then m - UINT64_MOD else m
  }

  /**
   * The checks as the source makes them, offset_ being a uint64: the offset
   * holds stoll's value modulo 2^64, so `offset_ < 0` never holds, and the
   * depth is the wrapped sum offset_ + limit_ read back as an int64.
   */
  function CheckRankAsWritten(p: RankParams): (r: MilvusStatus.Status)
  {
    var u := ToUint64(p.offset);
    if u < 0 then MilvusStatus.ParameterInvalid("")
    else if p.limit <= 0 then MilvusStatus.ParameterInvalid("")
    else
      var depth := ToInt64(u + p.limit);
      if depth <= 0 || depth > TOPK_LIMIT then MilvusStatus.ParameterInvalid("")
      else MilvusStatus.Ok()
  }

  /** ParseRankParams as written; offset_ keeps the wrapped value. */
  function ParseRankAsWrittenFrom(p0: RankParams, kvs: seq<KV>): RankOutcome
  {
    var s := ScanRank(p0, kvs);
    var stored := s.params.(offset := ToUint64(s.params.offset));
    if !s.ok then RankOutcome(MilvusStatus.ParameterInvalid(""), stored)
    else RankOutcome(CheckRankAsWritten(s.params), stored)
  }

  /**
   * As written, limit 10 with offset -1 is accepted: offset_ holds 2^64 - 1
   * and the wrapped depth is 9; the signed check rejects it.
   */
  lemma NegativeOffsetAcceptedAsWritten()
    ensures var kvs := [KV(LIMIT_KEY, "10"), KV(OFFSET_KEY, "-1")];
            ParseRankAsWrittenFrom(INITIAL_RANK, kvs).status.IsOk() &&
            ParseRankAsWrittenFrom(INITIAL_RANK, kvs).params.offset == UINT64_MOD - 1 &&
            !ParseRankFrom(INITIAL_RANK, kvs).status.IsOk()
  {
    ScanLimitThenNegativeOffset();
    WrappedOffsetPasses();
    MilvusStatus.FactoryCodes("");
  }

  lemma ScanLimitThenNegativeOffset()
    ensures ScanRank(INITIAL_RANK, [KV(LIMIT_KEY, "10"), KV(OFFSET_KEY, "-1")]) == RankScan(true, RankParams(-1, 10, -1))
  {
    var kvs := [KV(LIMIT_KEY, "10"), KV(OFFSET_KEY, "-1")];
    SearchTask.StollLiterals();
    RankKeysDistinct();
    var p1 := RankParams(0, 10, -1);
    assert ReadRank(INITIAL_RANK, kvs[0]) == Some(p1);
    assert ReadRank(p1, kvs[1]) == Some(RankParams(-1, 10, -1));
    assert kvs[..1] == [KV(LIMIT_KEY, "10")] && kvs[..1][..0] == [] && kvs[..|kvs| - 1] == kvs[..1];
    assert ScanRank(INITIAL_RANK, kvs[..1]) == RankScan(true, p1);
  }

  lemma WrappedOffsetPasses()
    ensures ToUint64(-1) == UINT64_MOD - 1
    ensures CheckRankAsWritten(RankParams(-1, 10, -1)) == MilvusStatus.Ok()
    ensures !CheckRank(RankParams(-1, 10, -1)).IsOk()
  {
    assert ToUint64(-1) == UINT64_MOD - 1;
    assert ToInt64(UINT64_MOD - 1 + 10) == 9;
  }

  /** Where the signed check accepts, the check as written agrees and stores the same offset. */
  lemma ParseRankCorrection(p0: RankParams, kvs: seq<KV>)
    requires ParseRankFrom(p0, kvs).status.IsOk()
    ensures ParseRankAsWrittenFrom(p0, kvs) == ParseRankFrom(p0, kvs)
  {
    var p := ScanRank(p0, kvs).params;
    assert 0 <= p.offset && 0 < p.limit && p.offset + p.limit <= TOPK_LIMIT;
    assert ToUint64(p.offset) == p.offset;
    assert ToInt64(p.offset + p.limit) == p.offset + p.limit;
  }
}
