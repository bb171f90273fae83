// The fetch step of the hybrid search: the `pk in [...]` query asking for the
// output fields of the merged hits, and the re-ordering of the rows that
// query returns into the order of the hits.
module HybridFetch {
  import opened Schema
  import MilvusIds
  import Decimal
  import StringUtil
  import Tokenizer
  import SchemaUtil
  import QueryTask
  import SearchTask
  import HybridMerge
  import FieldInfo

  // ---------------------------------------------------------------------------
  // ProcessQuery: the filter expression

  /** A string id as a string literal of the expression language. */
  function Quote(s: string): string
  {
    "'" + s + "'"
  }

  /** The loop over the string ids: each one quoted, in order. */
  function Quoted(strs: seq<string>): (r: seq<string>)
    ensures |r| == |strs|
    decreases |strs|
  {
    if |strs| == 0 then [] else Quoted(strs[..|strs| - 1]) + [Quote(strs[|strs| - 1])]
  }

  lemma {:induction false} QuotedAt(strs: seq<string>)
    ensures forall k | 0 <= k < |strs| :: Quoted(strs)[k] == Quote(strs[k])
    decreases |strs|
  {
    if |strs| > 0 {
      var init := strs[..|strs| - 1];
      QuotedAt(init);
      assert forall k | 0 <= k < |init| :: init[k] == strs[k];
    }
  }

  /** The list items: the decimal text of each int id, or each string id quoted (none for an unset list). */
  function IdTexts(ids: MilvusIds.IDs): seq<string>
  {
    match ids
    case IntId(_) => SchemaUtil.IdKeys(ids)
    case StrId(strs) => Quoted(strs)
    case NoId => []
  }

  /** The filter ProcessQuery builds: `<pk> in [<item>,<item>,...]`. */
  function InExpr(pk: string, ids: MilvusIds.IDs): string
  {
    pk + " in [" + StringUtil.Join(",", IdTexts(ids)) + "]"
  }

  /** The text between the brackets of an InExpr. */
  function ListText(pk: string, e: string): string
    requires |e| >= |pk| + 6
  {
    e[|pk| + 5 .. |e| - 1]
  }

  /** std::to_string never prints a comma. */
  lemma ToStringHasNoComma(n: int)
    ensures ',' !in Decimal.ToString(n)
  {
    var s := Decimal.ToString(n);
    if n < 0 {
      var ds := Decimal.NatToString(-n);
      assert forall i | 1 <= i < |s| :: s[i] == ds[i - 1];
    }
  }

  lemma QuoteHasNoComma(s: string)
    requires ',' !in s
    ensures ',' !in Quote(s)
  {
    assert forall i | 1 <= i < |s| + 1 :: Quote(s)[i] == s[i - 1];
  }

  /**
   * The expression starts with the primary key name and ` in [`, ends with
   * `]`, and splitting the text between on commas gives the ids back: every
   * int id (an int64) as a piece that stoll reads as that id, every string id
   * free of commas as that string in single quotes. Without ids the list is
   * empty.
   */
  lemma InExprListsIds(pk: string, ids: MilvusIds.IDs)
    requires ids.IntId? ==> forall k | 0 <= k < |ids.ints| :: Decimal.IsInt64(ids.ints[k])
    requires ids.StrId? ==> forall k | 0 <= k < |ids.strs| :: ',' !in ids.strs[k]
    ensures var e := InExpr(pk, ids);
            |e| >= |pk| + 6 && e[..|pk| + 5] == pk + " in [" && e[|e| - 1] == ']' &&
            (HybridMerge.IdCount(ids) == 0 ==> ListText(pk, e) == "") &&
            (HybridMerge.IdCount(ids) > 0 ==>
               var pieces := Tokenizer.Split(ListText(pk, e), ",");
               |pieces| == HybridMerge.IdCount(ids) &&
               (ids.IntId? ==> forall k | 0 <= k < |pieces| :: Decimal.Stoll(pieces[k]) == Decimal.Parsed(ids.ints[k])) &&
               (ids.StrId? ==> forall k | 0 <= k < |pieces| :: pieces[k] == Quote(ids.strs[k])))
  {
    var texts := IdTexts(ids);
    var inner := StringUtil.Join(",", texts);
    var e := InExpr(pk, ids);
    assert e == (pk + " in [") + inner + "]";
    assert ListText(pk, e) == inner;
    if ids.IntId? {
      forall k | 0 <= k < |texts| ensures ',' !in texts[k] {
        ToStringHasNoComma(ids.ints[k]);
      }
      forall k | 0 <= k < |texts| ensures Decimal.Stoll(texts[k]) == Decimal.Parsed(ids.ints[k]) {
        Decimal.StollToString(ids.ints[k]);
      }
    } else if ids.StrId? {
      QuotedAt(ids.strs);
      forall k | 0 <= k < |texts| ensures ',' !in texts[k] {
        QuoteHasNoComma(ids.strs[k]);
      }
    }
    if |texts| > 0 {
      assert ","[0] == ',';
      Tokenizer.SplitOfJoin(",", texts);
    }
  }

  // ---------------------------------------------------------------------------
  // PostProcess: the rows in the order of the hits

  /** The loop over the query's ids: after the first n, each of them maps to its last position. */
  function OffsetsUpTo(ids: MilvusIds.IDs, n: nat): map<MilvusIds.MilvusID, int>
    requires n <= HybridMerge.IdCount(ids)
  {
    if n == 0 then map[]
    else
      HybridMerge.IdCountValid(ids, n - 1);
      OffsetsUpTo(ids, n - 1)[MilvusIds.FromIDs(ids, n - 1) := n - 1]
  }

  /** `offsets` once every id of the query result has been read. */
  function Offsets(ids: MilvusIds.IDs): map<MilvusIds.MilvusID, int>
  {
    OffsetsUpTo(ids, HybridMerge.IdCount(ids))
  }

  /** Position p holds x and no later position below n does. */
  predicate LastAt(ids: MilvusIds.IDs, n: nat, x: MilvusIds.MilvusID, p: int)
    requires n <= HybridMerge.IdCount(ids)
  {
    0 <= p < n && MilvusIds.FromIDs(ids, p) == x &&
    forall j | p < j < n :: MilvusIds.FromIDs(ids, j) != x
  }

  /** The map holds exactly the first n ids, each at its last position among them. */
  lemma {:induction false} OffsetsUpToSpec(ids: MilvusIds.IDs, n: nat)
    requires n <= HybridMerge.IdCount(ids)
    ensures var m := OffsetsUpTo(ids, n);
            (forall x | x in m :: LastAt(ids, n, x, m[x])) &&
            (forall j | 0 <= j < n :: MilvusIds.FromIDs(ids, j) in m)
    decreases n
  {
    if n > 0 {
      OffsetsUpToSpec(ids, n - 1);
      OffsetsStep(ids, n, OffsetsUpTo(ids, n - 1));
    }
  }

  lemma OffsetsStep(ids: MilvusIds.IDs, n: nat, prev: map<MilvusIds.MilvusID, int>)
    requires 0 < n <= HybridMerge.IdCount(ids) && prev == OffsetsUpTo(ids, n - 1)
    requires forall x | x in prev :: LastAt(ids, n - 1, x, prev[x])
    requires forall j | 0 <= j < n - 1 :: MilvusIds.FromIDs(ids, j) in prev
    ensures var m := OffsetsUpTo(ids, n);
            (forall x | x in m :: LastAt(ids, n, x, m[x])) &&
            (forall j | 0 <= j < n :: MilvusIds.FromIDs(ids, j) in m)
  {
    var y := MilvusIds.FromIDs(ids, n - 1);
    var m := OffsetsUpTo(ids, n);
    assert m == prev[y := n - 1];
    forall x | x in m ensures LastAt(ids, n, x, m[x]) {
      if x != y {
        assert x in prev && m[x] == prev[x];
      }
    }
  }

  /** The row each hit reads: the query position of its id, 0 for an id the query did not return. */
  function SearchOrder(offsets: map<MilvusIds.MilvusID, int>, sids: MilvusIds.IDs): (idx: seq<int>)
    ensures |idx| == HybridMerge.IdCount(sids)
  {
    seq(HybridMerge.IdCount(sids), k requires 0 <= k < HybridMerge.IdCount(sids) =>
      HybridMerge.IdCountValid(sids, k);
      var x := MilvusIds.FromIDs(sids, k);
      if x in offsets then offsets[x] else 0)
  }

  /**
   * Hit k reads a row of the query result carrying its own id, the last one
   * that does, when the query returned that id; otherwise it reads row 0.
   */
  lemma SearchOrderReadsBack(qids: MilvusIds.IDs, sids: MilvusIds.IDs, k: nat)
    requires k < HybridMerge.IdCount(sids)
    ensures MilvusIds.ValidIndex(sids, k)
    ensures var idx := SearchOrder(Offsets(qids), sids);
            var x := MilvusIds.FromIDs(sids, k);
            var n := HybridMerge.IdCount(qids);
            ((exists j | 0 <= j < n :: MilvusIds.FromIDs(qids, j) == x) ==> LastAt(qids, n, x, idx[k])) &&
            (!(exists j | 0 <= j < n :: MilvusIds.FromIDs(qids, j) == x) ==> idx[k] == 0)
  {
    HybridMerge.IdCountValid(sids, k);
    OffsetsUpToSpec(qids, HybridMerge.IdCount(qids));
  }

  /** Every row a hit reads exists, when the query returned rows or there are no hits. */
  lemma SearchOrderBelow(qids: MilvusIds.IDs, sids: MilvusIds.IDs)
    requires HybridMerge.IdCount(sids) == 0 || HybridMerge.IdCount(qids) > 0
    ensures QueryTask.Below(SearchOrder(Offsets(qids), sids), HybridMerge.IdCount(qids))
  {
    OffsetsUpToSpec(qids, HybridMerge.IdCount(qids));
  }

  // ---------------------------------------------------------------------------
  // PostProcess: the columns

  /**
   * The field ids GetOutputFieldsIds leaves when its status is ignored: those
   * of the output names up to the first one the schema does not have.
   */
  function OutputIdsPrefix(outputs: seq<string>, nameIds: map<string, int>): (r: seq<int>)
    ensures |r| <= |outputs|
    decreases |outputs|
  {
    if |outputs| == 0 || outputs[0] !in nameIds then []
    else [nameIds[outputs[0]]] + OutputIdsPrefix(outputs[1..], nameIds)
  }

  /** Any list of ids as GetOutputFieldsIds promises them, started empty, is OutputIdsPrefix. */
  lemma {:induction false} OutputIdsPrefixUnique(outputs: seq<string>, nameIds: map<string, int>, ids: seq<int>)
    requires |ids| <= |outputs|
    requires |ids| < |outputs| ==> outputs[|ids|] !in nameIds
    requires forall j | 0 <= j < |ids| :: outputs[j] in nameIds && ids[j] == nameIds[outputs[j]]
    ensures ids == OutputIdsPrefix(outputs, nameIds)
    decreases |outputs|
  {
    if |ids| > 0 {
      assert forall j | 0 <= j < |ids| - 1 :: outputs[1..][j] == outputs[j + 1] && ids[1..][j] == ids[j + 1];
      OutputIdsPrefixUnique(outputs[1..], nameIds, ids[1..]);
      assert ids == [ids[0]] + ids[1..];
    }
  }

  /** The header a kept column starts from: the query column's type, name, id and dynamic flag. */
  function Header(fd: FieldData): FieldData
  {
    EmptyField(fd.dtype, fd.fieldName, fd.fieldId, fd.isDynamic)
  }

  /** PickFieldDataByIndex into the header; an untyped column with rows to pick keeps only the header. */
  function FetchColumn(fd: FieldData, idx: seq<int>): FieldData
    requires SchemaUtil.WellFormedDim(fd) && SchemaUtil.AllReadable(fd, idx)
  {
    if |idx| == 0 || fd.dtype != NoneType then SchemaUtil.PickResult(fd, idx, Header(fd)) else Header(fd)
  }

  /** A fetched column of a typed query column holds its rows at idx under its header. */
  lemma FetchColumnRows(fd: FieldData, idx: seq<int>)
    requires SchemaUtil.WellFormedDim(fd) && SchemaUtil.AllReadable(fd, idx) && fd.dtype != NoneType
    ensures var c := FetchColumn(fd, idx);
            QueryTask.HoldsRows(c, fd, idx) &&
            c.dtype == fd.dtype && c.fieldName == fd.fieldName && c.isDynamic == fd.isDynamic
  {
    assert [] + SchemaUtil.Picked(fd, idx) == SchemaUtil.Picked(fd, idx);
  }

  /** Every query column can give the rows at idx. */
  predicate ColumnsReadable(fds: seq<FieldData>, idx: seq<int>)
  {
    forall j | 0 <= j < |fds| :: SchemaUtil.WellFormedDim(fds[j]) && SchemaUtil.AllReadable(fds[j], idx)
  }

  /** The column loop: a fetched column for each query column whose field id is an output field's, in order. */
  function FetchColumns(fds: seq<FieldData>, fieldIds: seq<int>, idx: seq<int>): (r: seq<FieldData>)
    requires ColumnsReadable(fds, idx)
    ensures |r| <= |fds|
    decreases |fds|
  {
    if |fds| == 0 then []
    else
      var fd := fds[|fds| - 1];
      FetchColumns(fds[..|fds| - 1], fieldIds, idx) + (if fd.fieldId in fieldIds then [FetchColumn(fd, idx)] else [])
  }

  /** col is the fetched column of some query column of an output field. */
  predicate FetchedFrom(fds: seq<FieldData>, fieldIds: seq<int>, idx: seq<int>, col: FieldData)
    requires ColumnsReadable(fds, idx)
  {
    exists j | 0 <= j < |fds| :: fds[j].fieldId in fieldIds && col == FetchColumn(fds[j], idx)
  }

  /**
   * Exactly the query columns of the output fields are fetched: each fetched
   * column comes from one of them, and each of them gives a fetched column.
   */
  lemma {:induction false} FetchColumnsSpec(fds: seq<FieldData>, fieldIds: seq<int>, idx: seq<int>)
    requires ColumnsReadable(fds, idx)
    ensures var r := FetchColumns(fds, fieldIds, idx);
            (forall c | 0 <= c < |r| :: FetchedFrom(fds, fieldIds, idx, r[c])) &&
            (forall j | 0 <= j < |fds| && fds[j].fieldId in fieldIds :: FetchColumn(fds[j], idx) in r)
    decreases |fds|
  {
    if |fds| > 0 {
      var init := fds[..|fds| - 1];
      FetchColumnsSpec(init, fieldIds, idx);
      FetchColumnsStepFrom(fds, fieldIds, idx, FetchColumns(init, fieldIds, idx));
      FetchColumnsStepAll(fds, fieldIds, idx, FetchColumns(init, fieldIds, idx));
    }
  }

  /** Each fetched column still comes from a query column once one more column is considered. */
  lemma FetchColumnsStepFrom(fds: seq<FieldData>, fieldIds: seq<int>, idx: seq<int>, r0: seq<FieldData>)
    requires ColumnsReadable(fds, idx) && |fds| > 0
    requires var init := fds[..|fds| - 1];
             ColumnsReadable(init, idx) && r0 == FetchColumns(init, fieldIds, idx) &&
             (forall c | 0 <= c < |r0| :: FetchedFrom(init, fieldIds, idx, r0[c]))
    ensures var r := FetchColumns(fds, fieldIds, idx);
            forall c | 0 <= c < |r| :: FetchedFrom(fds, fieldIds, idx, r[c])
  {
    var init := fds[..|fds| - 1];
    var last := fds[|fds| - 1];
    var r := FetchColumns(fds, fieldIds, idx);
    var tail := if last.fieldId in fieldIds then [FetchColumn(last, idx)] else [];
    assert r == r0 + tail;
    forall c | 0 <= c < |r| ensures FetchedFrom(fds, fieldIds, idx, r[c]) {
      if c < |r0| {
        assert r[c] == r0[c];
        var j :| 0 <= j < |init| && init[j].fieldId in fieldIds && r0[c] == FetchColumn(init[j], idx);
        assert fds[j] == init[j];
      } else {
        assert r[c] == FetchColumn(last, idx);
      }
    }
  }

  /** Each query column of an output field is still fetched once one more column is considered. */
  lemma FetchColumnsStepAll(fds: seq<FieldData>, fieldIds: seq<int>, idx: seq<int>, r0: seq<FieldData>)
    requires ColumnsReadable(fds, idx) && |fds| > 0
    requires var init := fds[..|fds| - 1];
             ColumnsReadable(init, idx) && r0 == FetchColumns(init, fieldIds, idx) &&
             (forall j | 0 <= j < |init| && init[j].fieldId in fieldIds :: FetchColumn(init[j], idx) in r0)
    ensures var r := FetchColumns(fds, fieldIds, idx);
            forall j | 0 <= j < |fds| && fds[j].fieldId in fieldIds :: FetchColumn(fds[j], idx) in r
  {
    var init := fds[..|fds| - 1];
    var last := fds[|fds| - 1];
    var r := FetchColumns(fds, fieldIds, idx);
    var tail := if last.fieldId in fieldIds then [FetchColumn(last, idx)] else [];
    assert r == r0 + tail;
    forall j | 0 <= j < |fds| && fds[j].fieldId in fieldIds ensures FetchColumn(fds[j], idx) in r {
      if j < |init| {
        assert init[j] == fds[j];
        assert FetchColumn(init[j], idx) in r0;
      } else {
        assert r[|r| - 1] == FetchColumn(last, idx);
      }
    }
  }

  /** What PostProcess needs of the query result: n full rows per column, and rows whenever there are hits. */
  predicate Fetchable(rt: QueryTask.RetrieveResults, sids: MilvusIds.IDs)
  {
    (forall j | 0 <= j < |rt.fieldsData| :: QueryTask.FullRows(rt.fieldsData[j], HybridMerge.IdCount(rt.ids))) &&
    (HybridMerge.IdCount(sids) == 0 || HybridMerge.IdCount(rt.ids) > 0)
  }

  lemma FetchableReadable(rt: QueryTask.RetrieveResults, sids: MilvusIds.IDs)
    requires Fetchable(rt, sids)
    ensures ColumnsReadable(rt.fieldsData, SearchOrder(Offsets(rt.ids), sids))
  {
    var idx := SearchOrder(Offsets(rt.ids), sids);
    SearchOrderBelow(rt.ids, sids);
    forall j | 0 <= j < |rt.fieldsData| ensures SchemaUtil.WellFormedDim(rt.fieldsData[j]) && SchemaUtil.AllReadable(rt.fieldsData[j], idx) {
      QueryTask.FullRowsReadable(rt.fieldsData[j], HybridMerge.IdCount(rt.ids), idx);
    }
  }

  /**
   * PostProcess: the hits' result gains the fetched columns after its own
   * and the user output names after its own; then every column takes its
   * schema header.
   */
  function FetchResult(rt: QueryTask.RetrieveResults, sr: SearchTask.SearchResultData, outputs: seq<string>, userOutputs: seq<string>,
                       schema: CollectionSchema): SearchTask.SearchResultData
    requires Fetchable(rt, sr.ids)
  {
    var idx := SearchOrder(Offsets(rt.ids), sr.ids);
    FetchableReadable(rt, sr.ids);
    var cols := sr.fieldsData + FetchColumns(rt.fieldsData, OutputIdsPrefix(outputs, SchemaUtil.NameIds(schema.fields)), idx);
    sr.(fieldsData := QueryTask.RelabelAll(outputs, schema, cols), outputFields := sr.outputFields + userOutputs)
  }

  /**
   * After PostProcess the hits' own columns are still first, each under its
   * schema header; then, for each typed query column of an output field
   * (the prefix GetOutputFieldsIds resolves), a column holding its rows in
   * hit order, under the same field id; the user output names follow the
   * result's own.
   */
  lemma FetchResultSpec(rt: QueryTask.RetrieveResults, sr: SearchTask.SearchResultData, outputs: seq<string>,
                        userOutputs: seq<string>, schema: CollectionSchema)
    requires Fetchable(rt, sr.ids)
    ensures var res := FetchResult(rt, sr, outputs, userOutputs, schema);
            var idx := SearchOrder(Offsets(rt.ids), sr.ids);
            var fieldIds := OutputIdsPrefix(outputs, SchemaUtil.NameIds(schema.fields));
            var fds := rt.fieldsData;
            res.outputFields == sr.outputFields + userOutputs &&
            res.ids == sr.ids && res.scores == sr.scores && res.topks == sr.topks &&
            |res.fieldsData| >= |sr.fieldsData| &&
            (forall c | 0 <= c < |sr.fieldsData| :: res.fieldsData[c] == FieldInfo.Relabel(outputs, schema.fields, sr.fieldsData[c])) &&
            (forall j | 0 <= j < |fds| && fds[j].fieldId in fieldIds && fds[j].dtype != NoneType ::
               exists c | |sr.fieldsData| <= c < |res.fieldsData| :: QueryTask.HoldsRows(res.fieldsData[c], fds[j], idx))
  {
    var idx := SearchOrder(Offsets(rt.ids), sr.ids);
    var fieldIds := OutputIdsPrefix(outputs, SchemaUtil.NameIds(schema.fields));
    var fds := rt.fieldsData;
    FetchableReadable(rt, sr.ids);
    var r := FetchColumns(fds, fieldIds, idx);
    FetchColumnsSpec(fds, fieldIds, idx);
    RelabelledHead(sr.fieldsData, r, outputs, schema);
    forall j | 0 <= j < |fds| && fds[j].fieldId in fieldIds && fds[j].dtype != NoneType
      ensures exists c | |sr.fieldsData| <= c < |sr.fieldsData| + |r| ::
                QueryTask.HoldsRows(QueryTask.RelabelAll(outputs, schema, sr.fieldsData + r)[c], fds[j], idx)
    {
      FetchColumnRows(fds[j], idx);
      RelabelledHolds(sr.fieldsData, r, fds[j], idx, outputs, schema);
    }
  }

  /** Relabelling leaves the columns before the fetched ones as relabelled copies of themselves. */
  lemma RelabelledHead(head: seq<FieldData>, r: seq<FieldData>, outputs: seq<string>, schema: CollectionSchema)
    ensures var all := QueryTask.RelabelAll(outputs, schema, head + r);
            |all| == |head| + |r| &&
            forall c | 0 <= c < |head| :: all[c] == FieldInfo.Relabel(outputs, schema.fields, head[c])
  {
    var all := QueryTask.RelabelAll(outputs, schema, head + r);
    forall c | 0 <= c < |head| ensures all[c] == FieldInfo.Relabel(outputs, schema.fields, head[c]) {
      assert (head + r)[c] == head[c];
    }
  }

  /** A fetched column holding rows keeps holding them once relabelled after the columns before it. */
  lemma RelabelledHolds(head: seq<FieldData>, r: seq<FieldData>, fd: FieldData, idx: seq<int>,
                        outputs: seq<string>, schema: CollectionSchema)
    requires SchemaUtil.WellFormedDim(fd) && SchemaUtil.AllReadable(fd, idx)
    requires FetchColumn(fd, idx) in r && QueryTask.HoldsRows(FetchColumn(fd, idx), fd, idx)
    ensures exists c | |head| <= c < |head| + |r| ::
              QueryTask.HoldsRows(QueryTask.RelabelAll(outputs, schema, head + r)[c], fd, idx)
  {
    var all := QueryTask.RelabelAll(outputs, schema, head + r);
    var c0 :| 0 <= c0 < |r| && r[c0] == FetchColumn(fd, idx);
    var c := |head| + c0;
    assert (head + r)[c] == r[c0];
    assert QueryTask.HoldsRows(all[c], fd, idx);
  }
}
