// BM25Function (src/function/bm25_function.h, bm25_function.cpp): the
// function that turns a VarChar column into a sparse term-frequency column at
// insert time, and VarChar queries into sparse query vectors at search time.
// The tokenizer behind Embedding is foreign: `embed(params, doc)` stands for
// the sparse row the tokenizer built from `params` yields for `doc`.
module Bm25Function {
  import opened Wrappers
  import opened Schema
  import opened MilvusStatus
  import Decimal
  import opened FunctionMeta

  /** A BM25 function: its resolved meta and the analyzer params of its tokenizer. */
  datatype Bm25 = Bm25(meta: Meta, tokenizerParams: string)

  /** The value of the first `analyzer_params` type param, or "" when there is none. */
  function AnalyzerParams(typeParams: seq<KV>): string
  {
    if |typeParams| == 0 then ""
    else if typeParams[0].key == "analyzer_params" then typeParams[0].value
    else AnalyzerParams(typeParams[1..])
  }

  /** The first `analyzer_params` entry decides; without one the params are empty. */
  lemma {:induction false} AnalyzerParamsFirst(typeParams: seq<KV>)
    ensures (forall i | 0 <= i < |typeParams| :: typeParams[i].key != "analyzer_params") ==>
              AnalyzerParams(typeParams) == ""
    ensures forall i | 0 <= i < |typeParams| && typeParams[i].key == "analyzer_params" &&
                       (forall j | 0 <= j < i :: typeParams[j].key != "analyzer_params") ::
              AnalyzerParams(typeParams) == typeParams[i].value
  {
    if |typeParams| > 0 && typeParams[0].key != "analyzer_params" {
      AnalyzerParamsFirst(typeParams[1..]);
      forall i | 0 < i < |typeParams| && typeParams[i].key == "analyzer_params" &&
                 (forall j | 0 <= j < i :: typeParams[j].key != "analyzer_params")
        ensures AnalyzerParams(typeParams) == typeParams[i].value
      {
        assert typeParams[1..][i - 1] == typeParams[i];
        assert forall j | 0 <= j < i - 1 :: typeParams[1..][j] == typeParams[j + 1];
      }
    }
  }

  function OutputCountError(meta: Meta): Status
  {
    ParameterInvalid("BM25 function only supports one onput, but got " + Decimal.ToString(|meta.outputFields|))
  }

  /** The input-count message as written: it formats the number of outputs. */
  function InputCountErrorAsWritten(meta: Meta): Status
  {
    ParameterInvalid("BM25 function only supports one input, but got " + Decimal.ToString(|meta.outputFields|))
  }

  /** The input-count message reporting the number of inputs. */
  function InputCountError(meta: Meta): Status
  {
    ParameterInvalid("BM25 function only supports one input, but got " + Decimal.ToString(|meta.inputFields|))
  }

  const INPUT_COUNT_PREFIX: string := "BM25 function only supports one input, but got "

  /**
   * Whenever the input count is rejected, the output count is already known
   * to be one, so the message as written always ends in "1": with two inputs
   * it reports one.
   */
  lemma InputCountMisreported(meta: Meta)
    requires |meta.outputFields| == 1 && |meta.inputFields| == 2
    ensures InputCountErrorAsWritten(meta).detail == INPUT_COUNT_PREFIX + "1"
    ensures InputCountError(meta).detail == INPUT_COUNT_PREFIX + "2"
    ensures InputCountErrorAsWritten(meta) != InputCountError(meta)
  {
    assert Decimal.ToString(1) == "1";
    assert Decimal.ToString(2) == "2";
    assert (INPUT_COUNT_PREFIX + "1")[|INPUT_COUNT_PREFIX|] != (INPUT_COUNT_PREFIX + "2")[|INPUT_COUNT_PREFIX|];
  }

  /** The corrected message carries the number of inputs, and it reads back as that number. */
  lemma InputCountReported(meta: Meta)
    ensures InputCountError(meta).detail[..|INPUT_COUNT_PREFIX|] == INPUT_COUNT_PREFIX
    ensures Decimal.DigitsValue(InputCountError(meta).detail[|INPUT_COUNT_PREFIX|..]) == |meta.inputFields|
  {
    var d := InputCountError(meta).detail;
    assert d == INPUT_COUNT_PREFIX + Decimal.ToString(|meta.inputFields|);
    assert d[|INPUT_COUNT_PREFIX|..] == Decimal.NatToString(|meta.inputFields|);
    Decimal.DigitsOfNat(|meta.inputFields|);
  }

  /**
   * NewBM25Function: a FunctionMeta::Create failure is passed on; then one
   * output, one input, a VarChar input and a SparseFloatVector output are
   * required; the tokenizer params come from the input field.
   */
  function NewBM25Function(schema: CollectionSchema, f: FunctionSchema): (r: (Status, Option<Bm25>))
    ensures r.0.IsOk() <==> r.1.Some?
    ensures r.1.Some? ==>
              && |r.1.value.meta.inputFields| >= 1 && |r.1.value.meta.outputFields| >= 1
              && r.1.value.meta.inputFields[0].dataType == VarChar
              && r.1.value.meta.outputFields[0].dataType == SparseFloatVector
              && r.1.value.tokenizerParams == AnalyzerParams(r.1.value.meta.inputFields[0].typeParams)
    ensures !CreateSpec(schema, f).0.IsOk() ==> r.1.None?
  {
    var (s, meta) := CreateSpec(schema, f);
    if meta.None? then (s, None)
    else if |f.outputFieldNames| != 1 then (OutputCountError(meta.value), None)
    else if |f.inputFieldNames| != 1 then (InputCountError(meta.value), None)
    else if meta.value.inputFields[0].dataType != VarChar then
      (ParameterInvalid("BM25 function only supports varchar input, but got "
                        + DTypeName(meta.value.inputFields[0].dataType)), None)
    else if meta.value.outputFields[0].dataType != SparseFloatVector then
      (ParameterInvalid("BM25 function only supports sparse vector output, but got "
                        + DTypeName(meta.value.outputFields[0].dataType)), None)
    else (Ok(), Some(Bm25(meta.value, AnalyzerParams(meta.value.inputFields[0].typeParams))))
  }

  /** A failed FunctionMeta::Create is returned unchanged. */
  lemma NewBm25PassesCreateFailure(schema: CollectionSchema, f: FunctionSchema)
    requires !CreateSpec(schema, f).0.IsOk()
    ensures NewBM25Function(schema, f) == (CreateSpec(schema, f).0, None)
  {
    CreateOkIffAllKnown(schema, f);
  }

  /**
   * A BM25 function is built exactly when the meta resolves, it names one
   * output and one input, the input field is VarChar and the output field is
   * SparseFloatVector; it then reads the tokenizer params off the input field.
   */
  lemma NewBm25OkIff(schema: CollectionSchema, f: FunctionSchema)
    ensures NewBM25Function(schema, f).0.IsOk() <==>
              CreateSpec(schema, f).0.IsOk() && |f.outputFieldNames| == 1 && |f.inputFieldNames| == 1
              && NameFieldMap(schema.fields)[f.inputFieldNames[0]].dataType == VarChar
              && NameFieldMap(schema.fields)[f.outputFieldNames[0]].dataType == SparseFloatVector
    ensures NewBM25Function(schema, f).0.IsOk() <==> NewBM25Function(schema, f).1.Some?
    ensures NewBM25Function(schema, f).1.Some? ==>
              var fn := NewBM25Function(schema, f).1.value;
              fn.meta == CreateSpec(schema, f).1.value
              && |fn.meta.inputFields| == 1 && |fn.meta.outputFields| == 1
              && fn.meta.inputFields[0].name == f.inputFieldNames[0]
              && fn.meta.outputFields[0].name == f.outputFieldNames[0]
              && fn.tokenizerParams == AnalyzerParams(NameFieldMap(schema.fields)[f.inputFieldNames[0]].typeParams)
  {
    CreateOkIffAllKnown(schema, f);
    if CreateSpec(schema, f).1.Some? {
      ResolvedFieldsNamed(schema, f);
    }
  }

  /** The text of a string cell; a cell of any other kind reads as the empty document. */
  function Doc(c: Cell): string
  {
    if c.TextCell? then c.s else ""
  }

  /** has_string_data: the column's payload is text. */
  predicate HasStringData(fd: FieldData)
  {
    forall i | 0 <= i < |fd.cells| :: fd.cells[i].TextCell?
  }

  /** The sparse rows the tokenizer yields for the documents, one per document. */
  function Embeddings(params: string, docs: seq<Cell>, embed: (string, string) -> seq<SparseEntry>): (rows: seq<seq<SparseEntry>>)
    ensures |rows| == |docs|
  {
    seq(|docs|, i requires 0 <= i < |docs| => embed(params, Doc(docs[i])))
  }

  /** The largest number of entries in a row, 0 for no rows. */
  function MaxLen(rows: seq<seq<SparseEntry>>): nat
  {
    if |rows| == 0 then 0
    else
      var m := MaxLen(rows[..|rows| - 1]);
      if m < |rows[|rows| - 1]| then |rows[|rows| - 1]| else m
  }

  /** MaxLen bounds every row and is reached by one of them, unless it is 0. */
  lemma {:induction false} MaxLenSpec(rows: seq<seq<SparseEntry>>)
    ensures forall i | 0 <= i < |rows| :: |rows[i]| <= MaxLen(rows)
    ensures MaxLen(rows) == 0 || exists i | 0 <= i < |rows| :: |rows[i]| == MaxLen(rows)
  {
    if |rows| > 0 {
      var init := rows[..|rows| - 1];
      MaxLenSpec(init);
      assert forall i | 0 <= i < |init| :: init[i] == rows[i];
    }
  }

  /** One serialized content per sparse row, in order. */
  function Contents(rows: seq<seq<SparseEntry>>): (cs: seq<Cell>)
    ensures |cs| == |rows|
  {
    seq(|rows|, i requires 0 <= i < |rows| => SparseCell(rows[i]))
  }

  /** The sparse column emitted for the rows: one content per row, dim the largest row size. */
  function SparseOutput(name: string, rows: seq<seq<SparseEntry>>): FieldData
  {
    EmptyField(SparseFloatVector, name, 0, false).(
      sparseDim := MaxLen(rows),
      cells := Contents(rows))
  }

  /** BM25Function::ProcessInsert: the status and the fields pushed onto the outputs. */
  function InsertSpec(fn: Bm25, inputs: seq<FieldData>, embed: (string, string) -> seq<SparseEntry>): (Status, seq<FieldData>)
    requires |fn.meta.outputFields| > 0
  {
    if |inputs| != 1 then (ParameterInvalid("BM25Function inputs size must be 1"), [])
    else if inputs[0].dtype != VarChar then (ParameterInvalid("BM25Function input type must be VarChar"), [])
    else if !HasStringData(inputs[0]) then (ParameterInvalid("BM25Function input data is not string"), [])
    else (Ok(), [SparseOutput(fn.meta.outputFields[0].name, Embeddings(fn.tokenizerParams, inputs[0].cells, embed))])
  }

  /**
   * An insert succeeds exactly for one VarChar text column; it then emits one
   * SparseFloatVector column named after the output field, holding the
   * embedding of each document in order, whose dim is the largest embedding
   * size, or 0 for no documents.
   */
  lemma InsertOutputShape(fn: Bm25, inputs: seq<FieldData>, embed: (string, string) -> seq<SparseEntry>)
    requires |fn.meta.outputFields| > 0
    ensures InsertSpec(fn, inputs, embed).0.IsOk() <==>
              |inputs| == 1 && inputs[0].dtype == VarChar && HasStringData(inputs[0])
    ensures !InsertSpec(fn, inputs, embed).0.IsOk() ==>
              InsertSpec(fn, inputs, embed).1 == [] && InsertSpec(fn, inputs, embed).0.code == CodeValue(ErrParameterInvalid)
    ensures InsertSpec(fn, inputs, embed).0.IsOk() ==>
              var outs := InsertSpec(fn, inputs, embed).1;
              |outs| == 1 && outs[0].dtype == SparseFloatVector
              && outs[0].fieldName == fn.meta.outputFields[0].name
              && |outs[0].cells| == |inputs[0].cells|
              && (forall i | 0 <= i < |inputs[0].cells| ::
                    outs[0].cells[i] == SparseCell(embed(fn.tokenizerParams, inputs[0].cells[i].s))
                    && |embed(fn.tokenizerParams, inputs[0].cells[i].s)| <= outs[0].sparseDim)
              && (outs[0].sparseDim == 0 ||
                  exists i | 0 <= i < |inputs[0].cells| :: |embed(fn.tokenizerParams, inputs[0].cells[i].s)| == outs[0].sparseDim)
  {
    if |inputs| == 1 && inputs[0].dtype == VarChar && HasStringData(inputs[0]) {
      var rows := Embeddings(fn.tokenizerParams, inputs[0].cells, embed);
      MaxLenSpec(rows);
      forall i | 0 <= i < |inputs[0].cells|
        ensures rows[i] == embed(fn.tokenizerParams, inputs[0].cells[i].s)
      {
        assert inputs[0].cells[i].TextCell?;
        assert rows[i] == embed(fn.tokenizerParams, Doc(inputs[0].cells[i]));
      }
    } else {
      FactoryCodes("");
    }
  }

  /** BM25Function::ProcessSearch: the status and the output placeholder group. */
  function SearchSpec(fn: Bm25, input: PlaceholderGroup, embed: (string, string) -> seq<SparseEntry>): (Status, PlaceholderGroup)
    requires |input.placeholders| > 0
  {
    var ph := input.placeholders[0];
    if ph.ptype != PhVarChar then (ParameterInvalid("BM25 function error, the input is not varch"), PlaceholderGroup([]))
    else
      var rows := Embeddings(fn.tokenizerParams, ph.values, embed);
      (Ok(), PlaceholderGroup([Placeholder(PLACEHOLDER_TAG, PhSparseFloatVector, Contents(rows))]))
  }

  /**
   * A search rejects a non-VarChar first placeholder; otherwise it yields one
   * `$0` SparseFloatVector placeholder with one value per query text.
   */
  lemma SearchOutputShape(fn: Bm25, input: PlaceholderGroup, embed: (string, string) -> seq<SparseEntry>)
    requires |input.placeholders| > 0
    ensures SearchSpec(fn, input, embed).0.IsOk() <==> input.placeholders[0].ptype == PhVarChar
    ensures SearchSpec(fn, input, embed).0.IsOk() ==>
              var out := SearchSpec(fn, input, embed).1;
              |out.placeholders| == 1 && out.placeholders[0].tag == PLACEHOLDER_TAG
              && out.placeholders[0].ptype == PhSparseFloatVector
              && |out.placeholders[0].values| == |input.placeholders[0].values|
    ensures !SearchSpec(fn, input, embed).0.IsOk() ==> SearchSpec(fn, input, embed).1.placeholders == []
  {
    if input.placeholders[0].ptype != PhVarChar {
      FactoryCodes("");
    }
  }

  /**
   * A text is embedded the same way on both paths: the row stored for a
   * document at insert time is the query vector for the same text at search
   * time.
   */
  lemma InsertSearchAgree(fn: Bm25, inputs: seq<FieldData>, input: PlaceholderGroup,
                          embed: (string, string) -> seq<SparseEntry>, i: nat, j: nat)
    requires |fn.meta.outputFields| > 0 && |input.placeholders| > 0
    requires InsertSpec(fn, inputs, embed).0.IsOk() && SearchSpec(fn, input, embed).0.IsOk()
    requires i < |inputs[0].cells| && j < |input.placeholders[0].values|
    requires input.placeholders[0].values[j] == inputs[0].cells[i]
    ensures InsertSpec(fn, inputs, embed).1[0].cells[i] == SearchSpec(fn, input, embed).1.placeholders[0].values[j]
  {
    InsertOutputShape(fn, inputs, embed);
  }

  /** Embeds every document, keeping the largest embedding size as the dim. */
  method ProcessInsert(fn: Bm25, inputs: seq<FieldData>, embed: (string, string) -> seq<SparseEntry>)
    returns (s: Status, outputs: seq<FieldData>)
    requires |fn.meta.outputFields| > 0
    ensures (s, outputs) == InsertSpec(fn, inputs, embed)
  {
    outputs := [];
    if |inputs| != 1 {
      return ParameterInvalid("BM25Function inputs size must be 1"), outputs;
    }
    if inputs[0].dtype != VarChar {
      return ParameterInvalid("BM25Function input type must be VarChar"), outputs;
    }
    if !HasStringData(inputs[0]) {
      return ParameterInvalid("BM25Function input data is not string"), outputs;
    }
    var docs := inputs[0].cells;
    ghost var rows := Embeddings(fn.tokenizerParams, docs, embed);
    var contents: seq<Cell> := [];
    var dim: nat := 0;
    var i := 0;
    while i < |docs|
      invariant i <= |docs| && |contents| == i
      invariant forall j | 0 <= j < i :: contents[j] == SparseCell(rows[j])
      invariant dim == MaxLen(rows[..i])
    {
      var embd := embed(fn.tokenizerParams, Doc(docs[i]));
      contents := contents + [SparseCell(embd)];
      assert rows[..i + 1][..i] == rows[..i];
      if dim < |embd| {
        dim := |embd|;
      }
      i := i + 1;
    }
    assert rows[..i] == rows;
    assert contents == Contents(rows);
    var sparseField := EmptyField(SparseFloatVector, fn.meta.outputFields[0].name, 0, false).(sparseDim := dim, cells := contents);
    assert sparseField == SparseOutput(fn.meta.outputFields[0].name, rows);
    outputs := [sparseField];
    return Ok(), outputs;
  }

  /** Embeds every query text, then emits them as one sparse placeholder. */
  method ProcessSearch(fn: Bm25, input: PlaceholderGroup, embed: (string, string) -> seq<SparseEntry>)
    returns (s: Status, output: PlaceholderGroup)
    requires |input.placeholders| > 0
    ensures (s, output) == SearchSpec(fn, input, embed)
  {
    output := PlaceholderGroup([]);
    var ph := input.placeholders[0];
    if ph.ptype != PhVarChar {
      return ParameterInvalid("BM25 function error, the input is not varch"), output;
    }
    ghost var rows := Embeddings(fn.tokenizerParams, ph.values, embed);
    var embds: seq<seq<SparseEntry>> := [];
    var i := 0;
    while i < |ph.values|
      invariant i <= |ph.values| && |embds| == i
      invariant forall j | 0 <= j < i :: embds[j] == rows[j]
    {
      embds := embds + [embed(fn.tokenizerParams, Doc(ph.values[i]))];
      i := i + 1;
    }
    var values: seq<Cell> := [];
    i := 0;
    while i < |embds|
      invariant i <= |embds| && |values| == i
      invariant forall j | 0 <= j < i :: values[j] == SparseCell(rows[j])
    {
      values := values + [SparseCell(embds[i])];
      i := i + 1;
    }
    assert values == Contents(rows);
    output := PlaceholderGroup([Placeholder(PLACEHOLDER_TAG, PhSparseFloatVector, values)]);
    return Ok(), output;
  }
}
