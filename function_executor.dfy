// FunctionExecutor (src/function/function_executor.cpp): builds a collection's
// functions from its schema and runs them over insert and search requests.
// An insert request is its list of field columns; a search request is its
// placeholder group, already parsed (None when the bytes do not parse).
module FunctionExecutor {
  import opened Wrappers
  import opened Schema
  import opened MilvusStatus
  import opened FunctionMeta
  import Bm25Function

  /** The executor's functions, in the order they run. */
  datatype Executor = Executor(functions: seq<Bm25Function.Bm25>)

  /** Every function has its one output field, as NewBM25Function guarantees. */
  predicate Built(ex: Executor)
  {
    forall i | 0 <= i < |ex.functions| :: |ex.functions[i].meta.outputFields| == 1
  }

  /** FunctionType_Name. */
  function FunctionTypeName(t: FunctionType): string
  {
    match t
    case UnknownFunction => "Unknown"
    case BM25 => "BM25"
  }

  /** CreateFunction: BM25 is the one supported type. */
  function CreateFunction(schema: CollectionSchema, f: FunctionSchema): (r: (Status, Option<Bm25Function.Bm25>))
    ensures r.0.IsOk() <==> r.1.Some?
    ensures r.1.Some? ==> |r.1.value.meta.outputFields| == 1
  {
    if f.ftype == BM25 then
      Bm25Function.NewBm25OkIff(schema, f);
      var (s, fn) := Bm25Function.NewBM25Function(schema, f);
      if !s.IsOk() then (s, None) else (Ok(), fn)
    else
      FactoryCodes("");
      (ParameterInvalid("Unsupported function: " + FunctionTypeName(f.ftype)), None)
  }

  /** Only a BM25 function can be created, and it is created exactly as NewBM25Function builds it. */
  lemma CreateFunctionSpec(schema: CollectionSchema, f: FunctionSchema)
    ensures f.ftype != BM25 ==> CreateFunction(schema, f).0.code == CodeValue(ErrParameterInvalid)
    ensures f.ftype == BM25 ==> CreateFunction(schema, f) == Bm25Function.NewBM25Function(schema, f)
  {
    FactoryCodes("");
    Bm25Function.NewBm25OkIff(schema, f);
  }

  /** The position of the first function whose first output is `name`, or the length. */
  function FirstOutputMatch(fs: seq<FunctionSchema>, name: string): (k: nat)
    requires forall i | 0 <= i < |fs| :: |fs[i].outputFieldNames| > 0
    ensures k <= |fs|
    ensures forall j | 0 <= j < k :: fs[j].outputFieldNames[0] != name
    ensures k < |fs| ==> fs[k].outputFieldNames[0] == name
  {
    if |fs| == 0 then 0
    else if fs[0].outputFieldNames[0] == name then 0
    else 1 + FirstOutputMatch(fs[1..], name)
  }

  lemma {:induction false} FirstOutputMatchAt(fs: seq<FunctionSchema>, name: string, p: nat)
    requires forall i | 0 <= i < |fs| :: |fs[i].outputFieldNames| > 0
    requires p <= |fs|
    requires forall j | 0 <= j < p :: fs[j].outputFieldNames[0] != name
    requires p < |fs| ==> fs[p].outputFieldNames[0] == name
    ensures FirstOutputMatch(fs, name) == p
  {
    if p > 0 {
      FirstOutputMatchAt(fs[1..], name, p - 1);
    }
  }

  /** Create(schema, field_name): an executor of the first function that outputs the field. */
  function CreateForSpec(schema: CollectionSchema, fieldName: string): (Status, Option<Executor>)
    requires forall i | 0 <= i < |schema.functions| :: |schema.functions[i].outputFieldNames| > 0
  {
    var k := FirstOutputMatch(schema.functions, fieldName);
    if k == |schema.functions| then (ParameterInvalid("No function's output is " + fieldName), None)
    else
      var (s, f) := CreateFunction(schema, schema.functions[k]);
      if !s.IsOk() then (s, None) else (Ok(), Some(Executor([f.value])))
  }

  /**
   * With no function writing the field, Create fails with ParameterInvalid;
   * otherwise it builds the first such function alone, and passes its
   * failure on.
   */
  lemma CreateForFirstMatch(schema: CollectionSchema, fieldName: string)
    requires forall i | 0 <= i < |schema.functions| :: |schema.functions[i].outputFieldNames| > 0
    ensures (forall i | 0 <= i < |schema.functions| :: schema.functions[i].outputFieldNames[0] != fieldName) ==>
              CreateForSpec(schema, fieldName).0.code == CodeValue(ErrParameterInvalid)
              && CreateForSpec(schema, fieldName).1.None?
    ensures forall k | 0 <= k < |schema.functions| && schema.functions[k].outputFieldNames[0] == fieldName
                       && (forall j | 0 <= j < k :: schema.functions[j].outputFieldNames[0] != fieldName) ::
              CreateForSpec(schema, fieldName).0 == CreateFunction(schema, schema.functions[k]).0
              && (CreateForSpec(schema, fieldName).1.Some? <==> CreateFunction(schema, schema.functions[k]).1.Some?)
              && (CreateForSpec(schema, fieldName).1.Some? ==>
                    CreateForSpec(schema, fieldName).1.value.functions == [CreateFunction(schema, schema.functions[k]).1.value])
  {
    FactoryCodes("");
    forall k | 0 <= k < |schema.functions| && schema.functions[k].outputFieldNames[0] == fieldName
               && (forall j | 0 <= j < k :: schema.functions[j].outputFieldNames[0] != fieldName)
      ensures CreateForSpec(schema, fieldName).0 == CreateFunction(schema, schema.functions[k]).0
    {
      FirstOutputMatchAt(schema.functions, fieldName, k);
      var s := CreateFunction(schema, schema.functions[k]).0;
      if s.IsOk() {
        CreateFunctionSpec(schema, schema.functions[k]);
        assert s == Ok() by {
          if schema.functions[k].ftype == BM25 {
            assert s == Bm25Function.NewBM25Function(schema, schema.functions[k]).0;
          }
        }
      }
    }
    forall k | 0 <= k < |schema.functions| && schema.functions[k].outputFieldNames[0] == fieldName
               && (forall j | 0 <= j < k :: schema.functions[j].outputFieldNames[0] != fieldName)
      ensures FirstOutputMatch(schema.functions, fieldName) == k
    {
      FirstOutputMatchAt(schema.functions, fieldName, k);
    }
  }

  /** Scans the functions for the first one that writes the field, then builds it. */
  method CreateFor(schema: CollectionSchema, fieldName: string) returns (s: Status, ex: Option<Executor>)
    requires forall i | 0 <= i < |schema.functions| :: |schema.functions[i].outputFieldNames| > 0
    ensures (s, ex) == CreateForSpec(schema, fieldName)
    ensures ex.Some? ==> Built(ex.value)
  {
    var i := 0;
    while i < |schema.functions|
      invariant i <= |schema.functions|
      invariant forall j | 0 <= j < i :: schema.functions[j].outputFieldNames[0] != fieldName
    {
      if schema.functions[i].outputFieldNames[0] == fieldName {
        FirstOutputMatchAt(schema.functions, fieldName, i);
        var (t, f) := CreateFunction(schema, schema.functions[i]);
        if !t.IsOk() {
          return t, None;
        }
        return Ok(), Some(Executor([f.value]));
      }
      i := i + 1;
    }
    FirstOutputMatchAt(schema.functions, fieldName, i);
    return ParameterInvalid("No function's output is " + fieldName), None;
  }

  /** The outcome of one CreateFunction: a status and, exactly on success, the function. */
  type Created = (Status, Option<Bm25Function.Bm25>)

  predicate WellFormed(c: Created)
  {
    c.0.IsOk() <==> c.1.Some?
  }

  /** The outcomes of creating each function, in schema order. */
  function Outcomes(schema: CollectionSchema, fs: seq<FunctionSchema>): (cs: seq<Created>)
    ensures |cs| == |fs|
    ensures forall i | 0 <= i < |cs| :: WellFormed(cs[i]) && (cs[i].1.Some? ==> |cs[i].1.value.meta.outputFields| == 1)
  {
    seq(|fs|, i requires 0 <= i < |fs| => CreateFunction(schema, fs[i]))
  }

  /** The functions collected in order, up to and including the first failure. */
  function Collect(cs: seq<Created>): (r: (Status, seq<Bm25Function.Bm25>))
    requires forall i | 0 <= i < |cs| :: WellFormed(cs[i])
    ensures !r.0.IsOk() ==> r.1 == []
  {
    if |cs| == 0 then (Ok(), [])
    else
      var prev := Collect(cs[..|cs| - 1]);
      var c := cs[|cs| - 1];
      assert WellFormed(c);
      if !prev.0.IsOk() then prev
      else if !c.0.IsOk() then (c.0, [])
      else (Ok(), prev.1 + [c.1.value])
  }

  /** Create(schema): every function built, or the first failure. */
  function CreateAllSpec(schema: CollectionSchema): (Status, Option<Executor>)
  {
    var r := Collect(Outcomes(schema, schema.functions));
    if !r.0.IsOk() then (r.0, None) else (Ok(), Some(Executor(r.1)))
  }

  /** Collecting succeeds iff every outcome does, and then keeps every function in order. */
  lemma {:induction false} CollectOk(cs: seq<Created>)
    requires forall i | 0 <= i < |cs| :: WellFormed(cs[i])
    ensures Collect(cs).0.IsOk() <==> forall i | 0 <= i < |cs| :: cs[i].0.IsOk()
    ensures Collect(cs).0.IsOk() ==>
              |Collect(cs).1| == |cs| && forall i | 0 <= i < |cs| :: Collect(cs).1[i] == cs[i].1.value
  {
    OkCode();
    if |cs| > 0 {
      var init := cs[..|cs| - 1];
      CollectOk(init);
      assert forall i | 0 <= i < |init| :: init[i] == cs[i];
    }
  }

  /** A failed collection reports the first failing outcome. */
  lemma {:induction false} CollectFirstFailure(cs: seq<Created>)
    requires forall i | 0 <= i < |cs| :: WellFormed(cs[i])
    requires !Collect(cs).0.IsOk()
    ensures exists j | 0 <= j < |cs| :: Collect(cs).0 == cs[j].0 && forall i | 0 <= i < j :: cs[i].0.IsOk()
  {
    OkCode();
    var init := cs[..|cs| - 1];
    assert forall i | 0 <= i < |init| :: init[i] == cs[i];
    if !Collect(init).0.IsOk() {
      CollectFirstFailure(init);
      var j :| 0 <= j < |init| && Collect(init).0 == init[j].0 && forall i | 0 <= i < j :: init[i].0.IsOk();
      assert Collect(cs).0 == cs[j].0;
    } else {
      CollectOk(init);
      assert Collect(cs).0 == cs[|cs| - 1].0;
    }
  }

  /** A failure among the first `k` outcomes is the final result. */
  lemma {:induction false} CollectFailedStays(cs: seq<Created>, k: nat)
    requires forall i | 0 <= i < |cs| :: WellFormed(cs[i])
    requires k <= |cs|
    requires !Collect(cs[..k]).0.IsOk()
    ensures Collect(cs) == Collect(cs[..k])
    decreases |cs| - k
  {
    if k < |cs| {
      assert cs[..k + 1][..k] == cs[..k];
      CollectFailedStays(cs, k + 1);
    } else {
      assert cs[..k] == cs;
    }
  }

  /**
   * Create(schema) succeeds iff every function of the schema can be created,
   * and the executor then holds them all in schema order.
   */
  lemma CreateAllBuildsEvery(schema: CollectionSchema)
    ensures CreateAllSpec(schema).0.IsOk() <==>
              forall i | 0 <= i < |schema.functions| :: CreateFunction(schema, schema.functions[i]).0.IsOk()
    ensures CreateAllSpec(schema).0.IsOk() <==> CreateAllSpec(schema).1.Some?
    ensures CreateAllSpec(schema).1.Some? ==>
              var fns := CreateAllSpec(schema).1.value.functions;
              |fns| == |schema.functions|
              && forall i | 0 <= i < |fns| :: Some(fns[i]) == CreateFunction(schema, schema.functions[i]).1
  {
    var cs := Outcomes(schema, schema.functions);
    CollectOk(cs);
    var r := Collect(cs);
    assert CreateAllSpec(schema) == if !r.0.IsOk() then (r.0, None) else (Ok(), Some(Executor(r.1)));
    OkCode();
    assert forall i | 0 <= i < |cs| :: cs[i] == CreateFunction(schema, schema.functions[i]);
  }

  /** A failed Create(schema) returns the failure of the first function that cannot be created. */
  lemma CreateAllFirstFailure(schema: CollectionSchema)
    requires !CreateAllSpec(schema).0.IsOk()
    ensures exists j | 0 <= j < |schema.functions| ::
              CreateAllSpec(schema).0 == CreateFunction(schema, schema.functions[j]).0
              && forall i | 0 <= i < j :: CreateFunction(schema, schema.functions[i]).0.IsOk()
  {
    var cs := Outcomes(schema, schema.functions);
    var r := Collect(cs);
    assert CreateAllSpec(schema) == if !r.0.IsOk() then (r.0, None) else (Ok(), Some(Executor(r.1)));
    OkCode();
    CollectFirstFailure(cs);
    var j :| 0 <= j < |cs| && r.0 == cs[j].0 && forall i | 0 <= i < j :: cs[i].0.IsOk();
    assert forall i | 0 <= i < |cs| :: cs[i] == CreateFunction(schema, schema.functions[i]);
  }

  /** One more outcome: collected when it succeeds, reported when it fails. */
  lemma CollectStep(cs: seq<Created>, i: nat, functions: seq<Bm25Function.Bm25>)
    requires forall j | 0 <= j < |cs| :: WellFormed(cs[j])
    requires i < |cs| && Collect(cs[..i]) == (Ok(), functions)
    ensures !cs[i].0.IsOk() ==> Collect(cs[..i + 1]) == (cs[i].0, [])
    ensures cs[i].0.IsOk() ==> Collect(cs[..i + 1]) == (Ok(), functions + [cs[i].1.value])
  {
    OkCode();
    assert cs[..i + 1][..i] == cs[..i];
  }

  /** Builds the functions in order, stopping at the first that cannot be created. */
  method CreateAll(schema: CollectionSchema) returns (s: Status, ex: Option<Executor>)
    ensures (s, ex) == CreateAllSpec(schema)
    ensures ex.Some? ==> Built(ex.value)
  {
    ghost var cs := Outcomes(schema, schema.functions);
    var functions: seq<Bm25Function.Bm25> := [];
    s := Ok();
    var i := 0;
    while i < |schema.functions| && s.IsOk()
      invariant i <= |schema.functions|
      invariant Collect(cs[..i]) == (s, functions) && (s.IsOk() ==> s == Ok())
      invariant forall j | 0 <= j < |functions| :: |functions[j].meta.outputFields| == 1
    {
      s, functions := CreateNext(schema, cs, i, functions);
      i := i + 1;
    }
    if !s.IsOk() {
      CollectFailedStays(cs, i);
      return s, None;
    }
    assert cs[..i] == cs;
    return Ok(), Some(Executor(functions));
  }

  /** One iteration of CreateAll: builds function i and appends it, or reports its failure. */
  method CreateNext(schema: CollectionSchema, ghost cs: seq<Created>, i: nat, functionsIn: seq<Bm25Function.Bm25>)
    returns (s: Status, functions: seq<Bm25Function.Bm25>)
    requires cs == Outcomes(schema, schema.functions) && i < |schema.functions|
    requires Collect(cs[..i]) == (Ok(), functionsIn)
    requires forall j | 0 <= j < |functionsIn| :: |functionsIn[j].meta.outputFields| == 1
    ensures Collect(cs[..i + 1]) == (s, functions) && (s.IsOk() ==> s == Ok())
    ensures forall j | 0 <= j < |functions| :: |functions[j].meta.outputFields| == 1
  {
    var (t, f) := CreateFunction(schema, schema.functions[i]);
    assert cs[i] == (t, f);
    CollectStep(cs, i, functionsIn);
    if !t.IsOk() {
      return t, [];
    }
    return Ok(), functionsIn + [f.value];
  }

  /** The names of the meta's input fields. */
  function InputNames(meta: Meta): set<string>
  {
    set i | 0 <= i < |meta.inputFields| :: meta.inputFields[i].name
  }

  /** The request fields whose names are in `names`, in request order. */
  function Selected(fields: seq<FieldData>, names: set<string>): seq<FieldData>
  {
    if |fields| == 0 then []
    else Selected(fields[..|fields| - 1], names)
         + (if fields[|fields| - 1].fieldName in names then [fields[|fields| - 1]] else [])
  }

  /** Selection keeps request order: selecting from a concatenation concatenates the selections. */
  lemma {:induction false} SelectedAppend(a: seq<FieldData>, b: seq<FieldData>, names: set<string>)
    ensures Selected(a + b, names) == Selected(a, names) + Selected(b, names)
    decreases |b|
  {
    if |b| > 0 {
      assert (a + b)[..|a + b| - 1] == a + b[..|b| - 1];
      SelectedAppend(a, b[..|b| - 1], names);
    } else {
      assert a + b == a;
    }
  }

  /** Exactly the fields whose name is wanted are selected. */
  lemma {:induction false} SelectedMembers(fields: seq<FieldData>, names: set<string>)
    ensures forall x :: x in Selected(fields, names) <==> x in fields && x.fieldName in names
  {
    if |fields| > 0 {
      var init := fields[..|fields| - 1];
      SelectedMembers(init, names);
      assert fields == init + [fields[|fields| - 1]];
    }
  }

  /** ProcessSingeFunction: run one function on the selected inputs and append its outputs. */
  function SingleSpec(fn: Bm25Function.Bm25, fields: seq<FieldData>, embed: (string, string) -> seq<SparseEntry>): (Status, seq<FieldData>)
    requires |fn.meta.outputFields| > 0
  {
    var (t, outs) := Bm25Function.InsertSpec(fn, Selected(fields, InputNames(fn.meta)), embed);
    if !t.IsOk() then (t, fields) else (Ok(), fields + outs)
  }

  /** ProcessInsert: the functions run in order, each seeing the fields appended before it. */
  function RunUpTo(fns: seq<Bm25Function.Bm25>, fields: seq<FieldData>, embed: (string, string) -> seq<SparseEntry>): (Status, seq<FieldData>)
    requires forall i | 0 <= i < |fns| :: |fns[i].meta.outputFields| > 0
  {
    if |fns| == 0 then (Ok(), fields)
    else
      var (s, cur) := RunUpTo(fns[..|fns| - 1], fields, embed);
      if !s.IsOk() then (s, cur) else SingleSpec(fns[|fns| - 1], cur, embed)
  }

  /**
   * One function keeps the request's fields and, on success, appends one
   * SparseFloatVector column named after its output field.
   */
  lemma SingleAppendsOne(fn: Bm25Function.Bm25, fields: seq<FieldData>, embed: (string, string) -> seq<SparseEntry>)
    requires |fn.meta.outputFields| > 0
    ensures !SingleSpec(fn, fields, embed).0.IsOk() ==> SingleSpec(fn, fields, embed).1 == fields
    ensures SingleSpec(fn, fields, embed).0.IsOk() ==>
              var out := SingleSpec(fn, fields, embed).1;
              |out| == |fields| + 1 && out[..|fields|] == fields
              && out[|fields|].fieldName == fn.meta.outputFields[0].name
              && out[|fields|].dtype == SparseFloatVector
  {
    Bm25Function.InsertOutputShape(fn, Selected(fields, InputNames(fn.meta)), embed);
  }

  /**
   * Running the functions keeps the request's original fields in front; on
   * success it appends one column per function, in function order, each
   * named after that function's output field.
   */
  lemma {:induction false} RunAppendsOnePerFunction(fns: seq<Bm25Function.Bm25>, fields: seq<FieldData>,
                                                    embed: (string, string) -> seq<SparseEntry>)
    requires forall i | 0 <= i < |fns| :: |fns[i].meta.outputFields| > 0
    ensures var (s, out) := RunUpTo(fns, fields, embed);
      |fields| <= |out| <= |fields| + |fns| && out[..|fields|] == fields
      && (s.IsOk() ==>
            |out| == |fields| + |fns|
            && forall j | 0 <= j < |fns| ::
                 out[|fields| + j].fieldName == fns[j].meta.outputFields[0].name
                 && out[|fields| + j].dtype == SparseFloatVector)
  {
    if |fns| > 0 {
      var init := fns[..|fns| - 1];
      RunAppendsOnePerFunction(init, fields, embed);
      var (s, cur) := RunUpTo(init, fields, embed);
      if s.IsOk() {
        SingleAppendsOne(fns[|fns| - 1], cur, embed);
        var out := RunUpTo(fns, fields, embed).1;
        if RunUpTo(fns, fields, embed).0.IsOk() {
          assert out[..|cur|] == cur;
          forall j | 0 <= j < |fns|
            ensures out[|fields| + j].fieldName == fns[j].meta.outputFields[0].name
                    && out[|fields| + j].dtype == SparseFloatVector
          {
            if j < |init| {
              assert out[|fields| + j] == cur[|fields| + j];
              assert init[j] == fns[j];
            }
          }
        }
        assert out[..|fields|] == cur[..|fields|] by {
          assert |cur| <= |out|;
          assert out[..|cur|] == cur || out == cur;
        }
      }
    } else {
      assert fields[..|fields|] == fields;
    }
  }

  /** Collects the request fields the function reads, runs it, and appends its outputs. */
  method ProcessSingeFunction(fn: Bm25Function.Bm25, fields: seq<FieldData>, embed: (string, string) -> seq<SparseEntry>)
    returns (s: Status, out: seq<FieldData>)
    requires |fn.meta.outputFields| > 0
    ensures (s, out) == SingleSpec(fn, fields, embed)
  {
    var fieldNames := GetInputFieldNames(fn.meta);
    assert fieldNames == InputNames(fn.meta);
    var inputs: seq<FieldData> := [];
    var i := 0;
    while i < |fields|
      invariant i <= |fields|
      invariant inputs == Selected(fields[..i], fieldNames)
    {
      assert fields[..i + 1][..i] == fields[..i];
      if fields[i].fieldName in fieldNames {
        inputs := inputs + [fields[i]];
      }
      i := i + 1;
    }
    assert fields[..i] == fields;
    var t, outputs := Bm25Function.ProcessInsert(fn, inputs, embed);
    if !t.IsOk() {
      return t, fields;
    }
    out := fields;
    var j := 0;
    while j < |outputs|
      invariant j <= |outputs|
      invariant out == fields + outputs[..j]
    {
      assert outputs[..j + 1] == outputs[..j] + [outputs[j]];
      out := out + [outputs[j]];
      j := j + 1;
    }
    assert outputs[..j] == outputs;
    return Ok(), out;
  }

  /** Runs every function over the request in order, stopping at the first failure. */
  method ProcessInsert(ex: Executor, fields: seq<FieldData>, embed: (string, string) -> seq<SparseEntry>)
    returns (s: Status, out: seq<FieldData>)
    requires Built(ex)
    ensures (s, out) == RunUpTo(ex.functions, fields, embed)
  {
    out := fields;
    var i := 0;
    while i < |ex.functions|
      invariant i <= |ex.functions|
      invariant RunUpTo(ex.functions[..i], fields, embed) == (Ok(), out)
    {
      assert ex.functions[..i + 1][..i] == ex.functions[..i];
      var t, next := ProcessSingeFunction(ex.functions[i], out, embed);
      if !t.IsOk() {
        RunFailedStays(ex.functions, fields, embed, i + 1);
        return t, next;
      }
      out := next;
      i := i + 1;
    }
    assert ex.functions[..i] == ex.functions;
    return Ok(), out;
  }

  /** A failure among the first `k` functions is the final result. */
  lemma {:induction false} RunFailedStays(fns: seq<Bm25Function.Bm25>, fields: seq<FieldData>,
                                          embed: (string, string) -> seq<SparseEntry>, k: nat)
    requires forall i | 0 <= i < |fns| :: |fns[i].meta.outputFields| > 0
    requires k <= |fns|
    requires !RunUpTo(fns[..k], fields, embed).0.IsOk()
    ensures RunUpTo(fns, fields, embed) == RunUpTo(fns[..k], fields, embed)
    decreases |fns| - k
  {
    if k < |fns| {
      assert fns[..k + 1][..k] == fns[..k];
      RunFailedStays(fns, fields, embed, k + 1);
    } else {
      assert fns[..k] == fns;
    }
  }

  /**
   * Replaces a search request's placeholder group by the first function's
   * output: the group must parse and hold exactly one placeholder. The
   * result is the new group, or None when the request keeps its own.
   */
  method ProcessSearch(ex: Executor, parsed: Option<PlaceholderGroup>, embed: (string, string) -> seq<SparseEntry>)
    returns (s: Status, replaced: Option<PlaceholderGroup>)
    requires |ex.functions| > 0
    ensures s.IsOk() <==> parsed.Some? && |parsed.value.placeholders| == 1
                          && parsed.value.placeholders[0].ptype == PhVarChar
    ensures parsed.None? ==> s == ParameterInvalid("Parse placehoder string failed")
    ensures parsed.Some? && |parsed.value.placeholders| != 1 ==> s == ParameterInvalid("placeholders size is not equal 1")
    ensures replaced.Some? <==> s.IsOk()
    ensures replaced.Some? ==> replaced.value == Bm25Function.SearchSpec(ex.functions[0], parsed.value, embed).1
  {
    if parsed.None? {
      FactoryCodes("");
      return ParameterInvalid("Parse placehoder string failed"), None;
    }
    if |parsed.value.placeholders| != 1 {
      FactoryCodes("");
      return ParameterInvalid("placeholders size is not equal 1"), None;
    }
    var t, output := Bm25Function.ProcessSearch(ex.functions[0], parsed.value, embed);
    Bm25Function.SearchOutputShape(ex.functions[0], parsed.value, embed);
    if !t.IsOk() {
      return t, None;
    }
    return Ok(), Some(output);
  }
}
