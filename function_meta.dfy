// FunctionMeta and the shared part of TransformFunctionBase
// (src/function/function.h): a collection function's schema resolved against
// the collection's fields.
module FunctionMeta {
  import opened Wrappers
  import opened Schema
  import opened MilvusStatus

  /** A resolved function: its schema, its input and output fields in name order, and its labels. */
  datatype Meta = Meta(
    funcSchema: FunctionSchema,
    inputFields: seq<FieldSchema>,
    outputFields: seq<FieldSchema>,
    collectionName: string,
    functionTypeName: string,
    functionName: string)

  /**
   * What `func_schema->GetTypeName()` yields: protobuf's name of the message
   * type, the same for every function whatever its FunctionType.
   */
  const FUNCTION_SCHEMA_TYPE_NAME: string := "milvus.proto.schema.FunctionSchema"

  /** name_field_map after the loop over the schema's fields: a later field of the same name wins. */
  function NameFieldMap(fields: seq<FieldSchema>): map<string, FieldSchema>
  {
    if |fields| == 0 then map[]
    else NameFieldMap(fields[..|fields| - 1])[fields[|fields| - 1].name := fields[|fields| - 1]]
  }

  /** A name is mapped iff some field carries it, and it maps to the last such field. */
  lemma NameFieldMapLast(fields: seq<FieldSchema>, name: string)
    ensures name in NameFieldMap(fields) <==> exists i | 0 <= i < |fields| :: fields[i].name == name
    ensures name in NameFieldMap(fields) ==>
              exists i | 0 <= i < |fields| :: fields[i] == NameFieldMap(fields)[name] && fields[i].name == name
                && forall j | i < j < |fields| :: fields[j].name != name
  {
    NameFieldMapKeys(fields, name);
    if name in NameFieldMap(fields) {
      var i := NameFieldMapAt(fields, name);
    }
  }

  lemma {:induction false} NameFieldMapKeys(fields: seq<FieldSchema>, name: string)
    ensures name in NameFieldMap(fields) <==> exists i | 0 <= i < |fields| :: fields[i].name == name
  {
    if |fields| > 0 {
      var n := |fields| - 1;
      var init := fields[..n];
      NameFieldMapKeys(init, name);
      if exists i | 0 <= i < |fields| :: fields[i].name == name {
        var i :| 0 <= i < |fields| && fields[i].name == name;
        if i < n {
          assert init[i] == fields[i];
        }
      }
      if name in NameFieldMap(init) {
        var i :| 0 <= i < |init| && init[i].name == name;
        assert fields[i] == init[i];
      }
    }
  }

  /** The position of the field a mapped name maps to: the last field of that name. */
  lemma {:induction false} NameFieldMapAt(fields: seq<FieldSchema>, name: string) returns (i: nat)
    requires name in NameFieldMap(fields)
    ensures i < |fields| && fields[i] == NameFieldMap(fields)[name] && fields[i].name == name
    ensures forall j | i < j < |fields| :: fields[j].name != name
  {
    var n := |fields| - 1;
    var init := fields[..n];
    if fields[n].name == name {
      return n;
    }
    i := NameFieldMapAt(init, name);
    assert fields[i] == init[i];
    forall j | i < j < |fields| ensures fields[j].name != name {
      if j < n {
        assert fields[j] == init[j];
      }
    }
  }

  /** The position of the first name the map does not know, or the length when all are known. */
  function FirstMissing(names: seq<string>, m: map<string, FieldSchema>): (k: nat)
    ensures k <= |names|
    ensures forall j | 0 <= j < k :: names[j] in m
    ensures k < |names| ==> names[k] !in m
  {
    if |names| == 0 then 0
    else if names[0] !in m then 0
    else 1 + FirstMissing(names[1..], m)
  }

  lemma {:induction false} FirstMissingAt(names: seq<string>, m: map<string, FieldSchema>, p: nat)
    requires p <= |names|
    requires forall j | 0 <= j < p :: names[j] in m
    requires p < |names| ==> names[p] !in m
    ensures FirstMissing(names, m) == p
  {
    if p > 0 {
      FirstMissingAt(names[1..], m, p - 1);
    }
  }

  /** The fields the names map to, in the names' order. */
  function Resolved(names: seq<string>, m: map<string, FieldSchema>): (fs: seq<FieldSchema>)
    requires forall j | 0 <= j < |names| :: names[j] in m
    ensures |fs| == |names|
  {
    seq(|names|, i requires 0 <= i < |names| => m[names[i]])
  }

  function OutputMissing(name: string): Status
  {
    ParameterInvalid("Can not find function output " + name + " in schema")
  }

  function InputMissing(name: string): Status
  {
    ParameterInvalid("Can not find function input " + name + " in schema")
  }

  /** FunctionMeta::Create: outputs resolved first, then inputs; the first unknown name fails. */
  function CreateSpec(schema: CollectionSchema, f: FunctionSchema): (r: (Status, Option<Meta>))
    ensures r.1.Some? ==> |r.1.value.inputFields| == |f.inputFieldNames| && |r.1.value.outputFields| == |f.outputFieldNames|
    ensures r.1.Some? ==> forall i | 0 <= i < |f.inputFieldNames| ::
              f.inputFieldNames[i] in NameFieldMap(schema.fields) && r.1.value.inputFields[i] == NameFieldMap(schema.fields)[f.inputFieldNames[i]]
    ensures r.1.Some? ==> forall i | 0 <= i < |f.outputFieldNames| ::
              f.outputFieldNames[i] in NameFieldMap(schema.fields) && r.1.value.outputFields[i] == NameFieldMap(schema.fields)[f.outputFieldNames[i]]
  {
    var m := NameFieldMap(schema.fields);
    var ko := FirstMissing(f.outputFieldNames, m);
    var ki := FirstMissing(f.inputFieldNames, m);
    if ko < |f.outputFieldNames| then (OutputMissing(f.outputFieldNames[ko]), None)
    else if ki < |f.inputFieldNames| then (InputMissing(f.inputFieldNames[ki]), None)
    else (Ok(), Some(Meta(f, Resolved(f.inputFieldNames, m), Resolved(f.outputFieldNames, m),
                           schema.name, FUNCTION_SCHEMA_TYPE_NAME, f.name)))
  }

  /**
   * Create succeeds exactly when every output and input name is a field of
   * the schema, and then records the collection, type and function names.
   */
  lemma CreateOkIffAllKnown(schema: CollectionSchema, f: FunctionSchema)
    ensures CreateSpec(schema, f).0.IsOk() <==>
              (forall j | 0 <= j < |f.outputFieldNames| :: exists i | 0 <= i < |schema.fields| :: schema.fields[i].name == f.outputFieldNames[j])
              && (forall j | 0 <= j < |f.inputFieldNames| :: exists i | 0 <= i < |schema.fields| :: schema.fields[i].name == f.inputFieldNames[j])
    ensures CreateSpec(schema, f).0.IsOk() <==> CreateSpec(schema, f).1.Some?
    ensures CreateSpec(schema, f).1.Some? ==>
              var meta := CreateSpec(schema, f).1.value;
              meta.collectionName == schema.name && meta.functionTypeName == FUNCTION_SCHEMA_TYPE_NAME
              && meta.functionName == f.name && meta.funcSchema == f
  {
    var m := NameFieldMap(schema.fields);
    forall n ensures n in m <==> exists i | 0 <= i < |schema.fields| :: schema.fields[i].name == n {
      NameFieldMapLast(schema.fields, n);
    }
    var ko := FirstMissing(f.outputFieldNames, m);
    var ki := FirstMissing(f.inputFieldNames, m);
    if ko < |f.outputFieldNames| {
      assert OutputMissing(f.outputFieldNames[ko]).IsErr();
    } else if ki < |f.inputFieldNames| {
      assert InputMissing(f.inputFieldNames[ki]).IsErr();
    }
  }

  /** An unknown output name is reported even when an input name is unknown too. */
  lemma OutputsCheckedFirst(schema: CollectionSchema, f: FunctionSchema, j: nat)
    requires j < |f.outputFieldNames|
    requires forall i | 0 <= i < |schema.fields| :: schema.fields[i].name != f.outputFieldNames[j]
    requires forall k | 0 <= k < j :: exists i | 0 <= i < |schema.fields| :: schema.fields[i].name == f.outputFieldNames[k]
    ensures CreateSpec(schema, f).0 == OutputMissing(f.outputFieldNames[j])
  {
    var m := NameFieldMap(schema.fields);
    forall n ensures n in m <==> exists i | 0 <= i < |schema.fields| :: schema.fields[i].name == n {
      NameFieldMapLast(schema.fields, n);
    }
    FirstMissingAt(f.outputFieldNames, m, j);
  }

  /** The resolved fields carry the names listed in the function schema, position by position. */
  lemma ResolvedFieldsNamed(schema: CollectionSchema, f: FunctionSchema)
    requires CreateSpec(schema, f).1.Some?
    ensures var meta := CreateSpec(schema, f).1.value;
      |meta.outputFields| == |f.outputFieldNames| && |meta.inputFields| == |f.inputFieldNames|
      && (forall i | 0 <= i < |f.outputFieldNames| :: OutputFieldSchema(meta, i).name == f.outputFieldNames[i])
      && (forall i | 0 <= i < |f.inputFieldNames| :: InputFieldSchema(meta, i).name == f.inputFieldNames[i])
  {
    var m := NameFieldMap(schema.fields);
    forall n | n in m ensures m[n].name == n {
      NameFieldMapLast(schema.fields, n);
    }
  }

  /** Looks every name up in the map, stopping at the first unknown one. */
  method ResolveNames(names: seq<string>, m: map<string, FieldSchema>) returns (k: nat, fs: seq<FieldSchema>)
    ensures k == FirstMissing(names, m)
    ensures k == |names| ==> fs == Resolved(names, m)
  {
    fs := [];
    k := 0;
    while k < |names|
      invariant k <= |names| && |fs| == k
      invariant forall j | 0 <= j < k :: names[j] in m && fs[j] == m[names[j]]
    {
      if names[k] !in m {
        FirstMissingAt(names, m, k);
        return k, fs;
      }
      fs := fs + [m[names[k]]];
      k := k + 1;
    }
    FirstMissingAt(names, m, k);
  }

  /** Builds name_field_map, then resolves the output names and the input names. */
  method Create(schema: CollectionSchema, f: FunctionSchema) returns (s: Status, meta: Option<Meta>)
    ensures (s, meta) == CreateSpec(schema, f)
  {
    var m: map<string, FieldSchema> := map[];
    var i := 0;
    while i < |schema.fields|
      invariant i <= |schema.fields|
      invariant m == NameFieldMap(schema.fields[..i])
    {
      assert schema.fields[..i + 1][..i] == schema.fields[..i];
      m := m[schema.fields[i].name := schema.fields[i]];
      i := i + 1;
    }
    assert schema.fields[..i] == schema.fields;
    var ko, outputs := ResolveNames(f.outputFieldNames, m);
    if ko < |f.outputFieldNames| {
      return OutputMissing(f.outputFieldNames[ko]), None;
    }
    var ki, inputs := ResolveNames(f.inputFieldNames, m);
    if ki < |f.inputFieldNames| {
      return InputMissing(f.inputFieldNames[ki]), None;
    }
    return Ok(), Some(Meta(f, inputs, outputs, schema.name, FUNCTION_SCHEMA_TYPE_NAME, f.name));
  }

  /** GetFunctionOutputFieldSchema. */
  function OutputFieldSchema(meta: Meta, i: nat): FieldSchema
    requires i < |meta.outputFields|
  {
    meta.outputFields[i]
  }

  /** GetFunctioninputFieldSchema. */
  function InputFieldSchema(meta: Meta, i: nat): FieldSchema
    requires i < |meta.inputFields|
  {
    meta.inputFields[i]
  }

  /** GetInputFieldNames: the set of the input fields' names. */
  method GetInputFieldNames(meta: Meta) returns (names: set<string>)
    ensures forall n :: n in names <==> exists i | 0 <= i < |meta.inputFields| :: meta.inputFields[i].name == n
  {
    names := {};
    var i := 0;
    while i < |meta.inputFields|
      invariant i <= |meta.inputFields|
      invariant forall n :: n in names <==> exists j | 0 <= j < i :: meta.inputFields[j].name == n
    {
      names := names + {meta.inputFields[i].name};
      i := i + 1;
    }
  }
}
