// schema_util's FillInFieldInfo: the result columns named by the output
// fields take the header (name, id, type, dynamic flag) of their schema field.
module FieldInfo {
  import opened Schema

  /** One write of the innermost loop: a column with field `f`'s id takes f's header when f is named `name`. */
  function Step(name: string, f: FieldSchema, fd: FieldData): (r: FieldData)
    ensures r.fieldId == fd.fieldId && r.cells == fd.cells && r.dim == fd.dim
    ensures r.sparseDim == fd.sparseDim && r.elementType == fd.elementType
  {
    if name == f.name && f.fieldId == fd.fieldId then
      fd.(fieldName := f.name, fieldId := f.fieldId, dtype := f.dataType, isDynamic := f.isDynamic)
    else fd
  }

  /** A column after the middle loop ran over `fields` for one output name. */
  function ByFields(name: string, fields: seq<FieldSchema>, fd: FieldData): (r: FieldData)
    ensures r.fieldId == fd.fieldId && r.cells == fd.cells && r.dim == fd.dim
    ensures r.sparseDim == fd.sparseDim && r.elementType == fd.elementType
    decreases |fields|
  {
    if |fields| == 0 then fd
    else Step(name, fields[|fields| - 1], ByFields(name, fields[..|fields| - 1], fd))
  }

  /** A column after the outer loop ran over `outputs`. */
  function Relabel(outputs: seq<string>, fields: seq<FieldSchema>, fd: FieldData): (r: FieldData)
    ensures r.fieldId == fd.fieldId && r.cells == fd.cells && r.dim == fd.dim
    ensures r.sparseDim == fd.sparseDim && r.elementType == fd.elementType
    decreases |outputs|
  {
    if |outputs| == 0 then fd
    else ByFields(outputs[|outputs| - 1], fields, Relabel(outputs[..|outputs| - 1], fields, fd))
  }

  /** The header a column takes from schema field f once f is written into it. */
  predicate HasHeaderOf(fd: FieldData, f: FieldSchema)
  {
    fd.fieldName == f.name && fd.fieldId == f.fieldId && fd.dtype == f.dataType && fd.isDynamic == f.isDynamic
  }

  /** When f is the only schema field with its id, a pass over the fields writes f's header or leaves the column. */
  lemma {:induction false} ByFieldsUnique(name: string, fields: seq<FieldSchema>, f: FieldSchema, fd: FieldData)
    requires fd.fieldId == f.fieldId
    requires forall g | g in fields && g.fieldId == f.fieldId :: g == f
    ensures f in fields && name == f.name ==> HasHeaderOf(ByFields(name, fields, fd), f)
    ensures !(f in fields && name == f.name) ==> ByFields(name, fields, fd) == fd
    decreases |fields|
  {
    if |fields| > 0 {
      var pre := fields[..|fields| - 1];
      var last := fields[|fields| - 1];
      assert forall g :: g in fields <==> g in pre || g == last;
      ByFieldsUnique(name, pre, f, fd);
    }
  }

  /** A header already written survives later passes, which can only write the same header again. */
  lemma {:induction false} ByFieldsKeepsHeader(name: string, fields: seq<FieldSchema>, f: FieldSchema, fd: FieldData)
    requires HasHeaderOf(fd, f)
    requires forall g | g in fields && g.fieldId == f.fieldId :: g == f
    ensures HasHeaderOf(ByFields(name, fields, fd), f)
    decreases |fields|
  {
    if |fields| > 0 {
      ByFieldsKeepsHeader(name, fields[..|fields| - 1], f, fd);
    }
  }

  /**
   * With a schema whose field ids are unique, a column whose id is that of
   * field f takes f's header exactly when some output names f, and keeps its
   * own header otherwise.
   */
  lemma {:induction false} RelabelByUniqueId(outputs: seq<string>, fields: seq<FieldSchema>, f: FieldSchema, fd: FieldData)
    requires f in fields && fd.fieldId == f.fieldId
    requires forall g | g in fields && g.fieldId == f.fieldId :: g == f
    ensures f.name in outputs ==> HasHeaderOf(Relabel(outputs, fields, fd), f)
    ensures f.name !in outputs ==> Relabel(outputs, fields, fd) == fd
    decreases |outputs|
  {
    if |outputs| > 0 {
      var pre := outputs[..|outputs| - 1];
      var name := outputs[|outputs| - 1];
      assert forall y :: y in outputs <==> y in pre || y == name;
      RelabelByUniqueId(pre, fields, f, fd);
      var mid := Relabel(pre, fields, fd);
      if f.name in pre {
        ByFieldsKeepsHeader(name, fields, f, mid);
      } else {
        ByFieldsUnique(name, fields, f, mid);
      }
    }
  }

  /** A column whose id no schema field carries is never touched. */
  lemma {:induction false} RelabelUnknownId(outputs: seq<string>, fields: seq<FieldSchema>, fd: FieldData)
    requires forall g | g in fields :: g.fieldId != fd.fieldId
    ensures Relabel(outputs, fields, fd) == fd
    decreases |outputs|
  {
    if |outputs| > 0 {
      RelabelUnknownId(outputs[..|outputs| - 1], fields, fd);
      ByFieldsUntouched(outputs[|outputs| - 1], fields, fd);
    }
  }

  lemma {:induction false} ByFieldsUntouched(name: string, fields: seq<FieldSchema>, fd: FieldData)
    requires forall g | g in fields :: g.fieldId != fd.fieldId
    ensures ByFields(name, fields, fd) == fd
    decreases |fields|
  {
    if |fields| > 0 {
      ByFieldsUntouched(name, fields[..|fields| - 1], fd);
    }
  }

  /**
   * FillInFieldInfo: for each output name, each schema field of that name and
   * each result column with the field's id, the column takes the field's
   * header; with no output names or no columns nothing happens.
   */
  method FillInFieldInfo(outputs: seq<string>, schema: CollectionSchema, fds: seq<FieldData>) returns (r: seq<FieldData>)
    ensures |r| == |fds|
    ensures forall j | 0 <= j < |fds| :: r[j] == Relabel(outputs, schema.fields, fds[j])
  {
    r := fds;
    if |outputs| == 0 || |fds| == 0 {
      return;
    }
    var fields := schema.fields;
    var i := 0;
    while i < |outputs|
      invariant 0 <= i <= |outputs| && |r| == |fds|
      invariant forall j | 0 <= j < |fds| :: r[j] == Relabel(outputs[..i], fields, fds[j])
    {
      var name := outputs[i];
      var k := 0;
      while k < |fields|
        invariant 0 <= k <= |fields| && |r| == |fds|
        invariant forall j | 0 <= j < |fds| :: r[j] == ByFields(name, fields[..k], Relabel(outputs[..i], fields, fds[j]))
      {
        var f := fields[k];
        ghost var before := r;
        var j := 0;
        while j < |r|
          invariant 0 <= j <= |r| && |r| == |fds|
          invariant forall j' | 0 <= j' < j :: r[j'] == Step(name, f, before[j'])
          invariant forall j' | j <= j' < |r| :: r[j'] == before[j']
        {
          if name == f.name && f.fieldId == r[j].fieldId {
            r := r[j := r[j].(fieldName := f.name, fieldId := f.fieldId, dtype := f.dataType, isDynamic := f.isDynamic)];
          }
          j := j + 1;
        }
        assert fields[..k + 1][..k] == fields[..k];
        k := k + 1;
      }
      assert fields[..k] == fields;
      assert outputs[..i + 1][..i] == outputs[..i];
      i := i + 1;
    }
    assert outputs[..i] == outputs;
  }
}
