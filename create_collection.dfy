// CreateCollectionTask: validation of a collection schema (field count,
// names, primary key, dynamic and nullable flags, VarChar lengths, default
// values, BM25 functions) and the fields the task adds before the schema is
// stored (the dynamic $meta field, user field ids, RowID and Timestamp).
module CreateCollection {
  import opened Wrappers
  import opened Schema
  import opened MilvusStatus
  import StringUtil
  import Decimal
  import SchemaUtil

  // ---------------------------------------------------------------------------
  // Field names

  /** A character the field-name pattern [a-zA-Z0-9_] admits after the first. */
  predicate IsWordChar(c: char)
  {
    StringUtil.IsAlpha(c) || ('0' <= c <= '9') || c == '_'
  }

  /** A name of at most 255 characters matching [a-zA-Z_][a-zA-Z0-9_]*. */
  predicate IsIdentifier(n: string)
  {
    0 < |n| <= 255 && (n[0] == '_' || StringUtil.IsAlpha(n[0]))
    && forall i | 0 <= i < |n| :: IsWordChar(n[i])
  }

  /**
   * CheckFieldName: the name is trimmed, then must be non-empty, at most 255
   * characters long, start with '_' or a letter and continue with letters,
   * digits and '_'.
   */
  function CheckFieldName(fieldName: string): (s: Status)
    ensures s.IsOk() <==> IsIdentifier(StringUtil.Trim(fieldName))
    ensures s.IsErr() ==> s.code == CodeValue(ErrParameterInvalid)
  {
    var name := StringUtil.Trim(fieldName);
    if |name| == 0 then ParameterInvalid("")
    else if |name| > 255 then ParameterInvalid("")
    else if name[0] != '_' && !StringUtil.IsAlpha(name[0]) then
      ParameterInvalid("")
    else if exists i | 0 <= i < |name| :: !IsWordChar(name[i]) then
      ParameterInvalid("")
    else Ok()
  }

  /** The check runs on the trimmed name, so surrounding white space is accepted. */
  lemma CheckFieldNameIgnoresPadding(n: string)
    requires IsIdentifier(n)
    ensures CheckFieldName(" " + n + "\t").IsOk()
  {
    var p := " " + n + "\t";
    assert StringUtil.FirstNotSpace(p) == 1 by {
      assert p[0] == ' ';
      assert p[1..] == n + "\t";
      assert !StringUtil.IsTrimSpace(p[1]) by { StringUtil.IsAlphaIffCased(n[0]); }
    }
    assert StringUtil.EndNotSpace(p) == |p| - 1 by {
      assert p[..|p| - 1] == " " + n;
      assert p[|p| - 2] == n[|n| - 1];
      assert IsWordChar(n[|n| - 1]);
    }
    assert StringUtil.Trim(p) == n by {
      assert p[1..|p| - 1] == n;
    }
  }

  /** $meta cannot be a user field name. */
  lemma MetaNameRejected()
    ensures CheckFieldName(META_FIELD_NAME).IsErr()
  {
    StringUtil.TrimFixpoint(META_FIELD_NAME);
    assert !IsWordChar(META_FIELD_NAME[0]);
  }

  /** RowID and Timestamp pass the name rule; only the system-field test keeps them out. */
  lemma SystemNamesPassNameRule()
    ensures CheckFieldName(ROW_ID_FIELD_NAME).IsOk()
    ensures CheckFieldName(TIMESTAMP_FIELD_NAME).IsOk()
  {
    StringUtil.TrimFixpoint(ROW_ID_FIELD_NAME);
    StringUtil.TrimFixpoint(TIMESTAMP_FIELD_NAME);
  }

  // ---------------------------------------------------------------------------
  // VarChar max_length

  /** A max_length value: std::stoll must succeed and the length lie in (0, 65535]. */
  function CheckMaxLength(v: string): (r: Outcome<int>)
    ensures r.Success? <==> Decimal.Stoll(v).Parsed? && 0 < Decimal.Stoll(v).value <= MAX_LENGTH_LIMIT
    ensures r.Success? ==> r.value == Decimal.Stoll(v).value
    ensures r.Failure? ==> r.status.code == CodeValue(ErrParameterInvalid)
  {
    match Decimal.Stoll(v)
    case Parsed(length) =>
      if length <= 0 || length > MAX_LENGTH_LIMIT then
        Failure(ParameterInvalid(""))
      else Success(length)
    case _ => Failure(ParameterInvalid(""))
  }

  /**
   * GetVarcharFieldMaxLength: only for a VarChar field or an array of VarChar;
   * the first max_length among the type params decides, and only when there
   * is none the first one among the index params; neither is an error.
   */
  function GetVarcharFieldMaxLength(field: FieldSchema): (r: Outcome<int>)
    ensures r.Success? ==> 0 < r.value <= MAX_LENGTH_LIMIT
    ensures r.Success? ==> field.dataType == VarChar || field.elementType == VarChar
    ensures r.Failure? ==> r.status.code == CodeValue(ErrParameterInvalid)
    ensures r.Success? ==> (SchemaUtil.HasKey(field.typeParams, MAX_LENGTH_KEY) || SchemaUtil.HasKey(field.indexParams, MAX_LENGTH_KEY))
  {
    if field.dataType != VarChar && field.elementType != VarChar then
      Failure(ParameterInvalid(""))
    else
      match SchemaUtil.FirstValue(field.typeParams, MAX_LENGTH_KEY)
      case Some(v) => CheckMaxLength(v)
      case None =>
        match SchemaUtil.FirstValue(field.indexParams, MAX_LENGTH_KEY)
        case Some(v) => CheckMaxLength(v)
        case None => Failure(ParameterInvalid(""))
  }

  /** A max_length among the type params shadows any among the index params, valid or not. */
  lemma TypeParamsDecideMaxLength(field: FieldSchema, v: string)
    requires field.dataType == VarChar
    requires SchemaUtil.IsFirstValue(field.typeParams, MAX_LENGTH_KEY, v)
    ensures GetVarcharFieldMaxLength(field) == CheckMaxLength(v)
  {
    var r := SchemaUtil.FirstValue(field.typeParams, MAX_LENGTH_KEY);
    assert r.Some? by {
      var i :| 0 <= i < |field.typeParams| && field.typeParams[i].key == MAX_LENGTH_KEY;
    }
    SchemaUtil.FirstValueUnique(field.typeParams, MAX_LENGTH_KEY, r.value, v);
  }

  // ---------------------------------------------------------------------------
  // Default values

  const INT8_MIN: int := -128
  const INT8_MAX: int := 127
  const INT16_MIN: int := -32768
  const INT16_MAX: int := 32767

  /** The number of bytes UTF-8 spends on one character. */
  function Utf8Width(c: char): nat
  {
    if c as int < 0x80 then 1
    else if c as int < 0x800 then 2
    else if c as int < 0x1_0000 then 3
    else 4
  }

  /** std::string::size() of the UTF-8 text of s: its byte count. */
  function Utf8Length(s: string): (n: nat)
    ensures |s| <= n <= 4 * |s|
    decreases |s|
  {
    if |s| == 0 then 0 else Utf8Length(s[..|s| - 1]) + Utf8Width(s[|s| - 1])
  }

  /** The byte count of a concatenation is the sum of the byte counts. */
  lemma {:induction false} Utf8LengthAppend(a: string, b: string)
    ensures Utf8Length(a + b) == Utf8Length(a) + Utf8Length(b)
    decreases |b|
  {
    if |b| == 0 {
      assert a + b == a;
    } else {
      assert (a + b)[..|a + b| - 1] == a + b[..|b| - 1];
      assert (a + b)[|a + b| - 1] == b[|b| - 1];
      Utf8LengthAppend(a, b[..|b| - 1]);
    }
  }

  /** An ASCII text has one byte per character; any other text has more bytes than characters. */
  lemma {:induction false} Utf8LengthAscii(s: string)
    ensures Utf8Length(s) == |s| <==> forall i | 0 <= i < |s| :: s[i] as int < 0x80
    decreases |s|
  {
    if |s| > 0 {
      Utf8LengthAscii(s[..|s| - 1]);
      assert forall i | 0 <= i < |s| - 1 :: s[..|s| - 1][i] == s[i];
    }
  }

  /**
   * The per-field rule of CheckDefaultValue: a field without a default passes;
   * a default with no value set is refused; each kind of default needs the
   * matching field type, an int default on an Int8 or Int16 field must fit
   * that width, a string default needs a valid max_length its UTF-8 byte
   * count does not exceed, and bytes defaults are refused.
   */
  predicate DefaultValueOk(f: FieldSchema)
  {
    match f.defaultValue
    case NoValue => true
    case UnsetValue => false
    case BoolData(_) => f.dataType == Bool
    case IntData(v) =>
      (f.dataType == Int8 || f.dataType == Int16 || f.dataType == Int32)
      && (f.dataType == Int16 ==> INT16_MIN <= v <= INT16_MAX)
      && (f.dataType == Int8 ==> INT8_MIN <= v <= INT8_MAX)
    case LongData(_) => f.dataType == Int64
    case FloatData(_) => f.dataType == Float
    case DoubleData(_) => f.dataType == Double
    case StringData(s) =>
      f.dataType == VarChar && GetVarcharFieldMaxLength(f).Success? && Utf8Length(s) <= GetVarcharFieldMaxLength(f).value
    case BytesData(_) => false
  }

  /** CheckDefaultValue: every field's default matches its field. */
  method CheckDefaultValue(schema: CollectionSchema) returns (ok: bool)
    ensures ok <==> forall i | 0 <= i < |schema.fields| :: DefaultValueOk(schema.fields[i])
  {
    var i := 0;
    while i < |schema.fields|
      invariant 0 <= i <= |schema.fields|
      invariant forall k | 0 <= k < i :: DefaultValueOk(schema.fields[k])
    {
      var f := schema.fields[i];
      match f.defaultValue {
        case NoValue =>
        case UnsetValue =>
          return false;
        case BoolData(_) =>
          if f.dataType != Bool { return false; }
        case IntData(v) =>
          if f.dataType != Int16 && f.dataType != Int32 && f.dataType != Int8 { return false; }
          if f.dataType == Int16 && (v < INT16_MIN || v > INT16_MAX) { return false; }
          if f.dataType == Int8 && (v < INT8_MIN || v > INT8_MAX) { return false; }
        case LongData(_) =>
          if f.dataType != Int64 { return false; }
        case FloatData(_) =>
          if f.dataType != Float { return false; }
        case DoubleData(_) =>
          if f.dataType != Double { return false; }
        case StringData(s) =>
          if f.dataType != VarChar { return false; }
          var maxLength := GetVarcharFieldMaxLength(f);
          if maxLength.Failure? { return false; }
          if Utf8Length(s) > maxLength.value { return false; }
        case BytesData(_) =>
          return false;
      }
      i := i + 1;
    }
    return true;
  }

  /** Three CJK characters are nine UTF-8 bytes. */
  lemma CjkBytes()
    ensures Utf8Length("\U{4e2d}\U{6587}\U{5b57}") == 9
  {
    var cjk := "\U{4e2d}\U{6587}\U{5b57}";
    assert cjk[..2][..1][..0] == [] && cjk[..2][..1] == [cjk[0]] && cjk[..2] == [cjk[0], cjk[1]];
    assert cjk[..|cjk| - 1] == cjk[..2] && cjk[..2][..|cjk[..2]| - 1] == cjk[..2][..1];
  }

  /**
   * A VarChar default is measured in UTF-8 bytes: with a max_length of 5,
   * three CJK characters (nine bytes) are refused while three ASCII letters
   * fit; a default_value with no value set is refused.
   */
  lemma StringDefaultBytes(f: FieldSchema)
    requires f.dataType == VarChar && GetVarcharFieldMaxLength(f) == Success(5)
    ensures f.defaultValue == StringData("\U{4e2d}\U{6587}\U{5b57}") ==> !DefaultValueOk(f)
    ensures f.defaultValue == StringData("abc") ==> DefaultValueOk(f)
    ensures f.defaultValue == UnsetValue ==> !DefaultValueOk(f)
  {
    CjkBytes();
    Utf8LengthAscii("abc");
  }

  /** An int default on an Int32 field is not range-checked, unlike Int8 and Int16. */
  lemma IntDefaultWidths(f: FieldSchema, v: int)
    requires f.defaultValue == IntData(v)
    ensures f.dataType == Int32 ==> DefaultValueOk(f)
    ensures f.dataType == Int16 ==> (DefaultValueOk(f) <==> -32768 <= v <= 32767)
    ensures f.dataType == Int8 ==> (DefaultValueOk(f) <==> -128 <= v <= 127)
    ensures f.dataType == Int64 ==> !DefaultValueOk(f)
  {
  }

  // ---------------------------------------------------------------------------
  // System fields

  predicate IsSystemName(n: string)
  {
    n == ROW_ID_FIELD_NAME || n == TIMESTAMP_FIELD_NAME || n == META_FIELD_NAME
  }

  /** HasSystemFields: some field is named RowID, Timestamp or $meta. */
  method HasSystemFields(schema: CollectionSchema) returns (r: bool)
    ensures r <==> exists i | 0 <= i < |schema.fields| :: IsSystemName(schema.fields[i].name)
  {
    var i := 0;
    while i < |schema.fields|
      invariant 0 <= i <= |schema.fields|
      invariant forall k | 0 <= k < i :: !IsSystemName(schema.fields[k].name)
    {
      if IsSystemName(schema.fields[i].name) {
        return true;
      }
      i := i + 1;
    }
    return false;
  }

  // ---------------------------------------------------------------------------
  // BM25 functions

  /** What VaildBM25Functions demands of one field that the function names as input. */
  predicate Bm25InputOk(f: FieldSchema)
  {
    !f.isDynamic && f.dataType == VarChar && !f.nullable
  }

  /** What VaildBM25Functions demands of one field that the function names as output. */
  predicate Bm25OutputOk(f: FieldSchema)
  {
    !f.isDynamic && f.dataType == SparseFloatVector && !f.nullable
  }

  /**
   * A BM25 function with exactly one input and one output name, both naming
   * existing fields, every field of the input name a non-dynamic, non-nullable
   * VarChar and every field of the output name a non-dynamic, non-nullable
   * sparse float vector.
   */
  predicate Bm25FunctionOk(fields: seq<FieldSchema>, fs: FunctionSchema)
  {
    fs.ftype == BM25 && |fs.inputFieldNames| == 1 && |fs.outputFieldNames| == 1
    && (exists i | 0 <= i < |fields| :: fields[i].name == fs.inputFieldNames[0])
    && (exists i | 0 <= i < |fields| :: fields[i].name == fs.outputFieldNames[0])
    && (forall i | 0 <= i < |fields| && fields[i].name == fs.inputFieldNames[0] :: Bm25InputOk(fields[i]))
    && (forall i | 0 <= i < |fields| && fields[i].name == fs.outputFieldNames[0] :: Bm25OutputOk(fields[i]))
  }

  /** The first rule an input field of a BM25 function breaks, in the order they are checked. */
  function InputError(f: FieldSchema): (r: Option<Status>)
    ensures r.None? <==> Bm25InputOk(f)
    ensures r.Some? ==> r.value.code == CodeValue(ErrParameterInvalid)
  {
    if f.isDynamic then Some(ParameterInvalid(""))
    else if f.dataType != VarChar then Some(ParameterInvalid(""))
    else if f.nullable then Some(ParameterInvalid(""))
    else None
  }

  /** The first rule an output field of a BM25 function breaks, in the order they are checked. */
  function OutputError(f: FieldSchema): (r: Option<Status>)
    ensures r.None? <==> Bm25OutputOk(f)
    ensures r.Some? ==> r.value.code == CodeValue(ErrParameterInvalid)
  {
    if f.isDynamic then Some(ParameterInvalid(""))
    else if f.dataType != SparseFloatVector then Some(ParameterInvalid(""))
    else if f.nullable then Some(ParameterInvalid(""))
    else None
  }

  /** VaildBM25Functions: one scan over the fields, stopping at the first field that breaks a rule. */
  method ValidBm25Function(schema: CollectionSchema, fs: FunctionSchema) returns (s: Status)
    ensures s.IsOk() <==> Bm25FunctionOk(schema.fields, fs)
    ensures s.IsErr() ==> s.code == CodeValue(ErrParameterInvalid)
  {
    if fs.ftype != BM25 {
      return ParameterInvalid("");
    }
    if |fs.inputFieldNames| != 1 || |fs.outputFieldNames| != 1 {
      return ParameterInvalid("");
    }
    var fields := schema.fields;
    var inName := fs.inputFieldNames[0];
    var outName := fs.outputFieldNames[0];
    var foundInput := false;
    var foundOutput := false;
    var i := 0;
    while i < |fields|
      invariant 0 <= i <= |fields|
      invariant foundInput <==> exists k | 0 <= k < i :: fields[k].name == inName
      invariant foundOutput <==> exists k | 0 <= k < i :: fields[k].name == outName
      invariant forall k | 0 <= k < i && fields[k].name == inName :: Bm25InputOk(fields[k])
      invariant forall k | 0 <= k < i && fields[k].name == outName :: Bm25OutputOk(fields[k])
    {
      var field := fields[i];
      if field.name == inName {
        foundInput := true;
        var e := InputError(field);
        if e.Some? {
          return e.value;
        }
      }
      if field.name == outName {
        foundOutput := true;
        var e := OutputError(field);
        if e.Some? {
          return e.value;
        }
      }
      i := i + 1;
    }
    if !foundInput {
      return ParameterInvalid("");
    }
    if !foundOutput {
      return ParameterInvalid("");
    }
    return Ok();
  }

  /** A BM25 function cannot read and write the same field: no field is both VarChar and sparse. */
  lemma Bm25InputDiffersFromOutput(fields: seq<FieldSchema>, fs: FunctionSchema)
    requires Bm25FunctionOk(fields, fs)
    ensures fs.inputFieldNames[0] != fs.outputFieldNames[0]
  {
    var i :| 0 <= i < |fields| && fields[i].name == fs.inputFieldNames[0];
    assert fields[i].dataType == VarChar;
  }

  // ---------------------------------------------------------------------------
  // ValidateSchema

  /** The checks ValidateSchema makes of each field on its own. */
  predicate FieldOk(f: FieldSchema)
  {
    !f.isDynamic && !f.nullable && CheckFieldName(f.name).IsOk()
    && (f.dataType == VarChar ==> GetVarcharFieldMaxLength(f).Success?)
  }

  predicate DistinctNames(fields: seq<FieldSchema>)
  {
    forall i, j | 0 <= i < j < |fields| :: fields[i].name != fields[j].name
  }

  predicate AtMostOnePrimaryKey(fields: seq<FieldSchema>)
  {
    forall i, j | 0 <= i < |fields| && 0 <= j < |fields| && fields[i].isPrimaryKey && fields[j].isPrimaryKey :: i == j
  }

  /** The schemas ValidateSchema is meant to accept. */
  predicate SchemaOk(schema: CollectionSchema)
  {
    |schema.fields| <= SCHEMA_FIELD_LIMIT
    && DistinctNames(schema.fields)
    && AtMostOnePrimaryKey(schema.fields)
    && (forall i | 0 <= i < |schema.fields| :: FieldOk(schema.fields[i]))
    && (forall i | 0 <= i < |schema.functions| :: Bm25FunctionOk(schema.fields, schema.functions[i]))
  }

  /** The schemas ValidateSchema accepts as written: the duplicate-name test never fires. */
  predicate SchemaOkAsWritten(schema: CollectionSchema)
  {
    |schema.fields| <= SCHEMA_FIELD_LIMIT
    && AtMostOnePrimaryKey(schema.fields)
    && (forall i | 0 <= i < |schema.fields| :: FieldOk(schema.fields[i]))
    && (forall i | 0 <= i < |schema.functions| :: Bm25FunctionOk(schema.fields, schema.functions[i]))
  }

  /** A valid field's name is never empty, so a non-empty pk_name exactly records an earlier primary key. */
  lemma FieldOkNameNonEmpty(f: FieldSchema)
    requires FieldOk(f)
    ensures f.name != ""
  {
  }

  /** The first per-field rule a field breaks, in the order ValidateSchema checks them. */
  function FieldError(f: FieldSchema): (r: Option<Status>)
    ensures r.None? <==> FieldOk(f)
    ensures r.Some? ==> r.value.code == CodeValue(ErrParameterInvalid)
  {
    if f.isDynamic then Some(ParameterInvalid(""))
    else if f.nullable then Some(ParameterInvalid(""))
    else if CheckFieldName(f.name).IsErr() then Some(CheckFieldName(f.name))
    else if f.dataType == VarChar && GetVarcharFieldMaxLength(f).Failure? then Some(GetVarcharFieldMaxLength(f).status)
    else None
  }

  /**
   * The loop of ValidateSchema over the fields from index i on, with the
   * names recorded so far (none as written), the primary key name seen so far
   * and the per-field check `fieldError`: the first error, or Ok.
   */
  function ScanFrom(fields: seq<FieldSchema>, i: nat, names: set<string>, pkName: string, checkDuplicates: bool,
                    fieldError: FieldSchema -> Option<Status>): (s: Status)
    requires i <= |fields|
    requires forall f :: fieldError(f).Some? ==> fieldError(f).value.code == CodeValue(ErrParameterInvalid)
    ensures s.IsErr() ==> s.code == CodeValue(ErrParameterInvalid)
    decreases |fields| - i
  {
    if i == |fields| then Ok()
    else
      var f := fields[i];
      if f.name in names then ParameterInvalid("")
      else if f.isPrimaryKey && pkName != "" then ParameterInvalid("")
      else
        match fieldError(f)
        case Some(e) => e
        case None =>
          ScanFrom(fields, i + 1, if checkDuplicates then names + {f.name} else names,
                   if f.isPrimaryKey then f.name else pkName, checkDuplicates, fieldError)
  }

  /**
   * The loop's scan over the fields, with the per-field checks passed in
   * (ValidateSchema passes FieldError); `checkDuplicates` selects the
   * intended behaviour.
   */
  method ScanFields(fields: seq<FieldSchema>, checkDuplicates: bool, fieldError: FieldSchema -> Option<Status>) returns (s: Status)
    requires forall f :: fieldError(f).Some? ==> fieldError(f).value.code == CodeValue(ErrParameterInvalid)
    ensures s == ScanFrom(fields, 0, {}, "", checkDuplicates, fieldError)
  {
    var fieldNames: set<string> := {};
    var pkName := "";
    var i := 0;
    while i < |fields|
      invariant 0 <= i <= |fields|
      invariant ScanFrom(fields, i, fieldNames, pkName, checkDuplicates, fieldError) == ScanFrom(fields, 0, {}, "", checkDuplicates, fieldError)
    {
      var f := fields[i];
      if f.name in fieldNames {
        return ParameterInvalid("");
      }
      if f.isPrimaryKey {
        if pkName != "" {
          return ParameterInvalid("");
        }
        pkName := f.name;
      }
      var e := fieldError(f);
      if e.Some? {
        return e.value;
      }
      if checkDuplicates {
        fieldNames := fieldNames + {f.name};
      }
      i := i + 1;
    }
    return Ok();
  }

  /** The name of the last primary key among fields[..n], "" when there is none. */
  function PkNameUpTo(fields: seq<FieldSchema>, n: nat): string
    requires n <= |fields|
  {
    if n == 0 then ""
    else if fields[n - 1].isPrimaryKey then fields[n - 1].name
    else PkNameUpTo(fields, n - 1)
  }

  lemma {:induction false} PkNameUpToEmpty(fields: seq<FieldSchema>, n: nat)
    requires n <= |fields|
    requires forall k | 0 <= k < n :: fields[k].name != ""
    ensures PkNameUpTo(fields, n) == "" <==> forall k | 0 <= k < n :: !fields[k].isPrimaryKey
  {
    if n > 0 {
      PkNameUpToEmpty(fields, n - 1);
    }
  }

  predicate AtMostOnePrimaryKeyUpTo(fields: seq<FieldSchema>, n: nat)
    requires n <= |fields|
  {
    forall i, j | 0 <= i < n && 0 <= j < n && fields[i].isPrimaryKey && fields[j].isPrimaryKey :: i == j
  }

  predicate DistinctNamesUpTo(fields: seq<FieldSchema>, n: nat)
    requires n <= |fields|
  {
    forall i, j | 0 <= i < j < n :: fields[i].name != fields[j].name
  }

  /** The state the scan carries after fields[..i] passed. */
  predicate ScanState(fields: seq<FieldSchema>, i: nat, names: set<string>, pkName: string, checkDuplicates: bool)
    requires i <= |fields|
  {
    (forall k | 0 <= k < i :: fields[k].name != "")
    && AtMostOnePrimaryKeyUpTo(fields, i)
    && (checkDuplicates ==> DistinctNamesUpTo(fields, i) && names == set k | 0 <= k < i :: fields[k].name)
    && (!checkDuplicates ==> names == {})
    && pkName == PkNameUpTo(fields, i)
  }

  /** What the scan demands of the whole list when it starts at field i. */
  predicate PassesFrom(fields: seq<FieldSchema>, i: nat, checkDuplicates: bool, fieldError: FieldSchema -> Option<Status>)
    requires i <= |fields|
  {
    AtMostOnePrimaryKeyUpTo(fields, |fields|) && (checkDuplicates ==> DistinctNamesUpTo(fields, |fields|))
    && forall k | i <= k < |fields| :: fieldError(fields[k]).None?
  }

  /** From a state reached over fields[..i], the scan accepts exactly when the whole list meets the rules. */
  lemma {:induction false} ScanFromSpec(fields: seq<FieldSchema>, i: nat, names: set<string>, pkName: string, checkDuplicates: bool,
                                        fieldError: FieldSchema -> Option<Status>)
    requires i <= |fields| && ScanState(fields, i, names, pkName, checkDuplicates)
    requires forall f :: fieldError(f).Some? ==> fieldError(f).value.code == CodeValue(ErrParameterInvalid)
    requires forall f :: fieldError(f).None? ==> f.name != ""
    ensures ScanFrom(fields, i, names, pkName, checkDuplicates, fieldError).IsOk() <==> PassesFrom(fields, i, checkDuplicates, fieldError)
    decreases |fields| - i
  {
    if i < |fields| {
      var f := fields[i];
      if f.name in names || (f.isPrimaryKey && pkName != "") || fieldError(f).Some? {
        ScanRejects(fields, i, names, pkName, checkDuplicates, fieldError);
      } else {
        var names' := if checkDuplicates then names + {f.name} else names;
        var pk' := if f.isPrimaryKey then f.name else pkName;
        PkNameUpToEmpty(fields, i);
        PrefixStep(fields, i);
        assert ScanState(fields, i + 1, names', pk', checkDuplicates);
        ScanFromSpec(fields, i + 1, names', pk', checkDuplicates, fieldError);
        PassesFromStep(fields, i, checkDuplicates, fieldError);
        assert ScanFrom(fields, i, names, pkName, checkDuplicates, fieldError)
            == ScanFrom(fields, i + 1, names', pk', checkDuplicates, fieldError);
      }
    }
  }

  /** A field with a recorded name, a second primary key or a failed check stops the scan, and the list breaks a rule. */
  lemma ScanRejects(fields: seq<FieldSchema>, i: nat, names: set<string>, pkName: string, checkDuplicates: bool,
                    fieldError: FieldSchema -> Option<Status>)
    requires i < |fields| && ScanState(fields, i, names, pkName, checkDuplicates)
    requires forall f :: fieldError(f).Some? ==> fieldError(f).value.code == CodeValue(ErrParameterInvalid)
    requires fields[i].name in names || (fields[i].isPrimaryKey && pkName != "") || fieldError(fields[i]).Some?
    ensures ScanFrom(fields, i, names, pkName, checkDuplicates, fieldError).IsErr()
    ensures !PassesFrom(fields, i, checkDuplicates, fieldError)
  {
    var f := fields[i];
    PkNameUpToEmpty(fields, i);
    if f.name in names {
      assert checkDuplicates;
      NameSeenUpTo(fields, i);
    } else if f.isPrimaryKey && pkName != "" {
      SecondPkUpTo(fields, i);
    }
  }

  lemma PassesFromStep(fields: seq<FieldSchema>, i: nat, checkDuplicates: bool, fieldError: FieldSchema -> Option<Status>)
    requires i < |fields| && fieldError(fields[i]).None?
    ensures PassesFrom(fields, i, checkDuplicates, fieldError) <==> PassesFrom(fields, i + 1, checkDuplicates, fieldError)
  {
  }

  lemma NameSeenUpTo(fields: seq<FieldSchema>, i: int)
    requires 0 <= i < |fields|
    requires fields[i].name in set k | 0 <= k < i :: fields[k].name
    ensures !DistinctNamesUpTo(fields, |fields|)
  {
    var k :| 0 <= k < i && fields[k].name == fields[i].name;
  }

  lemma SecondPkUpTo(fields: seq<FieldSchema>, i: int)
    requires 0 <= i < |fields| && fields[i].isPrimaryKey
    requires !forall k | 0 <= k < i :: !fields[k].isPrimaryKey
    ensures !AtMostOnePrimaryKeyUpTo(fields, |fields|)
  {
    var k :| 0 <= k < i && fields[k].isPrimaryKey;
  }

  lemma PrefixStep(fields: seq<FieldSchema>, i: nat)
    requires i < |fields| && AtMostOnePrimaryKeyUpTo(fields, i)
    requires forall k | 0 <= k < i :: fields[k].name != ""
    requires fields[i].isPrimaryKey ==> PkNameUpTo(fields, i) == ""
    ensures AtMostOnePrimaryKeyUpTo(fields, i + 1)
    ensures PkNameUpTo(fields, i + 1) == if fields[i].isPrimaryKey then fields[i].name else PkNameUpTo(fields, i)
    ensures DistinctNamesUpTo(fields, i) && fields[i].name !in (set k | 0 <= k < i :: fields[k].name) ==> DistinctNamesUpTo(fields, i + 1)
    ensures (set k | 0 <= k < i + 1 :: fields[k].name) == (set k | 0 <= k < i :: fields[k].name) + {fields[i].name}
  {
    PkNameUpToEmpty(fields, i);
    if DistinctNamesUpTo(fields, i) && fields[i].name !in (set k | 0 <= k < i :: fields[k].name) {
      forall a, b | 0 <= a < b < i + 1 ensures fields[a].name != fields[b].name {
        if b == i {
          assert fields[a].name in (set k | 0 <= k < i :: fields[k].name);
        }
      }
    }
  }

  /** The scan as a whole: it accepts exactly the field lists that meet every per-field and cross-field rule. */
  lemma ScanFieldsSpec(fields: seq<FieldSchema>, checkDuplicates: bool)
    ensures ScanFrom(fields, 0, {}, "", checkDuplicates, FieldError).IsOk() <==>
            AtMostOnePrimaryKey(fields) && (checkDuplicates ==> DistinctNames(fields))
            && forall i | 0 <= i < |fields| :: FieldOk(fields[i])
  {
    forall f | FieldError(f).None? ensures f.name != "" {
      FieldOkNameNonEmpty(f);
    }
    ScanFromSpec(fields, 0, {}, "", checkDuplicates, FieldError);
  }

  /** The functions' scan, stopping at the first invalid one. */
  method ScanFunctions(schema: CollectionSchema) returns (s: Status)
    ensures s.IsOk() <==> forall i | 0 <= i < |schema.functions| :: Bm25FunctionOk(schema.fields, schema.functions[i])
    ensures s.IsErr() ==> s.code == CodeValue(ErrParameterInvalid)
  {
    var i := 0;
    while i < |schema.functions|
      invariant 0 <= i <= |schema.functions|
      invariant forall k | 0 <= k < i :: Bm25FunctionOk(schema.fields, schema.functions[k])
    {
      s := ValidBm25Function(schema, schema.functions[i]);
      if s.IsErr() {
        return s;
      }
      i := i + 1;
    }
    return Ok();
  }

  /** ValidateSchema as written: `field_names` is never filled, so equal names pass. */
  method ValidateSchemaAsWritten(schema: CollectionSchema) returns (s: Status)
    ensures s.IsOk() <==> SchemaOkAsWritten(schema)
    ensures s.IsErr() ==> s.code == CodeValue(ErrParameterInvalid)
  {
    if |schema.fields| > SCHEMA_FIELD_LIMIT {
      return ParameterInvalid("");
    }
    s := ScanFields(schema.fields, false, FieldError);
    ScanFieldsSpec(schema.fields, false);
    if s.IsErr() {
      return s;
    }
    s := ScanFunctions(schema);
  }

  /** ValidateSchema with each field name recorded as it is checked, so a repeated name is refused. */
  method ValidateSchema(schema: CollectionSchema) returns (s: Status)
    ensures s.IsOk() <==> SchemaOk(schema)
    ensures s.IsErr() ==> s.code == CodeValue(ErrParameterInvalid)
  {
    if |schema.fields| > SCHEMA_FIELD_LIMIT {
      return ParameterInvalid("");
    }
    s := ScanFields(schema.fields, true, FieldError);
    ScanFieldsSpec(schema.fields, true);
    if s.IsErr() {
      return s;
    }
    s := ScanFunctions(schema);
  }

  function PlainField(name: string): FieldSchema
  {
    FieldSchema(0, name, false, "", Int64, [], [], false, false, false, false, false, NoneType, NoValue)
  }

  /** Two Int64 fields both named "a": accepted as written, refused as intended. */
  lemma DuplicateNamesCounterexample()
    ensures var schema := CollectionSchema("c", "", false, [PlainField("a"), PlainField("a")], false, [], []);
            SchemaOkAsWritten(schema) && !SchemaOk(schema)
  {
    var f := PlainField("a");
    var schema := CollectionSchema("c", "", false, [f, f], false, [], []);
    StringUtil.TrimFixpoint("a");
    assert IsIdentifier("a");
    assert CheckFieldName(f.name).IsOk();
    assert FieldOk(f);
    assert forall i | 0 <= i < |schema.fields| :: FieldOk(schema.fields[i]);
    assert AtMostOnePrimaryKey(schema.fields);
    assert SchemaOkAsWritten(schema);
    assert schema.fields[0].name == schema.fields[1].name;
  }

  // ---------------------------------------------------------------------------
  // Process

  /** The $meta field AppendDynamicField adds; AssignFieldId later gives it its id. */
  function DynamicField(): FieldSchema
  {
    FieldSchema(0, META_FIELD_NAME, false, "dynamic schema", JSON, [], [], false, true, false, false, false, NoneType, NoValue)
  }

  function SystemField(id: int, name: string, description: string): FieldSchema
  {
    FieldSchema(id, name, false, description, Int64, [], [], false, false, false, false, false, NoneType, NoValue)
  }

  /** AssignFieldId: field i gets id 100 + i. */
  method AssignFieldId(fields: seq<FieldSchema>) returns (r: seq<FieldSchema>)
    ensures |r| == |fields|
    ensures forall i | 0 <= i < |r| :: r[i] == fields[i].(fieldId := START_OF_USER_FIELD_ID + i)
  {
    r := fields;
    var i := 0;
    while i < |r|
      invariant 0 <= i <= |r| == |fields|
      invariant forall k | 0 <= k < i :: r[k] == fields[k].(fieldId := START_OF_USER_FIELD_ID + k)
      invariant forall k | i <= k < |r| :: r[k] == fields[k]
    {
      r := r[i := r[i].(fieldId := START_OF_USER_FIELD_ID + i)];
      i := i + 1;
    }
  }

  /**
   * The schema after Process: the user fields, then $meta when the dynamic
   * field is enabled, numbered from 100, then RowID (id 0) and Timestamp (id 1).
   */
  predicate Completed(input: CollectionSchema, output: CollectionSchema)
  {
    var n := |input.fields|;
    var d := if input.enableDynamicField then 1 else 0;
    output == input.(fields := output.fields)
    && |output.fields| == n + d + 2
    && (forall i | 0 <= i < n :: output.fields[i] == input.fields[i].(fieldId := START_OF_USER_FIELD_ID + i))
    && (input.enableDynamicField ==> output.fields[n] == DynamicField().(fieldId := START_OF_USER_FIELD_ID + n))
    && output.fields[n + d] == SystemField(ROW_ID_FIELD, ROW_ID_FIELD_NAME, "row id")
    && output.fields[n + d + 1] == SystemField(TIMESTAMP_FIELD, TIMESTAMP_FIELD_NAME, "time stamp")
  }

  /**
   * CreateCollectionTask::Process: `parsed` is the schema decoded from the
   * request bytes (None when they do not parse). The name must match the
   * request's collection name, the schema must validate, contain no system
   * field and carry matching defaults; then the fields are completed.
   */
  method Process(collectionName: string, parsed: Option<CollectionSchema>) returns (r: Outcome<CollectionSchema>)
    ensures r.Success? <==> parsed.Some? && parsed.value.name == collectionName && SchemaOk(parsed.value)
                            && (forall i | 0 <= i < |parsed.value.fields| :: !IsSystemName(parsed.value.fields[i].name))
                            && (forall i | 0 <= i < |parsed.value.fields| :: DefaultValueOk(parsed.value.fields[i]))
    ensures r.Success? ==> Completed(parsed.value, r.value)
    ensures r.Failure? ==> r.status.code == CodeValue(ErrParameterInvalid)
  {
    if parsed.None? {
      return Failure(ParameterInvalid(""));
    }
    var schema := parsed.value;
    if collectionName != schema.name {
      return Failure(ParameterInvalid(""));
    }
    var s := ValidateSchema(schema);
    if s.IsErr() {
      return Failure(s);
    }
    var hasSystem := HasSystemFields(schema);
    if hasSystem {
      return Failure(ParameterInvalid(""));
    }
    var defaultsOk := CheckDefaultValue(schema);
    if !defaultsOk {
      return Failure(ParameterInvalid(""));
    }
    var fields := schema.fields;
    if schema.enableDynamicField {
      fields := fields + [DynamicField()];
    }
    fields := AssignFieldId(fields);
    fields := fields + [SystemField(ROW_ID_FIELD, ROW_ID_FIELD_NAME, "row id"),
                        SystemField(TIMESTAMP_FIELD, TIMESTAMP_FIELD_NAME, "time stamp")];
    return Success(schema.(fields := fields));
  }

  /** After Process every field has its own name: the user names are distinct and none is a system name. */
  lemma CompletedNamesDistinct(input: CollectionSchema, output: CollectionSchema)
    requires DistinctNames(input.fields) && Completed(input, output)
    requires forall i | 0 <= i < |input.fields| :: !IsSystemName(input.fields[i].name)
    ensures DistinctNames(output.fields)
  {
    var n := |input.fields|;
    var out := output.fields;
    forall i, j | 0 <= i < j < |out| ensures out[i].name != out[j].name {
      if j < n {
        assert out[i].name == input.fields[i].name && out[j].name == input.fields[j].name;
      } else if i < n {
        assert out[i].name == input.fields[i].name;
        assert IsSystemName(out[j].name);
      }
    }
  }

  /** After Process every field has its own id, and the user fields and $meta have ids from 100. */
  lemma CompletedIdsDistinct(input: CollectionSchema, output: CollectionSchema)
    requires Completed(input, output)
    ensures forall i, j | 0 <= i < j < |output.fields| :: output.fields[i].fieldId != output.fields[j].fieldId
    ensures forall i | 0 <= i < |output.fields| - 2 :: output.fields[i].fieldId == START_OF_USER_FIELD_ID + i
  {
    var n := |input.fields|;
    var out := output.fields;
    forall i | 0 <= i < |out| - 2 ensures out[i].fieldId == START_OF_USER_FIELD_ID + i {
      if i < n {
        assert out[i] == input.fields[i].(fieldId := START_OF_USER_FIELD_ID + i);
      }
    }
  }
}
