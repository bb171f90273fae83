// The filter-expression plan (plan.proto) and the helpers the expression
// visitor relies on (src/parser/utils.h): the data-type lattice, operator
// reversal, LIKE-pattern translation, constant casting and the schema helper.
module PlanUtils {
  import opened Wrappers
  import opened Schema

  /** plan.OpType. */
  datatype OpType =
    | Invalid | GreaterThan | GreaterEqual | LessThan | LessEqual | Equal | NotEqual
    | PrefixMatch | PostfixMatch | Match | Range | In | NotIn

  /** plan.GenericValue: its oneof, with NoVal for a message where nothing was set. */
  datatype GenericValue =
    | NoVal
    | BoolVal(b: bool)
    | Int64Val(i: int)
    | FloatVal(f: real)
    | StringVal(s: string)
    | ArrayVal(elems: seq<GenericValue>, sameType: bool, elementType: DType)

  /** plan.ColumnInfo. */
  datatype ColumnInfo = ColumnInfo(
    fieldId: int,
    dataType: DType,
    isPrimaryKey: bool,
    isAutoId: bool,
    nestedPath: seq<string>,
    elementType: DType)

  datatype ArithOp = Add | Sub | Mul | Div | Mod

  /** plan.Expr: the node kinds the visitor builds. */
  datatype Expr =
    | ValueExpr(value: GenericValue)
    | ColumnExpr(info: ColumnInfo)
    | BinaryArithExpr(arithOp: ArithOp, left: Expr, right: Expr)
    | UnaryRangeExpr(op: OpType, column: ColumnInfo, operand: GenericValue)
    | ArithCompareExpr(op: OpType, arith: Expr, operand: GenericValue)
    | CompareExpr(op: OpType, leftColumn: ColumnInfo, rightColumn: ColumnInfo)
    | LogicalAndExpr(left: Expr, right: Expr)
    | LogicalOrExpr(left: Expr, right: Expr)
    | NotExpr(child: Expr)
    | TermExpr(column: ColumnInfo, values: seq<GenericValue>)
    | BinaryRangeExpr(column: ColumnInfo, lowerInclusive: bool, upperInclusive: bool,
                      lower: GenericValue, upper: GenericValue)

  /** ExprWithDtype: a node, the data type it evaluates to, and whether it is a bare literal. */
  datatype Typed = Typed(expr: Expr, dtype: DType, dependent: bool)

  // ---------------------------------------------------------------------
  // The data-type lattice

  /** arithmeticDtype. */
  predicate ArithmeticDtype(t: DType)
  {
    t == Float || t == Double || t == Int8 || t == Int16 || t == Int32 || t == Int64
  }

  predicate IntegerDtype(t: DType) { t == Int8 || t == Int16 || t == Int32 || t == Int64 }
  predicate FloatingDtype(t: DType) { t == Float || t == Double }

  /** canArithmeticDtype: the chain of checks the visitor applies before building arithmetic. */
  predicate CanArithmeticDtype(a: DType, b: DType)
  {
    if a == JSON && b == JSON then false
    else if a == JSON && ArithmeticDtype(b) then true
    else if ArithmeticDtype(a) && b == JSON then true
    else ArithmeticDtype(a) && ArithmeticDtype(b)
  }

  /** Both sides arithmetic or JSON, but not both JSON; hence symmetric. */
  lemma CanArithmeticDtypeSpec(a: DType, b: DType)
    ensures CanArithmeticDtype(a, b) <==>
            (ArithmeticDtype(a) || a == JSON) && (ArithmeticDtype(b) || b == JSON) && !(a == JSON && b == JSON)
    ensures CanArithmeticDtype(a, b) == CanArithmeticDtype(b, a)
  {
  }

  /** calDataType on already-resolved types; None is the exception it throws. */
  function CalDataType(a: DType, b: DType): (r: Option<DType>)
    ensures r.Some? <==> (ArithmeticDtype(a) || a == JSON) && (ArithmeticDtype(b) || b == JSON)
    ensures r == Some(JSON) <==> a == JSON && b == JSON
    ensures IntegerDtype(a) && IntegerDtype(b) ==> r == Some(Int64)
    ensures FloatingDtype(a) && (ArithmeticDtype(b) || b == JSON) ==> r == Some(Double)
    ensures a == JSON && FloatingDtype(b) ==> r == Some(Float)
    ensures a == JSON && IntegerDtype(b) ==> r == Some(Int64)
    ensures IntegerDtype(a) && (FloatingDtype(b) || b == JSON) ==> r == Some(if b == JSON then Int64 else Double)
  {
    if a == JSON && FloatingDtype(b) then Some(Float)
    else if a == JSON && IntegerDtype(b) then Some(Int64)
    else if a == JSON && b == JSON then Some(JSON)
    else if FloatingDtype(a) && (b == JSON || ArithmeticDtype(b)) then Some(Double)
    else if IntegerDtype(a) && FloatingDtype(b) then Some(Double)
    else if IntegerDtype(a) && (IntegerDtype(b) || b == JSON) then Some(Int64)
    else None
  }

  /** Once canArithmeticDtype has passed, calDataType cannot throw and never answers JSON. */
  lemma CanArithmeticGivesType(a: DType, b: DType)
    requires CanArithmeticDtype(a, b)
    ensures CalDataType(a, b).Some? && CalDataType(a, b).value != JSON
  {
  }

  /** JSON on the left of a float gives Float, on the right gives Double: calDataType is not symmetric. */
  lemma CalDataTypeJSONAsymmetry()
    ensures CalDataType(JSON, Double) == Some(Float)
    ensures CalDataType(Double, JSON) == Some(Double)
  {
  }

  /** getArrayElementType. */
  function GetArrayElementType(e: Expr): DType
  {
    match e
    case ColumnExpr(info) => info.elementType
    case ValueExpr(ArrayVal(_, _, elementType)) => elementType
    case _ => NoneType
  }

  /** The type arithmetic and comparison see: an array stands for its element type. */
  function Resolved(t: Typed): DType
  {
    if t.dtype == Array then GetArrayElementType(t.expr) else t.dtype
  }

  /** calDataType on two typed expressions. */
  function CalDataTypeOf(a: Typed, b: Typed): (r: Option<DType>)
    ensures r == CalDataType(Resolved(a), Resolved(b))
  {
    CalDataType(Resolved(a), Resolved(b))
  }

  /** The data types a comparison can involve at all. */
  predicate ComparableKind(t: DType)
  {
    t == Bool || ArithmeticDtype(t) || t == String || t == VarChar || t == JSON
  }

  /** canBeComparedDataType. */
  predicate CanBeComparedDataType(a: DType, b: DType)
  {
    if a == Bool then b == Bool || b == JSON
    else if ArithmeticDtype(a) then ArithmeticDtype(b) || b == JSON
    else if a == VarChar || a == String then b == String || b == VarChar || b == JSON
    else a == JSON
  }

  /**
   * JSON on the left accepts anything; Bool pairs only with Bool and JSON,
   * strings only with strings and JSON, numbers only with numbers and JSON.
   * Between comparable kinds the relation is symmetric.
   */
  lemma CanBeComparedDataTypeSpec(a: DType, b: DType)
    ensures a == JSON ==> CanBeComparedDataType(a, b)
    ensures a == Bool ==> (CanBeComparedDataType(a, b) <==> b == Bool || b == JSON)
    ensures (a == VarChar || a == String) ==> (CanBeComparedDataType(a, b) <==> b == VarChar || b == String || b == JSON)
    ensures ArithmeticDtype(a) ==> (CanBeComparedDataType(a, b) <==> ArithmeticDtype(b) || b == JSON)
    ensures !ComparableKind(a) ==> !CanBeComparedDataType(a, b)
    ensures ComparableKind(a) && ComparableKind(b) ==> CanBeComparedDataType(a, b) == CanBeComparedDataType(b, a)
  {
  }

  /** canBeCompared as written: with only b an array it asks about b's own type, which is never comparable. */
  predicate CanBeComparedAsWritten(a: Typed, b: Typed)
  {
    if a.dtype != Array && b.dtype != Array then CanBeComparedDataType(a.dtype, b.dtype)
    else if a.dtype == Array && b.dtype == Array then
      CanBeComparedDataType(GetArrayElementType(a.expr), GetArrayElementType(b.expr))
    else if a.dtype == Array then CanBeComparedDataType(GetArrayElementType(a.expr), b.dtype)
    else CanBeComparedDataType(b.dtype, GetArrayElementType(b.expr))
  }

  /** canBeCompared with the last case comparing a's type against b's element type. */
  predicate CanBeCompared(a: Typed, b: Typed)
  {
    if a.dtype != Array && b.dtype != Array then CanBeComparedDataType(a.dtype, b.dtype)
    else if a.dtype == Array && b.dtype == Array then
      CanBeComparedDataType(GetArrayElementType(a.expr), GetArrayElementType(b.expr))
    else if a.dtype == Array then CanBeComparedDataType(GetArrayElementType(a.expr), b.dtype)
    else CanBeComparedDataType(a.dtype, GetArrayElementType(b.expr))
  }

  /** Corrected canBeCompared compares the resolved types, so it is symmetric between comparable kinds. */
  lemma CanBeComparedSymmetric(a: Typed, b: Typed)
    ensures CanBeCompared(a, b) == CanBeComparedDataType(Resolved(a), Resolved(b))
    ensures ComparableKind(Resolved(a)) && ComparableKind(Resolved(b)) ==> CanBeCompared(a, b) == CanBeCompared(b, a)
  {
    CanBeComparedDataTypeSpec(Resolved(a), Resolved(b));
  }

  function IntColumn(id: int, dtype: DType, elementType: DType): Typed
  {
    Typed(ColumnExpr(ColumnInfo(id, dtype, false, false, [], elementType)), dtype, false)
  }

  /** `age < scores[0]` (an Int64 column against an element of an Int64 array) is refused, the mirror image accepted. */
  lemma CanBeComparedAsWrittenIsOneSided()
    ensures var age := IntColumn(101, Int64, NoneType);
            var scores := IntColumn(102, Array, Int64);
            !CanBeComparedAsWritten(age, scores) && CanBeComparedAsWritten(scores, age)
            && CanBeCompared(age, scores) && CanBeCompared(scores, age)
  {
  }

  /** The data type toValueExpr gives a constant; None for a message where nothing is set. */
  function ValueDtype(v: GenericValue): Option<DType>
  {
    match v
    case NoVal => None
    case BoolVal(_) => Some(Bool)
    case Int64Val(_) => Some(Int64)
    case FloatVal(_) => Some(Float)
    case StringVal(_) => Some(VarChar)
    case ArrayVal(_, _, _) => Some(Array)
  }

  /**
   * castValue: a constant made to fit a column of type dtype. JSON takes
   * anything; an integer becomes a float for Float/Double columns; otherwise
   * the constant must already be of the column's kind. None is the exception.
   */
  function CastValue(dtype: DType, v: GenericValue): (r: Option<GenericValue>)
    ensures dtype == JSON ==> r == Some(v)
    ensures FloatingDtype(dtype) && v.Int64Val? ==> r == Some(FloatVal(v.i as real))
    ensures r.Some? && !(FloatingDtype(dtype) && v.Int64Val?) ==> r.value == v
    ensures r.Some? && dtype != JSON ==>
              ValueDtype(r.value).Some? &&
              (if dtype == Array then r.value.ArrayVal? else CanBeComparedDataType(dtype, ValueDtype(r.value).value))
    ensures IntegerDtype(dtype) ==> (r.Some? <==> v.Int64Val?)
    ensures FloatingDtype(dtype) ==> (r.Some? <==> v.Int64Val? || v.FloatVal?)
    ensures !ComparableKind(dtype) && dtype != Array ==> r.None?
  {
    if dtype == JSON then Some(v)
    else if dtype == Array && v.ArrayVal? then Some(v)
    else if dtype == VarChar && v.StringVal? then Some(v)
    else if dtype == Bool && v.BoolVal? then Some(v)
    else if FloatingDtype(dtype) && v.FloatVal? then Some(v)
    else if FloatingDtype(dtype) && v.Int64Val? then Some(FloatVal(v.i as real))
    else if IntegerDtype(dtype) && v.Int64Val? then Some(v)
    else None
  }

  /** Casting what a cast produced changes nothing. */
  lemma CastValueIdempotent(dtype: DType, v: GenericValue)
    requires CastValue(dtype, v).Some?
    ensures CastValue(dtype, CastValue(dtype, v).value) == CastValue(dtype, v)
  {
  }

  // ---------------------------------------------------------------------
  // Comparison operators

  predicate IsComparison(op: OpType)
  {
    op == LessThan || op == LessEqual || op == GreaterThan || op == GreaterEqual || op == Equal || op == NotEqual
  }

  /** What a comparison operator asserts about its left and right operands. */
  predicate Holds(op: OpType, x: int, y: int)
    requires IsComparison(op)
  {
    match op
    case LessThan => x < y
    case LessEqual => x <= y
    case GreaterThan => x > y
    case GreaterEqual => x >= y
    case Equal => x == y
    case NotEqual => x != y
  }

  /** reverseOrder as written: the order comparisons are mirrored, but == and != are negated. */
  function ReverseOrderAsWritten(op: OpType): (r: OpType)
    ensures IsComparison(op) <==> IsComparison(r)
    ensures !IsComparison(op) ==> r == Invalid
  {
    match op
    case LessThan => GreaterThan
    case LessEqual => GreaterEqual
    case GreaterThan => LessThan
    case GreaterEqual => LessEqual
    case Equal => NotEqual
    case NotEqual => Equal
    case _ => Invalid
  }

  /** The operator that says the same thing with its operands swapped. */
  function ReverseOrder(op: OpType): (r: OpType)
    ensures IsComparison(op) <==> IsComparison(r)
    ensures !IsComparison(op) ==> r == Invalid
  {
    match op
    case LessThan => GreaterThan
    case LessEqual => GreaterEqual
    case GreaterThan => LessThan
    case GreaterEqual => LessEqual
    case Equal => Equal
    case NotEqual => NotEqual
    case _ => Invalid
  }

  /** Both reversals are involutions on the six comparisons. */
  lemma ReverseOrderInvolution(op: OpType)
    requires IsComparison(op)
    ensures ReverseOrder(ReverseOrder(op)) == op
    ensures ReverseOrderAsWritten(ReverseOrderAsWritten(op)) == op
  {
  }

  /** `c op x` holds exactly when `x ReverseOrder(op) c` does. */
  lemma ReverseOrderSwapsOperands(op: OpType, c: int, x: int)
    requires IsComparison(op)
    ensures Holds(ReverseOrder(op), x, c) == Holds(op, c, x)
  {
  }

  /** As written, `1 == x` becomes `x != 1`: the filter keeps exactly the rows it should drop. */
  lemma ReverseOrderAsWrittenNegatesEquality()
    ensures Holds(Equal, 1, 1) && !Holds(ReverseOrderAsWritten(Equal), 1, 1)
    ensures ReverseOrderAsWritten(Equal) != ReverseOrder(Equal)
  {
  }

  // ---------------------------------------------------------------------
  // LIKE patterns

  /** One more than the largest size_t. */
  const SIZE_T_RANGE: int := 0x1_0000_0000_0000_0000

  predicate IsWildcard(c: char) { c == '%' || c == '_' }

  /** A wildcard at j that is not preceded by a backslash. */
  predicate Unescaped(p: string, j: int)
    requires 0 <= j < |p|
  {
    IsWildcard(p[j]) && !(j > 0 && p[j - 1] == '\\')
  }

  predicate HasUnescapedWildcard(p: string)
  {
    exists j | 0 <= j < |p| :: Unescaped(p, j)
  }

  /**
   * hasWildcards: scan from the end; an escaped wildcard skips its backslash,
   * an unescaped one answers true. A skipped index always holds a backslash,
   * never a wildcard, so the scan finds an unescaped wildcard wherever it is.
   */
  method HasWildcards(p: string) returns (r: bool)
    ensures r <==> HasUnescapedWildcard(p)
  {
    var i := |p| - 1;
    while i >= 0
      invariant -2 <= i < |p|
      invariant forall j | i < j < |p| && 0 <= j :: !Unescaped(p, j)
    {
      if IsWildcard(p[i]) {
        if i > 0 && p[i - 1] == '\\' {
          i := i - 2;
          continue;
        }
        assert Unescaped(p, i);
        return true;
      }
      i := i - 1;
    }
    assert forall j | 0 <= j < |p| :: !Unescaped(p, j);
    return false;
  }

  /** The last index that does not hold an unescaped wildcard, or -1. */
  function LastNotWildcard(p: string): (loc: int)
    ensures -1 <= loc < |p|
    ensures forall j | loc < j < |p| :: Unescaped(p, j)
    ensures loc >= 0 ==> !Unescaped(p, loc)
    decreases |p|
  {
    if |p| == 0 then -1
    else if !Unescaped(p, |p| - 1) then |p| - 1
    else
      var loc := LastNotWildcard(p[..|p| - 1]);
      assert forall j | loc < j < |p| - 1 :: Unescaped(p[..|p| - 1], j) == Unescaped(p, j);
      loc
  }

  /** findLastNotOfWildcards: walk back over unescaped wildcards. */
  method FindLastNotOfWildcards(p: string) returns (loc: int)
    ensures loc == LastNotWildcard(p)
  {
    loc := |p| - 1;
    while loc >= 0
      invariant -1 <= loc < |p|
      invariant forall j | loc < j < |p| :: Unescaped(p, j)
    {
      if IsWildcard(p[loc]) {
        if loc > 0 && p[loc - 1] == '\\' {
          break;
        }
      } else {
        break;
      }
      loc := loc - 1;
    }
    LastNotWildcardUnique(p, loc);
  }

  /** The two conditions of LastNotWildcard fix the index. */
  lemma LastNotWildcardUnique(p: string, loc: int)
    requires -1 <= loc < |p|
    requires forall j | loc < j < |p| :: Unescaped(p, j)
    requires loc >= 0 ==> !Unescaped(p, loc)
    ensures loc == LastNotWildcard(p)
  {
  }

  /** Wildcards at or before loc are wildcards of the prefix up to loc, and the other way around. */
  lemma PrefixUnescaped(p: string, loc: int)
    requires 0 <= loc < |p|
    ensures HasUnescapedWildcard(p[..loc + 1]) <==> exists j | 0 <= j <= loc :: Unescaped(p, j)
  {
    var q := p[..loc + 1];
    assert forall j | 0 <= j <= loc :: Unescaped(q, j) == Unescaped(p, j);
  }

  /**
   * translatePatternMatch as written. `loc` is a size_t, so the -1 that
   * signals "nothing but wildcards" becomes the largest size_t: the `loc < 0`
   * branch never runs, the prefix taken is empty (loc + 1 wraps to 0), and
   * the pattern goes out as an Equal match.
   */
  method TranslatePatternMatchAsWritten(p: string) returns (op: OpType, operand: string)
    requires |p| < SIZE_T_RANGE
    ensures var loc := LastNotWildcard(p);
            && (!HasUnescapedWildcard(p) ==> op == Equal && operand == p)
            && (0 <= loc < |p| - 1 && !HasUnescapedWildcard(p[..loc + 1]) ==> op == PrefixMatch && operand == p[..loc + 1])
            && (loc >= 0 && HasUnescapedWildcard(p[..loc + 1]) ==> op == Match && operand == p)
            && (loc == -1 ==> op == Equal && operand == p)
  {
    var l := |p|;
    var found := FindLastNotOfWildcards(p);
    var loc := found % SIZE_T_RANGE;
    var cut := (loc + 1) % SIZE_T_RANGE;
    var prefix := p[..cut];
    var exist := HasWildcards(prefix);
    if found >= 0 {
      assert loc == found && cut == found + 1;
      PrefixUnescaped(p, found);
      if !HasUnescapedWildcard(p) && l > 0 {
        assert !Unescaped(p, l - 1);
        assert found == l - 1;
        assert prefix == p;
      }
    } else {
      assert cut == 0 && prefix == [];
    }
    if loc >= (l - 1) % SIZE_T_RANGE && !exist {
      op, operand := Equal, p;
    } else if !exist {
      op, operand := PrefixMatch, prefix;
    } else {
      op, operand := Match, p;
    }
  }

  /** translatePatternMatch with a signed `loc`: a pattern of nothing but wildcards matches everything. */
  function TranslatePatternMatch(p: string): (r: (OpType, string))
    ensures var loc := LastNotWildcard(p);
            && (loc == -1 ==> r == (PrefixMatch, ""))
            && (loc >= 0 && !HasUnescapedWildcard(p) ==> r == (Equal, p))
            && (0 <= loc < |p| - 1 && !HasUnescapedWildcard(p[..loc + 1]) ==> r == (PrefixMatch, p[..loc + 1]))
            && (loc >= 0 && HasUnescapedWildcard(p[..loc + 1]) ==> r == (Match, p))
  {
    var loc := LastNotWildcard(p);
    if loc < 0 then (PrefixMatch, "")
    else
      var exist := HasUnescapedWildcard(p[..loc + 1]);
      PrefixUnescaped(p, loc);
      if loc >= |p| - 1 && !exist then (Equal, p)
      else if !exist then (PrefixMatch, p[..loc + 1])
      else (Match, p)
  }

  /** "%" goes out as Equal("%") as written, which only the literal string "%" satisfies; corrected it is a prefix match on "". */
  lemma PercentPatternCounterexample()
    ensures LastNotWildcard("%") == -1
    ensures TranslatePatternMatch("%") == (PrefixMatch, "")
  {
    assert Unescaped("%", 0);
  }

  // ---------------------------------------------------------------------
  // SchemaHelper

  /** SchemaHelper: the fields, name and id lookup tables, and the key-field offsets. */
  datatype SchemaHelper = SchemaHelper(
    fields: seq<FieldSchema>,
    nameOffset: map<string, int>,
    idOffset: map<int, int>,
    primaryKeyOffset: int,
    partitionKeyOffset: int)

  /** The lookup tables point into the field list at fields of the right name and id. */
  predicate HelperValid(h: SchemaHelper)
  {
    && (forall n | n in h.nameOffset :: 0 <= h.nameOffset[n] < |h.fields| && h.fields[h.nameOffset[n]].name == n)
    && (forall id | id in h.idOffset :: 0 <= h.idOffset[id] < |h.fields| && h.fields[h.idOffset[id]].fieldId == id)
    && -1 <= h.primaryKeyOffset < |h.fields|
    && -1 <= h.partitionKeyOffset < |h.fields|
  }

  /** names maps the name of each of the first n fields to its index, and holds nothing else. */
  predicate NamesIndexed(fs: seq<FieldSchema>, n: int, names: map<string, int>)
    requires 0 <= n <= |fs|
  {
    && (forall k | 0 <= k < n :: fs[k].name in names && names[fs[k].name] == k)
    && (forall nm | nm in names :: 0 <= names[nm] < n && fs[names[nm]].name == nm)
  }

  /** ids maps the id of each of the first n fields to the last index carrying it. */
  predicate IdsIndexed(fs: seq<FieldSchema>, n: int, ids: map<int, int>)
    requires 0 <= n <= |fs|
  {
    && (forall k | 0 <= k < n :: fs[k].fieldId in ids && ids[fs[k].fieldId] >= k)
    && (forall id | id in ids :: 0 <= ids[id] < n && fs[ids[id]].fieldId == id)
  }

  /** pk is the index of a primary key among the first n fields, or -1 when there is none. */
  predicate PkIndexed(fs: seq<FieldSchema>, n: int, pk: int)
    requires 0 <= n <= |fs|
  {
    -1 <= pk < n && (pk == -1 <==> forall k | 0 <= k < n :: !fs[k].isPrimaryKey) && (pk >= 0 ==> fs[pk].isPrimaryKey)
  }

  /** part is the index of a partition key among the first n fields, or -1 when there is none. */
  predicate PartIndexed(fs: seq<FieldSchema>, n: int, part: int)
    requires 0 <= n <= |fs|
  {
    -1 <= part < n && (part == -1 <==> forall k | 0 <= k < n :: !fs[k].isPartitionKey) && (part >= 0 ==> fs[part].isPartitionKey)
  }

  /** The four tables of h describe the first n fields. */
  predicate Indexed(fs: seq<FieldSchema>, n: int, h: SchemaHelper)
    requires 0 <= n <= |fs|
  {
    && NamesIndexed(fs, n, h.nameOffset) && IdsIndexed(fs, n, h.idOffset)
    && PkIndexed(fs, n, h.primaryKeyOffset) && PartIndexed(fs, n, h.partitionKeyOffset)
  }

  /** The table updates for field f at offset i. */
  function Register(h: SchemaHelper, f: FieldSchema, i: int): SchemaHelper
  {
    h.(nameOffset := h.nameOffset[f.name := i],
       idOffset := h.idOffset[f.fieldId := i],
       primaryKeyOffset := if f.isPrimaryKey then i else h.primaryKeyOffset,
       partitionKeyOffset := if f.isPartitionKey then i else h.partitionKeyOffset)
  }

  /** Registering field n extends all four tables by one field. */
  lemma IndexedStep(fs: seq<FieldSchema>, n: int, h: SchemaHelper)
    requires 0 <= n < |fs| && Indexed(fs, n, h) && fs[n].name !in h.nameOffset
    ensures Indexed(fs, n + 1, Register(h, fs[n], n))
  {
    var r := Register(h, fs[n], n);
    NamesStep(fs, n, h.nameOffset);
    IdsStep(fs, n, h.idOffset);
    KeysStep(fs, n, h.primaryKeyOffset, h.partitionKeyOffset);
    assert r.nameOffset == h.nameOffset[fs[n].name := n];
    assert r.idOffset == h.idOffset[fs[n].fieldId := n];
  }

  lemma NamesStep(fs: seq<FieldSchema>, n: int, names: map<string, int>)
    requires 0 <= n < |fs| && NamesIndexed(fs, n, names) && fs[n].name !in names
    ensures NamesIndexed(fs, n + 1, names[fs[n].name := n])
  {
  }

  lemma IdsStep(fs: seq<FieldSchema>, n: int, ids: map<int, int>)
    requires 0 <= n < |fs| && IdsIndexed(fs, n, ids)
    ensures IdsIndexed(fs, n + 1, ids[fs[n].fieldId := n])
  {
  }

  lemma KeysStep(fs: seq<FieldSchema>, n: int, pk: int, part: int)
    requires 0 <= n < |fs| && PkIndexed(fs, n, pk) && PartIndexed(fs, n, part)
    ensures PkIndexed(fs, n + 1, if fs[n].isPrimaryKey then n else pk)
    ensures PartIndexed(fs, n + 1, if fs[n].isPartitionKey then n else part)
  {
  }

  /**
   * What CreateSchemaHelper accepts among the first n fields: distinct names,
   * at most one primary key, and no partition key on or after a primary key.
   */
  predicate HelperAccepts(fs: seq<FieldSchema>, n: int)
    requires 0 <= n <= |fs|
  {
    && (forall i, j | 0 <= i < j < n ::
          fs[i].name != fs[j].name && !(fs[i].isPrimaryKey && fs[j].isPrimaryKey)
          && !(fs[i].isPrimaryKey && fs[j].isPartitionKey))
    && (forall i | 0 <= i < n :: !(fs[i].isPrimaryKey && fs[i].isPartitionKey))
  }

  /**
   * The helper CreateSchemaHelper holds after the first n fields (as written):
   * a repeated name, a second primary key, or a partition key once a primary
   * key is registered (this field included) throws, here None.
   */
  function HelperPrefix(fs: seq<FieldSchema>, n: nat): Option<SchemaHelper>
    requires n <= |fs|
    decreases n
  {
    if n == 0 then Some(SchemaHelper(fs, map[], map[], -1, -1))
    else
      var prev := HelperPrefix(fs, n - 1);
      var f := fs[n - 1];
      if prev.None? || f.name in prev.value.nameOffset then None
      else if f.isPrimaryKey && prev.value.primaryKeyOffset != -1 then None
      else if f.isPartitionKey && (f.isPrimaryKey || prev.value.primaryKeyOffset != -1) then None
      else Some(Register(prev.value, f, n - 1))
  }

  /** Once the helper has thrown, later fields do not bring it back. */
  lemma {:induction false} HelperPrefixStaysNone(fs: seq<FieldSchema>, i: nat, n: nat)
    requires i <= n <= |fs| && HelperPrefix(fs, i).None?
    ensures HelperPrefix(fs, n).None?
    decreases n - i
  {
    if i < n {
      HelperPrefixStaysNone(fs, i + 1, n);
    }
  }

  /** The helper's tables index the fields it has registered, and it points at the whole schema. */
  lemma {:induction false} HelperPrefixTables(fs: seq<FieldSchema>, n: nat, r: Option<SchemaHelper>)
    requires n <= |fs| && r == HelperPrefix(fs, n) && r.Some?
    ensures r.value.fields == fs && Indexed(fs, n, r.value)
    decreases n
  {
    if n > 0 {
      var prev := HelperPrefix(fs, n - 1);
      assert prev.Some? && r.value == Register(prev.value, fs[n - 1], n - 1);
      HelperPrefixTables(fs, n - 1, prev);
      IndexedStep(fs, n - 1, prev.value);
    }
  }

  lemma AcceptsShrinks(fs: seq<FieldSchema>, n: int)
    requires 0 < n <= |fs| && HelperAccepts(fs, n)
    ensures HelperAccepts(fs, n - 1)
  {
  }

  /** One offending pair among the first n fields is enough to refuse them. */
  lemma RejectPair(fs: seq<FieldSchema>, i: int, n: int)
    requires 0 <= i < n - 1 && n <= |fs|
    requires fs[i].name == fs[n - 1].name || (fs[i].isPrimaryKey && fs[n - 1].isPrimaryKey)
             || (fs[i].isPrimaryKey && fs[n - 1].isPartitionKey)
    ensures !HelperAccepts(fs, n)
  {
  }

  /** A field that clears the three checks extends an accepted prefix by one. */
  lemma AcceptsStep(fs: seq<FieldSchema>, n: int, names: map<string, int>, pk: int)
    requires 0 < n <= |fs| && HelperAccepts(fs, n - 1)
    requires NamesIndexed(fs, n - 1, names) && PkIndexed(fs, n - 1, pk)
    requires fs[n - 1].name !in names
    requires !(fs[n - 1].isPrimaryKey && pk != -1)
    requires !(fs[n - 1].isPartitionKey && (fs[n - 1].isPrimaryKey || pk != -1))
    ensures HelperAccepts(fs, n)
  {
    forall i | 0 <= i < n - 1
      ensures fs[i].name != fs[n - 1].name && !(fs[i].isPrimaryKey && fs[n - 1].isPrimaryKey)
              && !(fs[i].isPrimaryKey && fs[n - 1].isPartitionKey)
    {
      assert fs[i].name in names;
    }
  }

  /** CreateSchemaHelper succeeds exactly on the schemas HelperAccepts describes. */
  lemma {:induction false} HelperPrefixAccepts(fs: seq<FieldSchema>, n: nat)
    requires n <= |fs|
    ensures HelperPrefix(fs, n).Some? <==> HelperAccepts(fs, n)
    decreases n
  {
    if n > 0 {
      HelperPrefixAccepts(fs, n - 1);
      var prev := HelperPrefix(fs, n - 1);
      if prev.None? {
        if HelperAccepts(fs, n) {
          AcceptsShrinks(fs, n);
        }
      } else {
        HelperPrefixTables(fs, n - 1, prev);
        var h := prev.value;
        var f := fs[n - 1];
        if f.name in h.nameOffset {
          RejectPair(fs, h.nameOffset[f.name], n);
        } else if f.isPrimaryKey && h.primaryKeyOffset != -1 {
          RejectPair(fs, h.primaryKeyOffset, n);
        } else if f.isPartitionKey && (f.isPrimaryKey || h.primaryKeyOffset != -1) {
          if h.primaryKeyOffset != -1 {
            RejectPair(fs, h.primaryKeyOffset, n);
          }
        } else {
          AcceptsStep(fs, n, h.nameOffset, h.primaryKeyOffset);
        }
      }
    }
  }

  /**
   * CreateSchemaHelper (as written): index every field by name and by id (a
   * later id overwrites an earlier one), remember the primary-key and
   * partition-key offsets. The partition-key check tests the primary-key
   * offset, so a partition key on or after the primary key is refused.
   */
  method CreateSchemaHelper(fs: seq<FieldSchema>) returns (r: Option<SchemaHelper>)
    ensures r == HelperPrefix(fs, |fs|)
    ensures r.Some? <==> HelperAccepts(fs, |fs|)
    ensures r.Some? ==> HelperValid(r.value) && r.value.fields == fs && Indexed(fs, |fs|, r.value)
  {
    var h := SchemaHelper(fs, map[], map[], -1, -1);
    var i := 0;
    while i < |fs|
      invariant 0 <= i <= |fs| && HelperPrefix(fs, i) == Some(h)
    {
      var f := fs[i];
      if f.name in h.nameOffset
         || (f.isPrimaryKey && h.primaryKeyOffset != -1)
         || (f.isPartitionKey && (f.isPrimaryKey || h.primaryKeyOffset != -1))
      {
        HelperPrefixStaysNone(fs, i + 1, |fs|);
        HelperPrefixAccepts(fs, |fs|);
        return None;
      }
      h := Register(h, f, i);
      i := i + 1;
    }
    r := Some(h);
    HelperPrefixAccepts(fs, |fs|);
    HelperPrefixTables(fs, |fs|, r);
  }

  /**
   * The helper built the way the partition-key branch evidently means: its
   * check is on the partition-key offset, refusing a second partition key.
   */
  function BuildHelper(fs: seq<FieldSchema>, n: nat): Option<SchemaHelper>
    requires n <= |fs|
    decreases n
  {
    if n == 0 then Some(SchemaHelper(fs, map[], map[], -1, -1))
    else
      var prev := BuildHelper(fs, n - 1);
      var f := fs[n - 1];
      if prev.None? || f.name in prev.value.nameOffset then None
      else if f.isPrimaryKey && prev.value.primaryKeyOffset != -1 then None
      else if f.isPartitionKey && prev.value.partitionKeyOffset != -1 then None
      else Some(Register(prev.value, f, n - 1))
  }

  /** The corrected helper's tables index the fields the way CreateSchemaHelper's do. */
  lemma {:induction false} BuildHelperTables(fs: seq<FieldSchema>, n: nat, r: Option<SchemaHelper>)
    requires n <= |fs| && r == BuildHelper(fs, n) && r.Some?
    ensures r.value.fields == fs && Indexed(fs, n, r.value)
    decreases n
  {
    if n > 0 {
      var prev := BuildHelper(fs, n - 1);
      assert prev.Some? && r.value == Register(prev.value, fs[n - 1], n - 1);
      BuildHelperTables(fs, n - 1, prev);
      IndexedStep(fs, n - 1, prev.value);
    }
  }

  /** What the corrected check accepts: distinct names, at most one primary key, at most one partition key. */
  predicate FixedAccepts(fs: seq<FieldSchema>, n: int)
    requires 0 <= n <= |fs|
  {
    forall i, j | 0 <= i < j < n ::
      fs[i].name != fs[j].name && !(fs[i].isPrimaryKey && fs[j].isPrimaryKey)
      && !(fs[i].isPartitionKey && fs[j].isPartitionKey)
  }

  lemma FixedAcceptsShrinks(fs: seq<FieldSchema>, n: int)
    requires 0 < n <= |fs| && FixedAccepts(fs, n)
    ensures FixedAccepts(fs, n - 1)
  {
  }

  lemma FixedRejectPair(fs: seq<FieldSchema>, i: int, n: int)
    requires 0 <= i < n - 1 && n <= |fs|
    requires fs[i].name == fs[n - 1].name || (fs[i].isPrimaryKey && fs[n - 1].isPrimaryKey)
             || (fs[i].isPartitionKey && fs[n - 1].isPartitionKey)
    ensures !FixedAccepts(fs, n)
  {
  }

  lemma FixedAcceptsStep(fs: seq<FieldSchema>, n: int, names: map<string, int>, pk: int, part: int)
    requires 0 < n <= |fs| && FixedAccepts(fs, n - 1)
    requires NamesIndexed(fs, n - 1, names) && PkIndexed(fs, n - 1, pk) && PartIndexed(fs, n - 1, part)
    requires fs[n - 1].name !in names
    requires !(fs[n - 1].isPrimaryKey && pk != -1)
    requires !(fs[n - 1].isPartitionKey && part != -1)
    ensures FixedAccepts(fs, n)
  {
    forall i | 0 <= i < n - 1
      ensures fs[i].name != fs[n - 1].name && !(fs[i].isPrimaryKey && fs[n - 1].isPrimaryKey)
              && !(fs[i].isPartitionKey && fs[n - 1].isPartitionKey)
    {
      assert fs[i].name in names;
    }
  }

  /** The corrected helper exists exactly for the schemas FixedAccepts describes. */
  lemma {:induction false} BuildHelperAccepts(fs: seq<FieldSchema>, n: nat)
    requires n <= |fs|
    ensures BuildHelper(fs, n).Some? <==> FixedAccepts(fs, n)
    decreases n
  {
    if n > 0 {
      BuildHelperAccepts(fs, n - 1);
      var prev := BuildHelper(fs, n - 1);
      if prev.None? {
        if FixedAccepts(fs, n) {
          FixedAcceptsShrinks(fs, n);
        }
      } else {
        BuildHelperTables(fs, n - 1, prev);
        var h := prev.value;
        var f := fs[n - 1];
        if f.name in h.nameOffset {
          FixedRejectPair(fs, h.nameOffset[f.name], n);
        } else if f.isPrimaryKey && h.primaryKeyOffset != -1 {
          FixedRejectPair(fs, h.primaryKeyOffset, n);
        } else if f.isPartitionKey && h.partitionKeyOffset != -1 {
          FixedRejectPair(fs, h.partitionKeyOffset, n);
        } else {
          FixedAcceptsStep(fs, n, h.nameOffset, h.primaryKeyOffset, h.partitionKeyOffset);
        }
      }
    }
  }

  /** A primary key followed by a partition key: refused as written, accepted by the corrected check. */
  lemma PartitionAfterPrimaryCounterexample(pk: FieldSchema, part: FieldSchema)
    requires pk.isPrimaryKey && !pk.isPartitionKey && part.isPartitionKey && !part.isPrimaryKey
    requires pk.name != part.name
    ensures !HelperAccepts([pk, part], 2) && HelperPrefix([pk, part], 2).None?
    ensures BuildHelper([pk, part], 2).Some?
  {
    var fs := [pk, part];
    assert fs[0] == pk && fs[1] == part;
    HelperPrefixAccepts(fs, 2);
    BuildHelperAccepts(fs, 2);
  }

  /** The first dynamic JSON field at or after position i. */
  function DefaultJSONFieldFrom(fs: seq<FieldSchema>, i: nat): (r: Option<int>)
    ensures r.Some? ==> i <= r.value < |fs| && fs[r.value].dataType == JSON && fs[r.value].isDynamic
    ensures r.Some? ==> forall k | i <= k < r.value :: !(fs[k].dataType == JSON && fs[k].isDynamic)
    ensures r.None? ==> forall k | i <= k < |fs| :: !(fs[k].dataType == JSON && fs[k].isDynamic)
    decreases |fs| - i
  {
    if i >= |fs| then None
    else if fs[i].dataType == JSON && fs[i].isDynamic then Some(i)
    else DefaultJSONFieldFrom(fs, i + 1)
  }

  /** GetDefaultJSONField: the first dynamic JSON field, or the exception (None). */
  method GetDefaultJSONField(fs: seq<FieldSchema>) returns (r: Option<int>)
    ensures r == DefaultJSONFieldFrom(fs, 0)
    ensures r.Some? ==> 0 <= r.value < |fs| && fs[r.value].dataType == JSON && fs[r.value].isDynamic
    ensures r.Some? ==> forall k | 0 <= k < r.value :: !(fs[k].dataType == JSON && fs[k].isDynamic)
    ensures r.None? ==> forall k | 0 <= k < |fs| :: !(fs[k].dataType == JSON && fs[k].isDynamic)
  {
    var i := 0;
    while i < |fs|
      invariant 0 <= i <= |fs|
      invariant DefaultJSONFieldFrom(fs, i) == DefaultJSONFieldFrom(fs, 0)
    {
      if fs[i].dataType == JSON && fs[i].isDynamic {
        return Some(i);
      }
      i := i + 1;
    }
    return None;
  }

  /**
   * GetFieldFromNameDefaultJSON: the field registered under the name, or else
   * the dynamic JSON field; None when neither exists.
   */
  function GetFieldFromNameDefaultJSON(h: SchemaHelper, name: string): (r: Option<FieldSchema>)
    requires HelperValid(h)
    ensures name in h.nameOffset ==> r == Some(h.fields[h.nameOffset[name]]) && r.value.name == name
    ensures name !in h.nameOffset && r.Some? ==> r.value.dataType == JSON && r.value.isDynamic && r.value in h.fields
    ensures name !in h.nameOffset && r.None? ==> forall k | 0 <= k < |h.fields| :: !(h.fields[k].dataType == JSON && h.fields[k].isDynamic)
  {
    if name in h.nameOffset then Some(h.fields[h.nameOffset[name]])
    else
      var k := DefaultJSONFieldFrom(h.fields, 0);
      if k.None? then None else Some(h.fields[k.value])
  }

  // ---------------------------------------------------------------------
  // HandleCompare

  /** The comparison tokens of the grammar. */
  datatype CmpToken = LT | LE | GT | GE | EQ | NE | OtherToken

  /** cmpOpMap[op]: operator[] default-constructs Invalid for a token it does not list. */
  function CmpOp(t: CmpToken): (op: OpType)
    ensures t != OtherToken <==> IsComparison(op)
  {
    match t
    case LT => LessThan
    case LE => LessEqual
    case GT => GreaterThan
    case GE => GreaterEqual
    case EQ => Equal
    case NE => NotEqual
    case OtherToken => Invalid
  }

  /**
   * handleCompareRightValue: the constant b is cast to a's column type (an
   * array's element type when a indexes into it) and becomes a unary range on
   * a's column; against an arithmetic node the pair goes to
   * handleBinaryArithExpr, left abstract as ArithCompareExpr.
   */
  function HandleCompareRightValue(op: OpType, a: Typed, b: Typed): (r: Option<Expr>)
    requires b.expr.ValueExpr?
    ensures r.Some? ==> CastValue(if a.dtype == Array && a.expr.ColumnExpr? && |a.expr.info.nestedPath| != 0
                                   then a.expr.info.elementType else a.dtype, b.expr.value).Some?
    ensures a.expr.ColumnExpr? && r.Some? ==> r.value.UnaryRangeExpr? && r.value.op == op && r.value.column == a.expr.info
    ensures !a.expr.ColumnExpr? && !a.expr.BinaryArithExpr? ==> r.None?
  {
    var dtype := if a.dtype == Array && a.expr.ColumnExpr? && |a.expr.info.nestedPath| != 0
                 then a.expr.info.elementType else a.dtype;
    var cast := CastValue(dtype, b.expr.value);
    if cast.None? then None
    else if a.expr.BinaryArithExpr? then Some(ArithCompareExpr(op, a.expr, cast.value))
    else if a.expr.ColumnExpr? then Some(UnaryRangeExpr(op, a.expr.info, cast.value))
    else None
  }

  /**
   * HandleCompare(int op, a, b): typecheck, then a constant on the left is
   * moved to the right with the operator reversed; a constant on the right is
   * used as it is; two columns become a column comparison.
   */
  function HandleCompare(t: CmpToken, a: Typed, b: Typed): (r: Option<Expr>)
    ensures r.Some? ==> CanBeCompared(a, b)
    ensures a.expr.ValueExpr? ==> r == if CanBeCompared(a, b) then HandleCompareRightValue(ReverseOrder(CmpOp(t)), b, a) else None
    ensures !a.expr.ValueExpr? && b.expr.ValueExpr? ==> r == if CanBeCompared(a, b) then HandleCompareRightValue(CmpOp(t), a, b) else None
    ensures a.expr.ColumnExpr? && b.expr.ColumnExpr? ==>
              r == if CanBeCompared(a, b) then Some(CompareExpr(CmpOp(t), a.expr.info, b.expr.info)) else None
  {
    if !CanBeCompared(a, b) then None
    else if a.expr.ValueExpr? then HandleCompareRightValue(ReverseOrder(CmpOp(t)), b, a)
    else if b.expr.ValueExpr? then HandleCompareRightValue(CmpOp(t), a, b)
    else if a.expr.ColumnExpr? && b.expr.ColumnExpr? then Some(CompareExpr(CmpOp(t), a.expr.info, b.expr.info))
    else None
  }

  /** `c op col` and `col ReverseOrder(op) c` build the same unary range. */
  lemma HandleCompareMirror(t: CmpToken, col: Typed, c: Typed)
    requires col.expr.ColumnExpr? && c.expr.ValueExpr?
    requires CanBeCompared(col, c) && CanBeCompared(c, col)
    requires t != OtherToken
    ensures var flipped := match t
              case LT => GT case LE => GE case GT => LT case GE => LE case EQ => EQ case NE => NE case OtherToken => OtherToken;
            HandleCompare(t, c, col) == HandleCompare(flipped, col, c)
  {
  }
}
