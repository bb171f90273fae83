// The semantic actions of the filter-expression visitor (src/parser/parser.h):
// column resolution for plain and bracketed identifiers, folding of boolean
// and arithmetic constants, ranges, `in` lists and array literals.
module PlanVisitor {
  import opened Wrappers
  import opened Schema
  import opened PlanUtils
  import Tokenizer
  import StringUtil

  // ---------------------------------------------------------------------
  // Constants inside expressions

  /**
   * What extractValue puts into its std::any: the constant of a value node,
   * or a null pointer. A null pointer still counts as a value (has_value()
   * holds), it just matches none of the constant kinds.
   */
  datatype Extracted = ExBool(b: bool) | ExDouble(d: real) | ExString(s: string) | ExInt(i: int) | ExNull

  /** extractValue: the first of bool, float, string, int64 that the value node holds. */
  function ExtractValue(e: Expr): (r: Extracted)
    ensures !e.ValueExpr? ==> r == ExNull
    ensures r.ExInt? <==> e.ValueExpr? && e.value.Int64Val?
    ensures r.ExDouble? <==> e.ValueExpr? && e.value.FloatVal?
  {
    match e
    case ValueExpr(v) =>
      (match v
       case BoolVal(b) => ExBool(b)
       case FloatVal(f) => ExDouble(f)
       case StringVal(s) => ExString(s)
       case Int64Val(i) => ExInt(i)
       case _ => ExNull)
    case _ => ExNull
  }

  /** The GenericValue a range or `in` list stores for an extracted constant; a null sets nothing. */
  function StoredValue(x: Extracted): (v: GenericValue)
    ensures v.NoVal? <==> x.ExNull?
  {
    match x
    case ExBool(b) => BoolVal(b)
    case ExDouble(d) => FloatVal(d)
    case ExString(s) => StringVal(s)
    case ExInt(i) => Int64Val(i)
    case ExNull => NoVal
  }

  /** A scalar constant survives being extracted and stored again. */
  lemma ExtractStoreRoundTrip(v: GenericValue)
    requires v.BoolVal? || v.FloatVal? || v.StringVal? || v.Int64Val?
    ensures StoredValue(ExtractValue(ValueExpr(v))) == v
  {
  }

  // ---------------------------------------------------------------------
  // && and ||

  /** The value of a tree of boolean constants, && , || and not. */
  function EvalBool(e: Expr): Option<bool>
  {
    match e
    case ValueExpr(BoolVal(b)) => Some(b)
    case LogicalAndExpr(l, r) =>
      (match (EvalBool(l), EvalBool(r))
       case (Some(x), Some(y)) => Some(x && y)
       case _ => None)
    case LogicalOrExpr(l, r) =>
      (match (EvalBool(l), EvalBool(r))
       case (Some(x), Some(y)) => Some(x || y)
       case _ => None)
    case NotExpr(c) => (match EvalBool(c) case Some(x) => Some(!x) case None => None)
    case _ => None
  }

  /** Both operands are boolean constants, so the visitor folds them. */
  predicate BothBoolConstants(l: Typed, r: Typed)
  {
    ExtractValue(l.expr).ExBool? && ExtractValue(r.expr).ExBool?
  }

  /** Outside the folding case both operands must be typed Bool and not be bare literals. */
  predicate LogicalOperandsOk(l: Typed, r: Typed)
  {
    !l.dependent && !r.dependent && l.dtype == Bool && r.dtype == Bool
  }

  /** visitLogicalAnd. */
  function VisitLogicalAnd(l: Typed, r: Typed): (res: Option<Typed>)
    ensures res.Some? <==> BothBoolConstants(l, r) || LogicalOperandsOk(l, r)
    ensures res.Some? ==> res.value.dtype == Bool && !res.value.dependent
    ensures BothBoolConstants(l, r) ==> res.Some? && res.value.expr.ValueExpr?
    ensures !BothBoolConstants(l, r) && res.Some? ==> res.value.expr == LogicalAndExpr(l.expr, r.expr)
  {
    var a := ExtractValue(l.expr);
    var b := ExtractValue(r.expr);
    if a.ExBool? && b.ExBool? then Some(Typed(ValueExpr(BoolVal(a.b && b.b)), Bool, false))
    else if !LogicalOperandsOk(l, r) then None
    else Some(Typed(LogicalAndExpr(l.expr, r.expr), Bool, false))
  }

  /** visitLogicalOr. */
  function VisitLogicalOr(l: Typed, r: Typed): (res: Option<Typed>)
    ensures res.Some? <==> BothBoolConstants(l, r) || LogicalOperandsOk(l, r)
    ensures res.Some? ==> res.value.dtype == Bool && !res.value.dependent
    ensures BothBoolConstants(l, r) ==> res.Some? && res.value.expr.ValueExpr?
    ensures !BothBoolConstants(l, r) && res.Some? ==> res.value.expr == LogicalOrExpr(l.expr, r.expr)
  {
    var a := ExtractValue(l.expr);
    var b := ExtractValue(r.expr);
    if a.ExBool? && b.ExBool? then Some(Typed(ValueExpr(BoolVal(a.b || b.b)), Bool, false))
    else if !LogicalOperandsOk(l, r) then None
    else Some(Typed(LogicalOrExpr(l.expr, r.expr), Bool, false))
  }

  /** Folding never changes what the expression evaluates to. */
  lemma LogicalFoldSound(l: Typed, r: Typed)
    ensures VisitLogicalAnd(l, r).Some? && EvalBool(l.expr).Some? && EvalBool(r.expr).Some? ==>
            EvalBool(VisitLogicalAnd(l, r).value.expr) == EvalBool(LogicalAndExpr(l.expr, r.expr))
    ensures VisitLogicalOr(l, r).Some? && EvalBool(l.expr).Some? && EvalBool(r.expr).Some? ==>
            EvalBool(VisitLogicalOr(l, r).value.expr) == EvalBool(LogicalOrExpr(l.expr, r.expr))
  {
  }

  // ---------------------------------------------------------------------
  // *, / and %

  datatype MulDivModToken = MulTok | DivTok | ModTok

  function ArithOf(t: MulDivModToken): ArithOp
  {
    match t case MulTok => Mul case DivTok => Div case ModTok => Mod
  }

  function Abs(x: int): nat { if x < 0 then -x else x }

  /** C++ integer division: the quotient truncated toward zero. */
  function TDiv(a: int, b: int): int
    requires b != 0
  {
    if (a < 0) == (b < 0) then Abs(a) / Abs(b) else -(Abs(a) / Abs(b))
  }

  /** C++ %: the remainder takes the sign of the dividend. */
  function TMod(a: int, b: int): int
    requires b != 0
  {
    if a < 0 then -(Abs(a) % Abs(b)) else Abs(a) % Abs(b)
  }

  /** Truncating division and remainder recombine to the dividend, with |a % b| < |b|. */
  lemma TruncatingDivision(a: int, b: int)
    requires b != 0
    ensures TDiv(a, b) * b + TMod(a, b) == a
    ensures Abs(TMod(a, b)) < Abs(b)
  {
    var bb := Abs(b);
    var q := Abs(a) / bb;
    var m := Abs(a) % bb;
    assert Abs(a) == q * bb + m && 0 <= m < bb;
    var d := TDiv(a, b);
    var sign := if (a < 0) == (b < 0) then 1 else -1;
    assert d == sign * q;
    assert b == (if b < 0 then -1 else 1) * bb;
    SignedProduct(q, bb, sign, if b < 0 then -1 else 1);
    assert d * b == sign * (if b < 0 then -1 else 1) * (q * bb);
  }

  lemma SignedProduct(x: int, y: int, s: int, t: int)
    requires s == 1 || s == -1
    requires t == 1 || t == -1
    ensures (s * x) * (t * y) == s * t * (x * y)
  {
  }

  /** Numbers an arithmetic tree over constants evaluates to. */
  datatype Num = IntNum(i: int) | RealNum(r: real)

  /** Double multiplication and division, without rounding. */
  function Times(x: real, y: real): real { x * y }
  function Over(x: real, y: real): real requires y != 0.0 { x / y }

  function AsReal(x: Num): real
  {
    match x case IntNum(i) => i as real case RealNum(r) => r
  }

  /**
   * C++ arithmetic on two constants: int64 with int64 stays integral and
   * truncates; any double operand makes the operation double. A zero divisor
   * and % on a double have no result.
   */
  function Arith(op: ArithOp, x: Num, y: Num): Option<Num>
  {
    if x.IntNum? && y.IntNum? then
      match op
      case Add => Some(IntNum(x.i + y.i))
      case Sub => Some(IntNum(x.i - y.i))
      case Mul => Some(IntNum(x.i * y.i))
      case Div => if y.i == 0 then None else Some(IntNum(TDiv(x.i, y.i)))
      case Mod => if y.i == 0 then None else Some(IntNum(TMod(x.i, y.i)))
    else
      var a := AsReal(x);
      var b := AsReal(y);
      match op
      case Add => Some(RealNum(a + b))
      case Sub => Some(RealNum(a - b))
      case Mul => Some(RealNum(Times(a, b)))
      case Div => if b == 0.0 then None else Some(RealNum(Over(a, b)))
      case Mod => None
  }

  /** The value of an arithmetic tree over int64 and double constants. */
  function EvalNum(e: Expr): Option<Num>
  {
    match e
    case ValueExpr(Int64Val(i)) => Some(IntNum(i))
    case ValueExpr(FloatVal(f)) => Some(RealNum(f))
    case BinaryArithExpr(op, l, r) =>
      (match (EvalNum(l), EvalNum(r))
       case (Some(x), Some(y)) => Arith(op, x, y)
       case _ => None)
    case _ => None
  }

  /** What folding two constants gives: no folding, the exception, or a new constant. */
  datatype Fold = Unfolded | FoldError | Folded(t: Typed)

  function DoubleConst(d: real): Typed { Typed(ValueExpr(FloatVal(d)), Double, false) }
  function IntConst(i: int): Typed { Typed(ValueExpr(Int64Val(i)), Int64, false) }

  /**
   * The constant folding at the head of visitMulDivMod. With `intTimesDouble`
   * set, an int64 divided by a double folds to their product, as the source
   * does; with it clear the int64 is divided by the double.
   */
  function FoldConstants(intTimesDouble: bool, op: MulDivModToken, a: Extracted, b: Extracted): (r: Fold)
    ensures r.Unfolded? <==> !(a.ExInt? || a.ExDouble?) || !(b.ExInt? || b.ExDouble?)
    ensures r.Folded? ==> !r.t.dependent && (r.t.dtype == Int64 <==> a.ExInt? && b.ExInt?)
    ensures r.Folded? ==> r.t.expr.ValueExpr? && (r.t.dtype == Int64 || r.t.dtype == Double)
    ensures op == MulTok ==> !r.FoldError?
    ensures op == ModTok && (a.ExDouble? || b.ExDouble?) ==> !r.Folded?
    ensures r.FoldError? && op == DivTok ==> (b.ExInt? && b.i == 0) || (b.ExDouble? && b.d == 0.0)
  {
    if a.ExDouble? && b.ExDouble? then
      match op
      case MulTok => Folded(DoubleConst(Times(a.d, b.d)))
      case DivTok => if b.d == 0.0 then FoldError else Folded(DoubleConst(Over(a.d, b.d)))
      case ModTok => FoldError
    else if a.ExInt? && b.ExInt? then
      match op
      case MulTok => Folded(IntConst(a.i * b.i))
      case DivTok => if b.i == 0 then FoldError else Folded(IntConst(TDiv(a.i, b.i)))
      case ModTok => if b.i == 0 then FoldError else Folded(IntConst(TMod(a.i, b.i)))
    else if a.ExDouble? && b.ExInt? then
      match op
      case MulTok => Folded(DoubleConst(Times(a.d, b.i as real)))
      case DivTok => if b.i == 0 then FoldError else Folded(DoubleConst(Over(a.d, b.i as real)))
      case ModTok => FoldError
    else if a.ExInt? && b.ExDouble? then
      match op
      case MulTok => Folded(DoubleConst(Times(a.i as real, b.d)))
      case DivTok =>
        if intTimesDouble then Folded(DoubleConst(Times(a.i as real, b.d)))
        else if b.d == 0.0 then FoldError
        else Folded(DoubleConst(Over(a.i as real, b.d)))
      case ModTok => FoldError
    else Unfolded
  }

  /** A column operand of arithmetic may be neither an array nor a path into JSON. */
  predicate PlainColumnOperand(e: Expr)
  {
    e.ColumnExpr? ==> e.info.dataType != Array && |e.info.nestedPath| == 0
  }

  /** The array checks of visitMulDivMod, in the order the source applies them. */
  predicate ArrayOperandsOk(l: Typed, r: Typed)
  {
    && (l.dtype == Array ==>
          if r.dtype == Array then CanArithmeticDtype(GetArrayElementType(l.expr), GetArrayElementType(r.expr))
          else ArithmeticDtype(l.dtype) && CanArithmeticDtype(GetArrayElementType(l.expr), r.dtype))
    && (r.dtype == Array ==> ArithmeticDtype(l.dtype) && CanArithmeticDtype(l.dtype, GetArrayElementType(r.expr)))
  }

  /** visitMulDivMod, with the folding of int64-by-double division chosen by the flag. */
  function VisitMulDivModWith(intTimesDouble: bool, op: MulDivModToken, l: Typed, r: Typed): (res: Option<Typed>)
    ensures FoldConstants(intTimesDouble, op, ExtractValue(l.expr), ExtractValue(r.expr)).Unfolded? && res.Some? ==>
              && ArithmeticDtype(l.dtype) && ArithmeticDtype(r.dtype)
              && res.value == Typed(BinaryArithExpr(ArithOf(op), l.expr, r.expr), CalDataType(l.dtype, r.dtype).value, false)
    ensures res.Some? ==> !res.value.dependent && ArithmeticDtype(res.value.dtype)
  {
    match FoldConstants(intTimesDouble, op, ExtractValue(l.expr), ExtractValue(r.expr))
    case Folded(t) => Some(t)
    case FoldError => None
    case Unfolded =>
      if !PlainColumnOperand(l.expr) || !PlainColumnOperand(r.expr) then None
      else if !ArrayOperandsOk(l, r) then None
      else if !(ArithmeticDtype(l.dtype) && ArithmeticDtype(r.dtype) && CanArithmeticDtype(l.dtype, r.dtype)) then None
      else Some(Typed(BinaryArithExpr(ArithOf(op), l.expr, r.expr), CalDataType(l.dtype, r.dtype).value, false))
  }

  /** visitMulDivMod as the source has it: int64 / double folds to the product. */
  function VisitMulDivModAsWritten(op: MulDivModToken, l: Typed, r: Typed): Option<Typed>
  {
    VisitMulDivModWith(true, op, l, r)
  }

  /** visitMulDivMod with int64 / double folding to the quotient. */
  function VisitMulDivMod(op: MulDivModToken, l: Typed, r: Typed): Option<Typed>
  {
    VisitMulDivModWith(false, op, l, r)
  }

  /** Two int64 constants fold to the int64 constant C++ computes, for *, / and %. */
  lemma IntConstantsFold(op: MulDivModToken, x: int, y: int)
    requires op == MulTok || y != 0
    ensures VisitMulDivMod(op, IntConst(x), IntConst(y)) ==
            Some(IntConst(match op case MulTok => x * y case DivTok => TDiv(x, y) case ModTok => TMod(x, y)))
  {
  }

  /** Folding with the corrected rule produces the value the unfolded arithmetic has. */
  lemma MulDivModFoldSound(op: MulDivModToken, l: Typed, r: Typed)
    requires VisitMulDivMod(op, l, r).Some?
    ensures EvalNum(VisitMulDivMod(op, l, r).value.expr) == EvalNum(BinaryArithExpr(ArithOf(op), l.expr, r.expr))
  {
    var a := ExtractValue(l.expr);
    var b := ExtractValue(r.expr);
    if a.ExInt? && b.ExInt? {
      assert EvalNum(l.expr) == Some(IntNum(a.i)) && EvalNum(r.expr) == Some(IntNum(b.i));
    } else if a.ExDouble? && b.ExInt? {
      assert EvalNum(l.expr) == Some(RealNum(a.d)) && EvalNum(r.expr) == Some(IntNum(b.i));
      assert AsReal(IntNum(b.i)) == b.i as real;
      assert (b.i as real == 0.0) <==> b.i == 0;
    } else if a.ExInt? && b.ExDouble? {
      assert EvalNum(l.expr) == Some(IntNum(a.i)) && EvalNum(r.expr) == Some(RealNum(b.d));
    } else if a.ExDouble? && b.ExDouble? {
      assert l.expr == ValueExpr(FloatVal(a.d)) && r.expr == ValueExpr(FloatVal(b.d));
      assert EvalNum(l.expr) == Some(RealNum(a.d)) && EvalNum(r.expr) == Some(RealNum(b.d));

    }
  }

  /** As written, 1 / 2.0 folds to 2.0, while the division it stands for is 0.5. */
  lemma IntByDoubleFoldCounterexample()
    ensures VisitMulDivModAsWritten(DivTok, IntConst(1), DoubleConst(2.0)) == Some(DoubleConst(2.0))
    ensures EvalNum(BinaryArithExpr(Div, ValueExpr(Int64Val(1)), ValueExpr(FloatVal(2.0)))) == Some(RealNum(0.5))
    ensures VisitMulDivMod(DivTok, IntConst(1), DoubleConst(2.0)) == Some(DoubleConst(0.5))
  {
  }

  /**
   * Outside constant folding, arithmetic needs both operand types arithmetic:
   * a JSON or array operand is always rejected, although canArithmeticDtype
   * admits JSON with a number.
   */
  lemma ArithmeticNeedsNumbers(op: MulDivModToken, l: Typed, r: Typed)
    requires !l.expr.ValueExpr? && (l.dtype == JSON || l.dtype == Array)
    ensures VisitMulDivMod(op, l, r).None?
  {
  }

  // ---------------------------------------------------------------------
  // Identifiers

  /** The ColumnInfo the visitor fills from a schema field and a nested path. */
  function ColumnOf(f: FieldSchema, path: seq<string>): (c: ColumnInfo)
    ensures c.fieldId == f.fieldId && c.dataType == f.dataType && c.nestedPath == path
  {
    ColumnInfo(f.fieldId, f.dataType, f.isPrimaryKey, f.autoId, path, f.elementType)
  }

  /**
   * The column a plain identifier names: its own field, or the dynamic JSON
   * field with the identifier as the one nested key. A JSON field without a
   * key is rejected.
   */
  function IdentifierColumn(h: SchemaHelper, text: string): (r: Option<ColumnInfo>)
    requires HelperValid(h)
    ensures text in h.nameOffset ==>
              var f := h.fields[h.nameOffset[text]];
              r == if f.dataType == JSON then None else Some(ColumnOf(f, []))
    ensures text !in h.nameOffset && r.Some? ==> r.value.dataType == JSON && r.value.nestedPath == [text]
    ensures text !in h.nameOffset && r.None? ==>
              var d := DefaultJSONFieldFrom(h.fields, 0);
              d.None? || h.fields[d.value].name == text
  {
    match GetFieldFromNameDefaultJSON(h, text)
    case None => None
    case Some(f) =>
      var path := if f.name != text then [text] else [];
      if f.dataType == JSON && path == [] then None else Some(ColumnOf(f, path))
  }

  /** visitIdentifier. */
  function VisitIdentifier(h: SchemaHelper, text: string): (r: Option<Typed>)
    requires HelperValid(h)
    ensures r.Some? <==> IdentifierColumn(h, text).Some?
    ensures r.Some? ==> r.value == Typed(ColumnExpr(IdentifierColumn(h, text).value), IdentifierColumn(h, text).value.dataType, false)
  {
    match IdentifierColumn(h, text)
    case None => None
    case Some(info) => Some(Typed(ColumnExpr(info), info.dataType, false))
  }

  /** A name the schema does not have resolves to the dynamic JSON field, keyed by the name. */
  lemma UnknownNameIsDynamicKey(h: SchemaHelper, text: string, k: int)
    requires HelperValid(h) && text !in h.nameOffset
    requires DefaultJSONFieldFrom(h.fields, 0) == Some(k) && h.fields[k].name != text
    ensures VisitIdentifier(h, text) == Some(Typed(ColumnExpr(ColumnOf(h.fields[k], [text])), JSON, false))
  {
  }

  // ---------------------------------------------------------------------
  // Bracketed identifiers: field["key"][0]

  /**
   * One `][`-separated segment: a leading '[' and a trailing ']' are dropped,
   * then one pair of matching quotes. An empty result is rejected, and so is
   * a segment that is empty once its '[' is gone (the source then reads
   * before the start of the string).
   */
  function StripSegment(p: string): (r: Option<string>)
    ensures r.Some? ==> 0 < |r.value| <= |p|
  {
    var p1 := if |p| > 0 && p[0] == '[' then p[1..] else p;
    if |p1| == 0 then None
    else
      var p2 := if p1[|p1| - 1] == ']' then p1[..|p1| - 1] else p1;
      if p2 == "" then None
      else if (p2[0] == '"' && p2[|p2| - 1] == '"') || (p2[0] == '\'' && p2[|p2| - 1] == '\'') then
        if |p2| <= 2 then None else Some(p2[1..|p2| - 1])
      else Some(p2)
  }

  /** A key with no brackets that is not itself quoted: it passes through unchanged. */
  predicate PlainKey(k: string)
  {
    && |k| > 0 && '[' !in k && ']' !in k
    && !(k[0] == '"' && k[|k| - 1] == '"') && !(k[0] == '\'' && k[|k| - 1] == '\'')
  }

  lemma StripPlain(k: string)
    requires PlainKey(k)
    ensures StripSegment(k) == Some(k)
    ensures StripSegment("[" + k) == Some(k)
    ensures StripSegment(k + "]") == Some(k)
    ensures StripSegment("[" + k + "]") == Some(k)
  {
    assert ("[" + k)[1..] == k;
    assert (k + "]")[..|k|] == k;
    assert ("[" + k + "]")[1..] == k + "]";
  }

  /** A quoted key loses exactly its quotes. */
  lemma StripQuoted(k: string, q: char)
    requires |k| > 0 && '[' !in k && ']' !in k && (q == '"' || q == '\'')
    ensures StripSegment("[" + [q] + k + [q] + "]") == Some(k)
  {
    var p1 := ("[" + [q] + k + [q] + "]")[1..];
    assert p1 == [q] + k + [q] + "]";
    var p2 := p1[..|p1| - 1];
    assert p2 == [q] + k + [q];
    assert p2[1..|p2| - 1] == k;
  }

  /** The segments stripped one after another onto `path`, the way the loop pushes them. */
  function StripFrom(ss: seq<string>, i: nat, path: seq<string>): (r: Option<seq<string>>)
    requires i <= |ss|
    ensures r.Some? ==> |r.value| == |path| + |ss| - i && r.value[..|path|] == path
    ensures r.Some? ==> forall k | i <= k < |ss| :: StripSegment(ss[k]) == Some(r.value[|path| + k - i])
    ensures r.None? ==> exists k | i <= k < |ss| :: StripSegment(ss[k]).None?
    decreases |ss| - i
  {
    if i == |ss| then Some(path)
    else
      match StripSegment(ss[i])
      case None => None
      case Some(p) =>
        var r := StripFrom(ss, i + 1, path + [p]);
        assert r.Some? ==> r.value[..|path|] == (path + [p])[..|path|];
        r
  }

  /**
   * getChildColumnInfo: with a plain identifier, the identifier's column;
   * otherwise the field named before the first '[' (which must be JSON or an
   * array) with each stripped segment as a nested key, after the name itself
   * when it is a key of the dynamic field.
   */
  function ChildColumnInfo(h: SchemaHelper, identifier: Option<string>, child: string): (r: Option<ColumnInfo>)
    requires HelperValid(h)
    ensures identifier.Some? ==> r == IdentifierColumn(h, identifier.value)
    ensures identifier.None? && r.Some? ==> r.value.dataType == JSON || r.value.dataType == Array
  {
    if identifier.Some? then IdentifierColumn(h, identifier.value)
    else
      var k := Tokenizer.Find(child, "[", 0);
      var fieldname := if k == -1 then child else child[..k];
      match GetFieldFromNameDefaultJSON(h, fieldname)
      case None => None
      case Some(f) =>
        if !(f.dataType == JSON || f.dataType == Array) then None
        else
          var pre := if fieldname != f.name then [fieldname] else [];
          var jsonkey := child[|fieldname|..];
          match StripFrom(Tokenizer.Split(jsonkey, "]["), 0, pre)
          case None => None
          case Some(path) => Some(ColumnOf(f, path))
  }

  /** getChildColumnInfo, pushing the nested keys one segment at a time. */
  method GetChildColumnInfo(h: SchemaHelper, identifier: Option<string>, child: string) returns (r: Option<ColumnInfo>)
    requires HelperValid(h)
    ensures r == ChildColumnInfo(h, identifier, child)
  {
    if identifier.Some? {
      return IdentifierColumn(h, identifier.value);
    }
    var k := Tokenizer.Find(child, "[", 0);
    var fieldname := if k == -1 then child else child[..k];
    var field := GetFieldFromNameDefaultJSON(h, fieldname);
    if field.None? {
      return None;
    }
    var f := field.value;
    if !(f.dataType == JSON || f.dataType == Array) {
      return None;
    }
    var path := if fieldname != f.name then [fieldname] else [];
    var jsonkey := child[|fieldname|..];
    var ss := Tokenizer.Tokenize(jsonkey, "][");
    var stripped := StripSegments(ss, path);
    if stripped.None? {
      return None;
    }
    return Some(ColumnOf(f, stripped.value));
  }

  /** The loop of getChildColumnInfo: each segment stripped and pushed onto `path`, stopping at a malformed one. */
  method StripSegments(ss: seq<string>, path0: seq<string>) returns (r: Option<seq<string>>)
    ensures r == StripFrom(ss, 0, path0)
  {
    var path := path0;
    var i := 0;
    while i < |ss|
      invariant 0 <= i <= |ss|
      invariant StripFrom(ss, i, path) == StripFrom(ss, 0, path0)
    {
      var seg := StripSegment(ss[i]);
      if seg.None? {
        return None;
      }
      path := path + [seg.value];
      i := i + 1;
    }
    return Some(path);
  }

  /** `"[" + k0 + "][" + ... + kn + "]"` cut at each "][": the keys with the outer brackets still on. */
  function Bracketed(keys: seq<string>): (parts: seq<string>)
    requires |keys| > 0
    ensures |parts| == |keys|
  {
    if |keys| == 1 then ["[" + keys[0] + "]"]
    else ["[" + keys[0]] + keys[1..|keys| - 1] + [keys[|keys| - 1] + "]"]
  }

  lemma JoinPrependFirst(del: string, parts: seq<string>, a: string)
    requires |parts| > 0
    ensures StringUtil.Join(del, [a + parts[0]] + parts[1..]) == a + StringUtil.Join(del, parts)
  {
    if |parts| > 1 {
      Tokenizer.JoinCons(del, a + parts[0], parts[1..]);
      Tokenizer.JoinFirst(del, parts);
    }
  }

  lemma JoinAppendLast(del: string, parts: seq<string>, b: string)
    requires |parts| > 0
    ensures StringUtil.Join(del, parts[..|parts| - 1] + [parts[|parts| - 1] + b]) == StringUtil.Join(del, parts) + b
  {
    var q := parts[..|parts| - 1] + [parts[|parts| - 1] + b];
    assert q[..|q| - 1] == parts[..|parts| - 1];
  }

  /** The bracketed parts: a '[' before the first key, then a ']' after the last. */
  lemma BracketedInTwoSteps(keys: seq<string>, w1: seq<string>)
    requires |keys| > 0 && w1 == ["[" + keys[0]] + keys[1..]
    ensures Bracketed(keys) == w1[..|w1| - 1] + [w1[|w1| - 1] + "]"]
  {
    if |keys| > 1 {
      assert w1[..|w1| - 1] == ["[" + keys[0]] + keys[1..|keys| - 1];
      assert w1[|w1| - 1] == keys[|keys| - 1];
    }
  }

  /** Joining the bracketed parts gives back the bracketed key list. */
  lemma JoinBracketed(keys: seq<string>)
    requires |keys| > 0
    ensures StringUtil.Join("][", Bracketed(keys)) == "[" + StringUtil.Join("][", keys) + "]"
  {
    var w1 := ["[" + keys[0]] + keys[1..];
    JoinPrependFirst("][", keys, "[");
    JoinAppendLast("][", w1, "]");
    BracketedInTwoSteps(keys, w1);
  }

  /** Only the last bracketed part ends in ']', and nothing follows it there. */
  lemma BracketedSplittable(keys: seq<string>)
    requires |keys| > 0 && forall i | 0 <= i < |keys| :: PlainKey(keys[i])
    ensures var parts := Bracketed(keys);
            Tokenizer.FreeOf(parts[..|parts| - 1], ']') && Tokenizer.DelFree(parts[|parts| - 1], "][")
  {
    var parts := Bracketed(keys);
    var init := parts[..|parts| - 1];
    forall i | 0 <= i < |init| ensures ']' !in init[i] {
      if i == 0 {
        assert init[0] == "[" + keys[0];
      } else {
        assert init[i] == keys[i];
      }
    }
    var k := keys[|keys| - 1];
    var x := if |keys| == 1 then "[" + k else k;
    assert parts[|parts| - 1] == x + "]";
    ClosingBracketOnly(x);
  }

  /** A ']' at the very end cannot start "][". */
  lemma ClosingBracketOnly(x: string)
    requires ']' !in x
    ensures Tokenizer.DelFree(x + "]", "][")
  {
    var s := x + "]";
    forall j | 0 <= j <= |s| ensures !Tokenizer.OccursAt(s, "][", j) {
      if j < |x| {
        assert s[j] == x[j];
      }
    }
  }

  /** Every bracketed part strips to its key. */
  lemma StripBracketed(keys: seq<string>, pre: seq<string>)
    requires |keys| > 0 && forall i | 0 <= i < |keys| :: PlainKey(keys[i])
    ensures StripFrom(Bracketed(keys), 0, pre) == Some(pre + keys)
  {
    var parts := Bracketed(keys);
    forall i | 0 <= i < |keys| ensures StripSegment(parts[i]) == Some(keys[i]) {
      StripPlain(keys[i]);
      if |keys| > 1 && 0 < i < |keys| - 1 {
        assert parts[i] == keys[i];
      }
    }
    StripAll(parts, 0, pre, keys);
  }

  lemma {:induction false} StripAll(ss: seq<string>, i: nat, path: seq<string>, keys: seq<string>)
    requires i <= |ss| == |keys|
    requires forall k | i <= k < |ss| :: StripSegment(ss[k]) == Some(keys[k])
    ensures StripFrom(ss, i, path) == Some(path + keys[i..])
    decreases |ss| - i
  {
    if i < |ss| {
      assert StripFrom(ss, i, path) == StripFrom(ss, i + 1, path + [keys[i]]);
      StripAll(ss, i + 1, path + [keys[i]], keys);
      assert path + [keys[i]] + keys[i + 1..] == path + keys[i..];
    } else {
      assert path + keys[i..] == path;
    }
  }

  /**
   * The bracketed form of a registered JSON or array field round-trips: the
   * keys written as `name[k0][k1]...` come back as the column's nested path.
   */
  lemma BracketedPathRoundTrip(h: SchemaHelper, name: string, keys: seq<string>)
    requires HelperValid(h) && name in h.nameOffset && '[' !in name
    requires h.fields[h.nameOffset[name]].dataType in {JSON, Array}
    requires |keys| > 0 && forall i | 0 <= i < |keys| :: PlainKey(keys[i])
    ensures ChildColumnInfo(h, None, name + "[" + StringUtil.Join("][", keys) + "]") ==
            Some(ColumnOf(h.fields[h.nameOffset[name]], keys))
  {
    var jsonkey := "[" + StringUtil.Join("][", keys) + "]";
    ConcatAssoc(name, "[", StringUtil.Join("][", keys), "]");
    var f := h.fields[h.nameOffset[name]];
    FindOpenBracket(name, jsonkey);
    RegisteredName(h, name);
    SplitBracketed(keys);
    StripBracketed(keys, []);
    ChildOfRegisteredField(h, name + jsonkey, |name|, f, keys);
  }

  lemma ConcatAssoc(a: string, b: string, c: string, d: string)
    ensures a + b + c + d == a + (b + c + d)
  {
  }

  /** A registered name finds its own field. */
  lemma RegisteredName(h: SchemaHelper, name: string)
    requires HelperValid(h) && name in h.nameOffset
    ensures GetFieldFromNameDefaultJSON(h, name) == Some(h.fields[h.nameOffset[name]])
    ensures h.fields[h.nameOffset[name]].name == name
  {
  }

  /** getChildColumnInfo on a registered field's own name: the stripped segments are the path. */
  lemma ChildOfRegisteredField(h: SchemaHelper, child: string, k: int, f: FieldSchema, path: seq<string>)
    requires HelperValid(h) && 0 <= k <= |child| && Tokenizer.Find(child, "[", 0) == k
    requires GetFieldFromNameDefaultJSON(h, child[..k]) == Some(f) && f.name == child[..k]
    requires f.dataType == JSON || f.dataType == Array
    requires StripFrom(Tokenizer.Split(child[k..], "]["), 0, []) == Some(path)
    ensures ChildColumnInfo(h, None, child) == Some(ColumnOf(f, path))
  {
  }

  /** The field name ends at the first '['. */
  lemma FindOpenBracket(name: string, rest: string)
    requires '[' !in name && |rest| > 0 && rest[0] == '['
    ensures Tokenizer.Find(name + rest, "[", 0) == |name|
    ensures (name + rest)[..|name|] == name && (name + rest)[|name|..] == rest
  {
    var child := name + rest;
    forall j | 0 <= j < |name| ensures child[j] != "["[0] { assert child[j] == name[j]; }
    Tokenizer.FindSkips(child, "[", 0, |name|);
    assert Tokenizer.OccursAt(child, "[", |name|) by {
      assert child[|name|] == '[';
    }
  }

  /** Cutting the bracketed key list at each "][" gives the bracketed parts. */
  lemma SplitBracketed(keys: seq<string>)
    requires |keys| > 0 && forall i | 0 <= i < |keys| :: PlainKey(keys[i])
    ensures Tokenizer.Split("[" + StringUtil.Join("][", keys) + "]", "][") == Bracketed(keys)
  {
    JoinBracketed(keys);
    BracketedSplittable(keys);
    Tokenizer.SplitOfJoinOpenEnd("][", Bracketed(keys));
  }

  // ---------------------------------------------------------------------
  // Ranges: a < x <= b and a > x >= b

  /** The column types a range may constrain; anything else returns no expression. */
  predicate RangeColumnType(t: DType)
  {
    t in {Int8, Int16, Int32, Int64, Float, Double, Bool, String, VarChar}
  }

  /**
   * The shared tail of visitRange and visitReverseRange. None stands for both
   * ways the source gives no range: the nullptr it returns for a column type
   * it does not handle and the exception it throws for a column that does not
   * resolve.
   */
  function RangeOver(h: SchemaHelper, identifier: Option<string>, child: string,
                     lowerInclusive: bool, upperInclusive: bool, lower: Typed, upper: Typed): (r: Option<Typed>)
    requires HelperValid(h)
    ensures r.Some? <==> ChildColumnInfo(h, identifier, child).Some? && RangeColumnType(ChildColumnInfo(h, identifier, child).value.dataType)
    ensures r.Some? ==> r.value == Typed(BinaryRangeExpr(ChildColumnInfo(h, identifier, child).value, lowerInclusive, upperInclusive,
                                                       StoredValue(ExtractValue(lower.expr)), StoredValue(ExtractValue(upper.expr))),
                                         Bool, false)
  {
    match ChildColumnInfo(h, identifier, child)
    case None => None
    case Some(info) =>
      if info.dataType == Array && |info.nestedPath| == 0 then None
      else if !RangeColumnType(info.dataType) then None
      else Some(Typed(BinaryRangeExpr(info, lowerInclusive, upperInclusive,
                                      StoredValue(ExtractValue(lower.expr)), StoredValue(ExtractValue(upper.expr))),
                      Bool, false))
  }

  /** visitRange, `e0 op1 x op2 e1` with op1, op2 among < and <=: e0 is the lower bound. */
  function VisitRange(h: SchemaHelper, identifier: Option<string>, child: string,
                      op1: CmpToken, op2: CmpToken, e0: Typed, e1: Typed): Option<Typed>
    requires HelperValid(h)
  {
    RangeOver(h, identifier, child, op1 == LE, op2 == LE, e0, e1)
  }

  /**
   * visitReverseRange as written, `e0 op1 x op2 e1` with op1, op2 among > and
   * >=: e1 is the lower bound, but its inclusiveness is read from op1, the
   * operator next to e0.
   */
  function VisitReverseRangeAsWritten(h: SchemaHelper, identifier: Option<string>, child: string,
                                      op1: CmpToken, op2: CmpToken, e0: Typed, e1: Typed): Option<Typed>
    requires HelperValid(h)
  {
    RangeOver(h, identifier, child, op1 == GE, op2 == GE, e1, e0)
  }

  /** visitReverseRange with each bound's inclusiveness read from the operator beside it. */
  function VisitReverseRange(h: SchemaHelper, identifier: Option<string>, child: string,
                             op1: CmpToken, op2: CmpToken, e0: Typed, e1: Typed): Option<Typed>
    requires HelperValid(h)
  {
    RangeOver(h, identifier, child, op2 == GE, op1 == GE, e1, e0)
  }

  function Mirror(t: CmpToken): CmpToken
  {
    match t case GT => LT case GE => LE case LT => GT case LE => GE case other => other
  }

  /** Bounds and inclusiveness of a < x <= b: lower is a (inclusive iff <=), upper is b (inclusive iff <=). */
  lemma RangeBounds(h: SchemaHelper, identifier: Option<string>, child: string, op1: CmpToken, op2: CmpToken, e0: Typed, e1: Typed)
    requires HelperValid(h) && VisitRange(h, identifier, child, op1, op2, e0, e1).Some?
    ensures var e := VisitRange(h, identifier, child, op1, op2, e0, e1).value.expr;
            e.BinaryRangeExpr? && e.lower == StoredValue(ExtractValue(e0.expr)) && e.upper == StoredValue(ExtractValue(e1.expr))
            && (e.lowerInclusive <==> op1 == LE) && (e.upperInclusive <==> op2 == LE)
  {
  }

  /** `b > x >= a` means `a <= x < b`: the reversed range is the mirrored forward range. */
  lemma ReverseRangeMirrorsRange(h: SchemaHelper, identifier: Option<string>, child: string,
                                 op1: CmpToken, op2: CmpToken, e0: Typed, e1: Typed)
    requires HelperValid(h) && (op1 == GT || op1 == GE) && (op2 == GT || op2 == GE)
    ensures VisitReverseRange(h, identifier, child, op1, op2, e0, e1) ==
            VisitRange(h, identifier, child, Mirror(op2), Mirror(op1), e1, e0)
  {
  }

  /** As written, `10 > x >= 5` keeps 5 out of the range and lets 10 in. */
  lemma ReverseRangeCounterexample(h: SchemaHelper, f: FieldSchema)
    requires HelperValid(h) && "x" in h.nameOffset && h.fields[h.nameOffset["x"]] == f && f.dataType == Int64
    ensures var e := VisitReverseRangeAsWritten(h, Some("x"), "", GT, GE, IntConst(10), IntConst(5)).value.expr;
            e.lower == Int64Val(5) && !e.lowerInclusive && e.upper == Int64Val(10) && e.upperInclusive
    ensures var e := VisitReverseRange(h, Some("x"), "", GT, GE, IntConst(10), IntConst(5)).value.expr;
            e.lower == Int64Val(5) && e.lowerInclusive && e.upper == Int64Val(10) && !e.upperInclusive
  {
  }

  // ---------------------------------------------------------------------
  // in / not in

  /** What an `in` list stores for one element: every int64 as int64_val, a non-constant is an error. */
  function TermValue(x: Extracted): (r: Option<GenericValue>)
    ensures r.Some? <==> !x.ExNull?
    ensures r.Some? ==> r.value == StoredValue(x)
  {
    if x.ExNull? then None else Some(StoredValue(x))
  }

  /** Every element of the list is a constant. */
  predicate AllConstants(elems: seq<Typed>)
  {
    forall k | 0 <= k < |elems| :: !ExtractValue(elems[k].expr).ExNull?
  }

  /**
   * visitTerm: `first in [elems]`. The first operand must be a column; each
   * element is stored as its constant; `not in` wraps the term in a Not.
   */
  method VisitTerm(first: Typed, elems: seq<Typed>, notIn: bool) returns (r: Option<Typed>)
    ensures r.Some? <==> first.expr.ColumnExpr? && AllConstants(elems)
    ensures r.Some? ==>
              var term := TermExpr(first.expr.info, seq(|elems|, k requires 0 <= k < |elems| => StoredValue(ExtractValue(elems[k].expr))));
              r.value == Typed(if notIn then NotExpr(term) else term, Bool, false)
  {
    if !first.expr.ColumnExpr? {
      return None;
    }
    var values: seq<GenericValue> := [];
    var i := 0;
    while i < |elems|
      invariant 0 <= i <= |elems| && |values| == i
      invariant forall k | 0 <= k < i :: !ExtractValue(elems[k].expr).ExNull? && values[k] == StoredValue(ExtractValue(elems[k].expr))
    {
      var v := TermValue(ExtractValue(elems[i].expr));
      if v.None? {
        return None;
      }
      values := values + [v.value];
      i := i + 1;
    }
    assert values == seq(|elems|, k requires 0 <= k < |elems| => StoredValue(ExtractValue(elems[k].expr)));
    var term := TermExpr(first.expr.info, values);
    return Some(Typed(if notIn then NotExpr(term) else term, Bool, false));
  }

  // ---------------------------------------------------------------------
  // Array literals

  /** The element type the dtype detection sees for one element (NoneType: not counted). */
  function ElemKindAsWritten(x: Extracted): DType
  {
    match x case ExInt(_) => Int64 case ExDouble(_) => Double case _ => NoneType
  }

  /** The value stored for one element: only numbers are set. */
  function ElemValueAsWritten(x: Extracted): GenericValue
  {
    match x case ExInt(i) => Int64Val(i) case ExDouble(d) => FloatVal(d) case _ => NoVal
  }

  /** Bool and string elements counted and stored like numbers. */
  function ElemKind(x: Extracted): DType
  {
    match x case ExInt(_) => Int64 case ExDouble(_) => Double case ExBool(_) => Bool case ExString(_) => VarChar case ExNull => NoneType
  }

  function ElemValue(x: Extracted): GenericValue
  {
    StoredValue(x)
  }

  /** The first counted kind, NoneType when no element is counted. */
  function FirstKind(kinds: seq<DType>): DType
  {
    if |kinds| == 0 then NoneType else if kinds[0] != NoneType then kinds[0] else FirstKind(kinds[1..])
  }

  /** Every counted kind equals t. */
  predicate AgreeWith(kinds: seq<DType>, t: DType)
  {
    forall k | 0 <= k < |kinds| :: kinds[k] == NoneType || kinds[k] == t
  }

  /** The dtype of an array literal: the shared kind if the counted kinds agree, else NoneType. */
  function SharedKind(kinds: seq<DType>): DType
  {
    if AgreeWith(kinds, FirstKind(kinds)) then FirstKind(kinds) else NoneType
  }

  lemma {:induction false} FirstKindIsCounted(kinds: seq<DType>)
    ensures FirstKind(kinds) == NoneType ==> AgreeWith(kinds, NoneType)
    ensures FirstKind(kinds) != NoneType ==> exists k | 0 <= k < |kinds| :: kinds[k] == FirstKind(kinds)
  {
    if |kinds| > 0 && kinds[0] == NoneType {
      FirstKindIsCounted(kinds[1..]);
      if FirstKind(kinds) == NoneType {
        forall k | 0 <= k < |kinds| ensures kinds[k] == NoneType {
          if k > 0 { assert kinds[k] == kinds[1..][k - 1]; }
        }
      } else {
        var k :| 0 <= k < |kinds[1..]| && kinds[1..][k] == FirstKind(kinds);
        assert kinds[k + 1] == FirstKind(kinds);
      }
    }
  }

  /**
   * The array dtype is t exactly when every counted element has kind t and
   * one does; two different counted kinds give NoneType.
   */
  lemma SharedKindSpec(kinds: seq<DType>, t: DType)
    requires t != NoneType
    ensures SharedKind(kinds) == t <==> AgreeWith(kinds, t) && exists k | 0 <= k < |kinds| :: kinds[k] == t
  {
    FirstKindIsCounted(kinds);
    if AgreeWith(kinds, t) && exists k | 0 <= k < |kinds| :: kinds[k] == t {
      var k :| 0 <= k < |kinds| && kinds[k] == t;
      if FirstKind(kinds) != NoneType {
        var j :| 0 <= j < |kinds| && kinds[j] == FirstKind(kinds);
        assert kinds[j] == t;
      }
    }
  }

  lemma SharedKindMixed(kinds: seq<DType>, i: int, j: int)
    requires 0 <= i < |kinds| && 0 <= j < |kinds| && kinds[i] != NoneType && kinds[j] != NoneType && kinds[i] != kinds[j]
    ensures SharedKind(kinds) == NoneType
  {
  }

  /** The kinds the as-written loop sees for each element. */
  function KindsAsWritten(elems: seq<Typed>): (ks: seq<DType>)
    ensures |ks| == |elems|
  {
    seq(|elems|, k requires 0 <= k < |elems| => ElemKindAsWritten(ExtractValue(elems[k].expr)))
  }

  function Kinds(elems: seq<Typed>): (ks: seq<DType>)
    ensures |ks| == |elems|
  {
    seq(|elems|, k requires 0 <= k < |elems| => ElemKind(ExtractValue(elems[k].expr)))
  }

  /**
   * visitArray as written: numbers are stored and typed; bool and string
   * elements leave an empty value and do not take part in the dtype. The
   * Array message's same_type and element_type are never set.
   */
  method VisitArrayAsWritten(elems: seq<Typed>) returns (r: Typed)
    ensures r.expr == ValueExpr(ArrayVal(seq(|elems|, k requires 0 <= k < |elems| => ElemValueAsWritten(ExtractValue(elems[k].expr))), false, NoneType))
    ensures r.dtype == SharedKind(KindsAsWritten(elems)) && r.dependent
  {
    var values: seq<GenericValue> := [];
    var dtype := NoneType;
    var isSame := true;
    var i := 0;
    while i < |elems|
      invariant 0 <= i <= |elems| && |values| == i
      invariant forall k | 0 <= k < i :: values[k] == ElemValueAsWritten(ExtractValue(elems[k].expr))
      invariant dtype == FirstKind(KindsAsWritten(elems)[..i])
      invariant isSame <==> AgreeWith(KindsAsWritten(elems)[..i], dtype)
    {
      var x := ExtractValue(elems[i].expr);
      values := values + [ElemValueAsWritten(x)];
      var kind := ElemKindAsWritten(x);
      KindStep(KindsAsWritten(elems), i, dtype, isSame);
      if kind != NoneType {
        if dtype != NoneType && dtype != kind {
          isSame := false;
        }
        if dtype == NoneType {
          dtype := kind;
        }
      }
      i := i + 1;
    }
    assert KindsAsWritten(elems)[..|elems|] == KindsAsWritten(elems);
    assert values == seq(|elems|, k requires 0 <= k < |elems| => ElemValueAsWritten(ExtractValue(elems[k].expr)));
    r := Typed(ValueExpr(ArrayVal(values, false, NoneType)), if isSame then dtype else NoneType, true);
  }

  /** visitArray with bool and string elements stored and typed too. */
  method VisitArray(elems: seq<Typed>) returns (r: Typed)
    ensures r.expr == ValueExpr(ArrayVal(seq(|elems|, k requires 0 <= k < |elems| => ElemValue(ExtractValue(elems[k].expr))), false, NoneType))
    ensures r.dtype == SharedKind(Kinds(elems)) && r.dependent
  {
    var values: seq<GenericValue> := [];
    var dtype := NoneType;
    var isSame := true;
    var i := 0;
    while i < |elems|
      invariant 0 <= i <= |elems| && |values| == i
      invariant forall k | 0 <= k < i :: values[k] == ElemValue(ExtractValue(elems[k].expr))
      invariant dtype == FirstKind(Kinds(elems)[..i])
      invariant isSame <==> AgreeWith(Kinds(elems)[..i], dtype)
    {
      var x := ExtractValue(elems[i].expr);
      values := values + [ElemValue(x)];
      var kind := ElemKind(x);
      KindStep(Kinds(elems), i, dtype, isSame);
      if kind != NoneType {
        if dtype != NoneType && dtype != kind {
          isSame := false;
        }
        if dtype == NoneType {
          dtype := kind;
        }
      }
      i := i + 1;
    }
    assert Kinds(elems)[..|elems|] == Kinds(elems);
    assert values == seq(|elems|, k requires 0 <= k < |elems| => ElemValue(ExtractValue(elems[k].expr)));
    r := Typed(ValueExpr(ArrayVal(values, false, NoneType)), if isSame then dtype else NoneType, true);
  }

  /** How one more element moves the first kind and the agreement flag. */
  lemma KindStep(kinds: seq<DType>, i: int, dtype: DType, isSame: bool)
    requires 0 <= i < |kinds| && dtype == FirstKind(kinds[..i]) && (isSame <==> AgreeWith(kinds[..i], dtype))
    ensures var kind := kinds[i];
            var d' := if kind != NoneType && dtype == NoneType then kind else dtype;
            var s' := isSame && !(kind != NoneType && dtype != NoneType && dtype != kind);
            d' == FirstKind(kinds[..i + 1]) && (s' <==> AgreeWith(kinds[..i + 1], d'))
  {
    FirstKindSnoc(kinds[..i], kinds[i]);
    assert kinds[..i + 1] == kinds[..i] + [kinds[i]];
    FirstKindIsCounted(kinds[..i]);
  }

  lemma {:induction false} FirstKindSnoc(kinds: seq<DType>, x: DType)
    ensures FirstKind(kinds + [x]) == if FirstKind(kinds) != NoneType then FirstKind(kinds) else x
  {
    if |kinds| > 0 {
      assert (kinds + [x])[1..] == kinds[1..] + [x];
      FirstKindSnoc(kinds[1..], x);
    } else {
      assert kinds + [x] == [x];
    }
  }

  /** As written, [1, "a"] is typed Int64 and its string is lost. */
  lemma ArrayMixedCounterexample()
    ensures SharedKind(KindsAsWritten([IntConst(1), Typed(ValueExpr(StringVal("a")), VarChar, false)])) == Int64
    ensures ElemValueAsWritten(ExtractValue(ValueExpr(StringVal("a")))) == NoVal
    ensures SharedKind(Kinds([IntConst(1), Typed(ValueExpr(StringVal("a")), VarChar, false)])) == NoneType
  {
    var ks := KindsAsWritten([IntConst(1), Typed(ValueExpr(StringVal("a")), VarChar, false)]);
    assert ks == [Int64, NoneType];
    assert FirstKind(ks) == Int64;
    var ks2 := Kinds([IntConst(1), Typed(ValueExpr(StringVal("a")), VarChar, false)]);
    assert ks2 == [Int64, VarChar];
    SharedKindMixed(ks2, 0, 1);
  }
}
