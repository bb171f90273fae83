// The Status value every C++ task returns: an integer error code from the
// ErrCode table, a fixed message per factory and a free-form detail.
module MilvusStatus {

  /** The error codes of the ErrCode enum (a subset of the server's error table). */
  datatype ErrCode =
    | Succ
    | ErrServiceInternal
    | ErrCollectionNotFound
    | ErrCollectionNotLoaded
    | ErrCollectionNumLimitExceeded
    | ErrCollectionNotFullyLoaded
    | ErrCollectionLoaded
    | ErrCollectionIllegalSchema
    | ErrCollectionAlreadExist
    | ErrIndexNotFound
    | ErrIndexNotSupported
    | ErrIndexDuplicate
    | ErrParameterInvalid
    | ErrParameterMissing
    | ErrMetricNotFound
    | ErrFieldNotFound
    | ErrFieldInvalidName
    | ErrMissingRequiredParameters
    | ErrMarshalCollectionSchema
    | ErrInvalidInsertData
    | ErrInvalidSearchResult
    | ErrCheckPrimaryKey
    | ErrSegcore
    | ErrUndefined

  /** The numeric value each enumerator is declared with. */
  function CodeValue(e: ErrCode): int
  {
    match e
    case Succ => 0
    case ErrServiceInternal => 5
    case ErrCollectionNotFound => 100
    case ErrCollectionNotLoaded => 101
    case ErrCollectionNumLimitExceeded => 102
    case ErrCollectionNotFullyLoaded => 103
    case ErrCollectionLoaded => 104
    case ErrCollectionIllegalSchema => 105
    case ErrCollectionAlreadExist => 199
    case ErrIndexNotFound => 700
    case ErrIndexNotSupported => 701
    case ErrIndexDuplicate => 702
    case ErrParameterInvalid => 1100
    case ErrParameterMissing => 1101
    case ErrMetricNotFound => 1200
    case ErrFieldNotFound => 1700
    case ErrFieldInvalidName => 1701
    case ErrMissingRequiredParameters => 1802
    case ErrMarshalCollectionSchema => 1803
    case ErrInvalidInsertData => 1804
    case ErrInvalidSearchResult => 1805
    case ErrCheckPrimaryKey => 1806
    case ErrSegcore => 2000
    case ErrUndefined => 65535
  }

  /** Distinct enumerators carry distinct values, and only Succ is zero. */
  lemma CodeValueInjective(a: ErrCode, b: ErrCode)
    ensures CodeValue(a) == CodeValue(b) <==> a == b
    ensures CodeValue(a) == 0 <==> a == Succ
  {
  }

  datatype Status = Status(code: int, msg: string, detail: string)
  {
    predicate IsOk() { code == 0 }
    predicate IsErr() { code != 0 }
  }

  /** The CStatus a segcore C call hands back. */
  datatype CStatus = CStatus(errorCode: int, errorMsg: string)

  /** Status(CStatus): any non-zero segcore code collapses to ErrSegcore carrying the segcore message. */
  function FromCStatus(c: CStatus): (s: Status)
    ensures c.errorCode != 0 ==> s == Status(2000, "segcore error", c.errorMsg)
    ensures c.errorCode == 0 ==> s == Status(0, "", "")
    ensures s.IsOk() <==> c.errorCode == 0
  {
    if c.errorCode != 0 then Status(CodeValue(ErrSegcore), "segcore error", c.errorMsg)
    else Status(0, "", "")
  }

  function Make(e: ErrCode, msg: string, detail: string): Status
  {
    Status(CodeValue(e), msg, detail)
  }

  // The factories; `detail` is the already formatted detail text.
  function ServiceInternal(detail: string): Status { Make(ErrServiceInternal, "internal error", detail) }
  function SegcoreErr(detail: string): Status { Make(ErrSegcore, "segcore error", detail) }
  function CollectionNotFound(detail: string): Status { Make(ErrCollectionNotFound, "collection not found", detail) }
  function CollectionAlreadExist(detail: string): Status { Make(ErrCollectionAlreadExist, "collection alread exists", detail) }
  function CollectionNotLoaded(detail: string): Status { Make(ErrCollectionNotLoaded, "collection not loaded", detail) }
  function CollectionLoaded(detail: string): Status { Make(ErrCollectionLoaded, "collection already loaded", detail) }
  function CollectionIllegalSchema(detail: string): Status { Make(ErrCollectionIllegalSchema, "illegal collection schema", detail) }
  function IndexNotFound(detail: string): Status { Make(ErrIndexNotFound, "index not found", detail) }
  function IndexNotSupported(detail: string): Status { Make(ErrIndexNotSupported, "index type not supported", detail) }
  function IndexDuplicate(detail: string): Status { Make(ErrIndexDuplicate, "index duplicates", detail) }
  function ParameterInvalid(detail: string): Status { Make(ErrParameterInvalid, "invalid parameter", detail) }
  function ParameterMissing(detail: string): Status { Make(ErrParameterMissing, "missing parameter", detail) }
  function MetricNotFound(detail: string): Status { Make(ErrMetricNotFound, "metric not found", detail) }
  function FieldNotFound(detail: string): Status { Make(ErrFieldNotFound, "field not found", detail) }
  function FieldInvalidName(detail: string): Status { Make(ErrFieldInvalidName, "field name invalid", detail) }
  function Undefined(detail: string): Status { Make(ErrUndefined, "", detail) }
  function Ok(): Status { Make(Succ, "", "") }

  /** Every factory fixes its numeric code; only Ok() is a success. */
  lemma FactoryCodes(d: string)
    ensures Ok().code == 0 && Ok().IsOk() && !Ok().IsErr()
    ensures ServiceInternal(d).code == 5
    ensures CollectionNotFound(d).code == 100
    ensures CollectionNotLoaded(d).code == 101
    ensures CollectionLoaded(d).code == 104
    ensures CollectionIllegalSchema(d).code == 105
    ensures CollectionAlreadExist(d).code == 199
    ensures IndexNotFound(d).code == 700
    ensures IndexNotSupported(d).code == 701
    ensures IndexDuplicate(d).code == 702
    ensures ParameterInvalid(d).code == 1100
    ensures ParameterMissing(d).code == 1101
    ensures MetricNotFound(d).code == 1200
    ensures FieldNotFound(d).code == 1700
    ensures FieldInvalidName(d).code == 1701
    ensures SegcoreErr(d).code == 2000
    ensures Undefined(d).code == 65535
  {
  }

  /** Ok() is the success status. */
  lemma OkCode()
    ensures Ok().code == 0 && Ok().IsOk() && !Ok().IsErr()
  {
  }

  /** A status made from any enumerator other than Succ is an error. */
  lemma NonSuccIsErr(e: ErrCode, msg: string, detail: string)
    requires e != Succ
    ensures Make(e, msg, detail).IsErr()
  {
  }

  /** IsErr is exactly the negation of IsOk. */
  lemma OkErrComplement(s: Status)
    ensures s.IsErr() <==> !s.IsOk()
  {
  }

  /**
   * The move constructor (and move assignment) leave the target with the
   * source's code, message and detail; what the target held before is gone.
   */
  function MoveAssign(target: Status, source: Status): (r: Status)
    ensures r.code == source.code && r.msg == source.msg && r.detail == source.detail
    ensures r.IsOk() <==> source.IsOk()
  {
    Status(source.code, source.msg, source.detail)
  }

  /** The result of a move does not depend on the overwritten target. */
  lemma MoveForgetsTarget(t1: Status, t2: Status, source: Status)
    ensures MoveAssign(t1, source) == MoveAssign(t2, source) == source
  {
  }

  /** Status with a result: the C++ pair<Status, T> and Status-plus-out-parameter idioms. */
  datatype Outcome<T> = Success(value: T) | Failure(status: Status)
  {
    predicate Failed() { this.Failure? }
  }
}
