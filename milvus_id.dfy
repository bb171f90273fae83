// MilvusID: a primary-key value that is either a 64-bit integer or a string,
// with the equality and ordering that the hybrid-search score maps key on.
module MilvusIds {
  import Lex

  /** The IDs message: its oneof holds an int list, a string list, or nothing. */
  datatype IDs = IntId(ints: seq<int>) | StrId(strs: seq<string>) | NoId
  {
    predicate HasIntId() { this.IntId? }
  }

  datatype IDType = INT | STR

  /**
   * A MilvusID. The constructor from a string leaves the integer member
   * unset; the model fixes it to 0 there (and the string to "" on the int side).
   */
  datatype MilvusID = MilvusID(kind: IDType, intId: int, strId: string)

  predicate WellFormed(id: MilvusID)
  {
    (id.kind == INT ==> id.strId == "") && (id.kind == STR ==> id.intId == 0)
  }

  function FromInt(v: int): (id: MilvusID)
    ensures id.kind == INT && id.intId == v && WellFormed(id)
  {
    MilvusID(INT, v, "")
  }

  function FromStr(s: string): (id: MilvusID)
    ensures id.kind == STR && id.strId == s && WellFormed(id)
  {
    MilvusID(STR, 0, s)
  }

  /** The index the (IDs, idx) constructor reads must exist in the list it picks. */
  predicate ValidIndex(ids: IDs, idx: int)
  {
    if ids.IntId? then 0 <= idx < |ids.ints| else ids.StrId? && 0 <= idx < |ids.strs|
  }

  /** Element idx of the int list when the IDs carry ints, otherwise of the string list. */
  function FromIDs(ids: IDs, idx: int): (id: MilvusID)
    requires ValidIndex(ids, idx)
    ensures id.kind == INT <==> ids.HasIntId()
    ensures ids.IntId? ==> id == FromInt(ids.ints[idx])
    ensures ids.StrId? ==> id == FromStr(ids.strs[idx])
    ensures WellFormed(id)
  {
    if ids.HasIntId() then FromInt(ids.ints[idx]) else FromStr(ids.strs[idx])
  }

  /** operator==: decided by this side's kind, on the matching member only. */
  predicate Eq(a: MilvusID, b: MilvusID)
  {
    if a.kind == INT then a.intId == b.intId else a.strId == b.strId
  }

  /** operator<: integer order for INT, byte-lexicographic order for STR. */
  predicate Less(a: MilvusID, b: MilvusID)
  {
    if a.kind == INT then a.intId < b.intId else Lex.Less(a.strId, b.strId)
  }

  /** Between well-formed ids of one kind, == is exactly structural equality. */
  lemma EqIsEquality(a: MilvusID, b: MilvusID)
    requires WellFormed(a) && WellFormed(b) && a.kind == b.kind
    ensures Eq(a, b) <==> a == b
  {
  }

  /** Within one kind, < is irreflexive, asymmetric and transitive: a strict order. */
  lemma LessStrictOrder(a: MilvusID, b: MilvusID, c: MilvusID)
    requires a.kind == b.kind == c.kind
    ensures !Less(a, a)
    ensures Less(a, b) ==> !Less(b, a)
    ensures Less(a, b) && Less(b, c) ==> Less(a, c)
  {
    if a.kind == STR {
      Lex.LessIrreflexive(a.strId);
      if Less(a, b) { Lex.LessAsymmetric(a.strId, b.strId); }
      if Less(a, b) && Less(b, c) { Lex.LessTransitive(a.strId, b.strId, c.strId); }
    }
  }

  /** Within one kind, any two ids are equal or ordered one way: a total order consistent with ==. */
  lemma LessTotal(a: MilvusID, b: MilvusID)
    requires a.kind == b.kind
    ensures Eq(a, b) || Less(a, b) || Less(b, a)
    ensures Eq(a, b) ==> !Less(a, b) && !Less(b, a)
  {
    if a.kind == STR {
      Lex.LessTotal(a.strId, b.strId);
      if Eq(a, b) { Lex.LessIrreflexive(a.strId); }
    }
  }

  /**
   * AppendToIDs: one element joins the int list (INT) or the string list (STR).
   * Asking protobuf for the other branch of the oneof clears what was there.
   */
  function AppendToIDs(id: MilvusID, ids: IDs): (r: IDs)
    ensures id.kind == INT ==> r.IntId? && r.ints == (if ids.IntId? then ids.ints else []) + [id.intId]
    ensures id.kind == STR ==> r.StrId? && r.strs == (if ids.StrId? then ids.strs else []) + [id.strId]
  {
    if id.kind == INT then IntId((if ids.IntId? then ids.ints else []) + [id.intId])
    else StrId((if ids.StrId? then ids.strs else []) + [id.strId])
  }

  /** Appending element i to an empty IDs gives a one-element copy that reads back as the same id. */
  lemma AppendRoundTrip(ids: IDs, i: int)
    requires ValidIndex(ids, i)
    ensures var r := AppendToIDs(FromIDs(ids, i), NoId);
            ValidIndex(r, 0) && FromIDs(r, 0) == FromIDs(ids, i)
            && (ids.IntId? ==> r == IntId([ids.ints[i]]))
            && (ids.StrId? ==> r == StrId([ids.strs[i]]))
  {
  }

  /** Appending keeps the ids already in a list of the same kind, in order. */
  lemma AppendKeepsPrefix(id: MilvusID, ids: IDs, j: int)
    requires ValidIndex(ids, j) && (id.kind == INT <==> ids.IntId?)
    ensures ValidIndex(AppendToIDs(id, ids), j) && FromIDs(AppendToIDs(id, ids), j) == FromIDs(ids, j)
  {
  }
}
