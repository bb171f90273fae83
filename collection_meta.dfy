// The in-memory mirror of one collection's metadata (src/collection_meta.h,
// CollectionMeta::CollectionInfo): its schema text, its primary-key name and
// its index map from index name to serialized index proto.
module CollectionMeta {
  import opened Wrappers
  import opened Schema
  import StdMap

  /** The text a `const char*` denotes: everything before the first NUL. */
  function CStr(s: string): (r: string)
    ensures r <= s && '\0' !in r
    ensures |r| < |s| ==> s[|r|] == '\0'
  {
    if |s| == 0 || s[0] == '\0' then "" else [s[0]] + CStr(s[1..])
  }

  /** A string without NUL is its own C string. */
  lemma {:induction false} CStrPlain(s: string)
    requires '\0' !in s
    ensures CStr(s) == s
  {
    if |s| > 0 {
      CStrPlain(s[1..]);
    }
  }

  /** Reading a C string back through `c_str()` changes nothing. */
  lemma {:induction false} CStrIdempotent(s: string)
    ensures CStr(CStr(s)) == CStr(s)
  {
    if |s| > 0 && s[0] != '\0' {
      CStrIdempotent(s[1..]);
    }
  }

  /** The values of a map's entries, in key order. */
  function Values(m: seq<KV>): (r: seq<string>)
    ensures |r| == |m| && forall i | 0 <= i < |m| :: r[i] == m[i].value
  {
    seq(|m|, i requires 0 <= i < |m| => m[i].value)
  }

  /** The values of the entries whose key is not `exclude`, in key order. */
  function ValuesExcept(m: seq<KV>, exclude: string): seq<string>
  {
    if |m| == 0 then []
    else (if m[0].key != exclude then [m[0].value] else []) + ValuesExcept(m[1..], exclude)
  }

  lemma {:induction false} ValuesExceptSnoc(m: seq<KV>, exclude: string, i: nat)
    requires i < |m|
    ensures ValuesExcept(m[..i + 1], exclude)
         == ValuesExcept(m[..i], exclude) + (if m[i].key != exclude then [m[i].value] else [])
    decreases i
  {
    if i > 0 {
      assert m[..i + 1][1..] == m[1..][..i];
      assert m[..i][1..] == m[1..][..i - 1];
      ValuesExceptSnoc(m[1..], exclude, i - 1);
    } else {
      assert m[..1][1..] == [];
    }
  }

  /** With no entry under `exclude`, nothing is skipped. */
  lemma {:induction false} ValuesExceptAbsent(m: seq<KV>, exclude: string)
    requires StdMap.Find(m, exclude).None?
    ensures ValuesExcept(m, exclude) == Values(m)
    decreases |m|
  {
    if |m| > 0 {
      ValuesExceptAbsent(m[1..], exclude);
      assert Values(m) == [m[0].value] + Values(m[1..]);
    }
  }

  /**
   * Listing every index but `exclude` lists exactly the indexes that remain
   * once `exclude` is dropped, in name order.
   */
  lemma {:induction false} ValuesExceptErase(m: seq<KV>, exclude: string)
    requires StdMap.Valid(m)
    ensures ValuesExcept(m, exclude) == Values(StdMap.Erase(m, exclude))
    decreases |m|
  {
    if |m| > 0 {
      assert StdMap.Valid(m[1..]);
      if m[0].key == exclude {
        assert StdMap.Find(m[1..], exclude).None? by {
          assert StdMap.Find(StdMap.Erase(m, exclude), exclude).None?;
        }
        ValuesExceptAbsent(m[1..], exclude);
      } else {
        ValuesExceptErase(m[1..], exclude);
        assert Values(StdMap.Erase(m, exclude)) == [m[0].value] + Values(StdMap.Erase(m[1..], exclude));
      }
    }
  }

  /** The number of listed indexes: all of them, less one if `exclude` is present. */
  lemma {:induction false} ValuesExceptCount(m: seq<KV>, exclude: string)
    requires StdMap.Valid(m)
    ensures |ValuesExcept(m, exclude)| == |m| - (if StdMap.Find(m, exclude).Some? then 1 else 0)
    decreases |m|
  {
    if |m| > 0 {
      assert StdMap.Valid(m[1..]);
      ValuesExceptCount(m[1..], exclude);
      if m[0].key == exclude {
        StdMap.FindEntry(m, 0);
        assert StdMap.Find(m[1..], exclude).None? by {
          assert StdMap.Find(StdMap.Erase(m, exclude), exclude).None?;
        }
      }
    }
  }

  class CollectionInfo {
    /** index_info_: index name to serialized index proto, in name order. */
    var indexInfo: seq<KV>
    /** schema_info_: the serialized collection schema. */
    var schemaInfo: string
    /** pk_name_: the name of the primary-key field. */
    var pkName: string

    ghost predicate Valid()
      reads this
    {
      StdMap.Valid(indexInfo)
      && forall x | StdMap.Find(indexInfo, x).Some? :: '\0' !in StdMap.Find(indexInfo, x).value
    }

    constructor()
      ensures Valid() && indexInfo == [] && schemaInfo == "" && pkName == ""
    {
      indexInfo := [];
      schemaInfo := "";
      pkName := "";
    }

    /** Overwrites the schema text and the primary-key name; the indexes stay. */
    method AddSchema(info: string, pk: string)
      modifies this
      ensures schemaInfo == CStr(info) && pkName == pk && indexInfo == old(indexInfo)
    {
      schemaInfo := CStr(info);
      pkName := pk;
    }

    method Schema() returns (s: string)
      ensures s == schemaInfo
    {
      s := schemaInfo;
    }

    /** Refuses a name already present, keeping its entry; otherwise adds the index. */
    method AddIndex(name: string, index: string) returns (ok: bool)
      requires Valid()
      modifies this
      ensures Valid() && schemaInfo == old(schemaInfo) && pkName == old(pkName)
      ensures ok <==> StdMap.Find(old(indexInfo), name).None?
      ensures forall x :: StdMap.Find(indexInfo, x)
                       == if x == name && ok then Some(CStr(index)) else StdMap.Find(old(indexInfo), x)
    {
      if StdMap.Find(indexInfo, name).Some? {
        return false;
      }
      indexInfo := StdMap.InsertNew(indexInfo, name, CStr(index));
      return true;
    }

    /** The stored proto of `name`, or false when there is none. */
    method GetIndex(name: string) returns (ok: bool, index: string)
      requires Valid()
      ensures ok <==> StdMap.Find(indexInfo, name).Some?
      ensures ok ==> Some(index) == StdMap.Find(indexInfo, name) && '\0' !in index
    {
      var found := StdMap.Find(indexInfo, name);
      if found.None? {
        return false, "";
      }
      CStrPlain(found.value);
      index := CStr(found.value);
      ok := true;
    }

    /** Appends every stored proto except `exclude`'s, in name order, after `allIndex`. */
    method GetAllIndexs(allIndex: seq<string>, exclude: string) returns (out: seq<string>)
      ensures out == allIndex + ValuesExcept(indexInfo, exclude)
    {
      out := allIndex;
      var i := 0;
      while i < |indexInfo|
        invariant 0 <= i <= |indexInfo|
        invariant out == allIndex + ValuesExcept(indexInfo[..i], exclude)
      {
        ValuesExceptSnoc(indexInfo, exclude, i);
        if indexInfo[i].key != exclude {
          out := out + [indexInfo[i].value];
        }
        i := i + 1;
      }
      assert indexInfo[..i] == indexInfo;
    }

    method HasIndex(name: string) returns (b: bool)
      requires Valid()
      ensures b <==> exists j | 0 <= j < |indexInfo| :: indexInfo[j].key == name
    {
      b := StdMap.Find(indexInfo, name).Some?;
      if b {
        StdMap.FindSome(indexInfo, name);
      } else {
        forall j | 0 <= j < |indexInfo| ensures indexInfo[j].key != name {
          StdMap.FindEntry(indexInfo, j);
        }
      }
    }

    /** Removes the index if present; always reports success. */
    method DropIndex(name: string) returns (ok: bool)
      requires Valid()
      modifies this
      ensures Valid() && ok && schemaInfo == old(schemaInfo) && pkName == old(pkName)
      ensures StdMap.Find(indexInfo, name).None?
      ensures forall x | x != name :: StdMap.Find(indexInfo, x) == StdMap.Find(old(indexInfo), x)
    {
      if StdMap.Find(indexInfo, name).None? {
        return true;
      }
      indexInfo := StdMap.Erase(indexInfo, name);
      return true;
    }

    method GetPkName() returns (pk: string)
      ensures pk == pkName
    {
      pk := pkName;
    }
  }
}
