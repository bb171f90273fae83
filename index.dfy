// The map of loaded collections (src/index.cpp, src/index.h): collection name
// to the segment wrapper that serves it. The wrapper is the native engine;
// each of its calls is an oracle whose status the caller passes in, and the
// model records only what a successful call hands over to the segment.
module LocalIndex {
  import opened Wrappers
  import opened Schema
  import opened MilvusStatus

  /**
   * What the index has handed to one collection's segment: its schema, the
   * last index meta it accepted, the records inserted and the id batches
   * deleted.
   */
  datatype Segment = Segment(
    name: string,
    schema: CollectionSchema,
    indexMeta: Option<IndexMeta>,
    records: seq<string>,
    deleted: seq<string>)

  /** segcore's CollectionIndexMeta: a row cap and one serialized FieldIndexMeta per index. */
  datatype IndexMeta = IndexMeta(maxIndexRowCount: int, indexMetas: seq<string>)

  /** schema_util::MergeIndexs: the stored index protos, in order, under the row cap. */
  function MergeIndexs(indexs: seq<string>): IndexMeta
  {
    IndexMeta(MAX_INDEX_ROW, indexs)
  }

  class Index {
    /** collections_: the loaded collections and their segments. */
    var collections: map<string, Segment>

    constructor()
      ensures collections == map[]
    {
      collections := map[];
    }

    /** HasLoaded: whether the collection has a segment. */
    function HasLoaded(name: string): (b: bool)
      reads this
      ensures b <==> name in collections
    {
      name in collections
    }

    /**
     * Loads a collection: an already loaded one is kept as it is; otherwise
     * the wrapper's SetCollectionInfo status decides whether it is added.
     */
    method CreateCollection(name: string, schema: CollectionSchema, setInfo: Status) returns (s: Status)
      modifies this
      ensures name in old(collections) ==> s == Ok() && collections == old(collections)
      ensures name !in old(collections) && setInfo.IsOk() ==>
                s == Ok() && collections == old(collections)[name := Segment(name, schema, None, [], [])]
      ensures name !in old(collections) && !setInfo.IsOk() ==>
                s == setInfo && collections == old(collections)
    {
      if HasLoaded(name) {
        return Ok();
      }
      if !setInfo.IsOk() {
        return setInfo;
      }
      collections := collections[name := Segment(name, schema, None, [], [])];
      return Ok();
    }

    /** Unloads a collection if it is loaded; always reports success. */
    method DropCollection(name: string) returns (b: bool)
      modifies this
      ensures b && collections == old(collections) - {name}
      ensures !HasLoaded(name)
    {
      if name in collections {
        collections := collections - {name};
      }
      return true;
    }

    /** Hands a merged index meta to a loaded collection's segment. */
    method CreateIndex(name: string, meta: IndexMeta, setMeta: Status) returns (s: Status)
      modifies this
      ensures collections.Keys == old(collections).Keys
      ensures name !in collections ==> s == CollectionNotFound("") && collections == old(collections)
      ensures name in collections && !setMeta.IsOk() ==> s == setMeta && collections == old(collections)
      ensures name in collections && setMeta.IsOk() ==>
                s == Ok() && collections == old(collections)[name := old(collections)[name].(indexMeta := Some(meta))]
    {
      if name !in collections {
        return CollectionNotFound("");
      }
      if !setMeta.IsOk() {
        return setMeta;
      }
      collections := collections[name := collections[name].(indexMeta := Some(meta))];
      return Ok();
    }

    /** Inserts one serialized record batch into a loaded collection's segment. */
    method Insert(name: string, size: int, record: string, inserted: Status) returns (s: Status)
      modifies this
      ensures collections.Keys == old(collections).Keys
      ensures name !in collections ==> s == CollectionNotFound("") && collections == old(collections)
      ensures name in collections ==> s == inserted
      ensures name in collections && !inserted.IsOk() ==> collections == old(collections)
      ensures name in collections && inserted.IsOk() ==>
                collections == old(collections)[name := old(collections)[name].(records := old(collections)[name].records + [record])]
    {
      if name !in collections {
        return CollectionNotFound("");
      }
      if inserted.IsOk() {
        collections := collections[name := collections[name].(records := collections[name].records + [record])];
      }
      return inserted;
    }

    /** A query on a loaded collection; its rows come from the engine and are not modelled. */
    method Retrieve(name: string, plan: string, retrieved: Status) returns (s: Status)
      ensures s == if name in collections then retrieved else CollectionNotFound("")
    {
      if name !in collections {
        return CollectionNotFound("");
      }
      return retrieved;
    }

    /** A vector search on a loaded collection; its hits come from the engine and are not modelled. */
    method Search(name: string, plan: string, placeholderGroup: string, searched: Status) returns (s: Status)
      ensures s == if name in collections then searched else CollectionNotFound("")
    {
      if name !in collections {
        return CollectionNotFound("");
      }
      return searched;
    }

    /** Deletes a serialized id batch from a loaded collection's segment. */
    method DeleteByIds(name: string, ids: string, size: int, deletedStatus: Status) returns (s: Status)
      modifies this
      ensures collections.Keys == old(collections).Keys
      ensures s == if name in collections then deletedStatus else CollectionNotFound("")
      ensures name in collections && deletedStatus.IsOk() ==>
                collections == old(collections)[name := old(collections)[name].(deleted := old(collections)[name].deleted + [ids])]
      ensures !(name in collections && deletedStatus.IsOk()) ==> collections == old(collections)
    {
      if name !in collections {
        return CollectionNotFound("");
      }
      if deletedStatus.IsOk() {
        collections := collections[name := collections[name].(deleted := collections[name].deleted + [ids])];
      }
      return deletedStatus;
    }
  }
}
