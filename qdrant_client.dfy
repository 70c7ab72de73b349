/**
 * The Qdrant client as the modelled code sees it: a set of named collections,
 * each with its vector size, and the log of the writes it has been asked to do.
 * The server's own storage, validation and search are not modelled.
 */
module Qdrant {
  import opened Entity

  /** A point of a collection: `PointStruct(id, vector, payload)`. */
  datatype Point = Point(id: int, vector: Vector, payload: Record)

  /** One request sent to the client. */
  datatype Call =
    | CreateCollection(name: string, size: nat)
    | RecreateCollection(name: string, size: nat)
    | UploadCollection(name: string, vectors: seq<Vector>, payloads: seq<Record>)
    | Upsert(name: string, points: seq<Point>)

  class Client {
    /** The collections the client knows, with their vector sizes. */
    var collections: map<string, nat>
    /** Every request made so far, oldest first. */
    var log: seq<Call>

    /** A client opened on storage that already holds `existing`. */
    constructor (existing: map<string, nat>)
      ensures collections == existing && log == []
    {
      collections := existing;
      log := [];
    }

    /** `create_collection(name, VectorParams(size=size, ...))` */
    method CreateCollection(name: string, size: nat)
      modifies this
      ensures collections == old(collections)[name := size]
      ensures log == old(log) + [Call.CreateCollection(name, size)]
    {
      collections := collections[name := size];
      log := log + [Call.CreateCollection(name, size)];
    }

    /** `recreate_collection(name, VectorParams(size=size, ...))`: drops the
        collection if it exists and creates it empty. */
    method RecreateCollection(name: string, size: nat)
      modifies this
      ensures collections == old(collections)[name := size]
      ensures log == old(log) + [Call.RecreateCollection(name, size)]
    {
      collections := collections[name := size];
      log := log + [Call.RecreateCollection(name, size)];
    }

    /** `upload_collection(name, vectors, payload)` */
    method UploadCollection(name: string, vectors: seq<Vector>, payloads: seq<Record>)
      modifies this
      ensures collections == old(collections)
      ensures log == old(log) + [Call.UploadCollection(name, vectors, payloads)]
    {
      log := log + [Call.UploadCollection(name, vectors, payloads)];
    }

    /** `upsert(name, points)` */
    method Upsert(name: string, points: seq<Point>)
      modifies this
      ensures collections == old(collections)
      ensures log == old(log) + [Call.Upsert(name, points)]
    {
      log := log + [Call.Upsert(name, points)];
    }
  }
}
