/**
 * The preprocessing script: check that documents were loaded, write the chunks
 * and embeddings to disk, and index the chunks as points with ids 0, 1, 2, ...
 *
 * PDF loading, chunking and embedding happen in other components; their results
 * are parameters here.
 */
module Preprocess {
  import opened Wrappers
  import opened Entity
  import opened Qdrant
  import opened Storage
  import opened Seqs

  const NoDocumentsMessage := "No se encontraron documentos para procesar."

  /** `configure_qdrant_client(embedding_dim, collection_name)`: a fresh in-memory
      client holding one empty collection. */
  method ConfigureQdrantClient(embeddingDim: nat, collectionName: string) returns (client: Client)
    ensures fresh(client)
    ensures client.collections == map[collectionName := embeddingDim]
    ensures client.log == [RecreateCollection(collectionName, embeddingDim)]
  {
    client := new Client(map[]);
    client.RecreateCollection(collectionName, embeddingDim);
  }

  /** `load_documents`, given what the PDF loader returned: an empty result raises
      ValueError, anything else is passed through unchanged. */
  function LoadDocuments(loaded: seq<Document>): (r: Result<seq<Document>, PyError>)
    ensures r.Ok? <==> loaded != []
    ensures r.Ok? ==> r.value == loaded
    ensures r.Err? ==> r.error == ValueError(NoDocumentsMessage)
  {
    if loaded == [] then Err(ValueError(NoDocumentsMessage)) else Ok(loaded)
  }

  /** `{"page_content": chunk.page_content, "metadata": chunk.metadata}` */
  function ChunkRecord(chunk: Document): (r: Record)
    ensures r.Keys == {"page_content", "metadata"}
  {
    map["page_content" := JStr(chunk.content), "metadata" := JDict(chunk.metadata)]
  }

  /** `serializable_chunks`: one record per chunk, in order. */
  function SerializeChunks(chunks: seq<Document>): (r: seq<Record>)
    ensures |r| == |chunks|
    ensures forall i :: 0 <= i < |chunks| ==> r[i] == ChunkRecord(chunks[i])
  {
    seq(|chunks|, i requires 0 <= i < |chunks| => ChunkRecord(chunks[i]))
  }

  /** `save_processed_data(processed_dir, embeddings, chunks)`: writes the embeddings,
      then the records, and returns the records it wrote. */
  method SaveProcessedData(disk: Disk, processedDir: string, embeddings: seq<Vector>, chunks: seq<Document>)
    returns (records: seq<Record>)
    modifies disk
    ensures records == SerializeChunks(chunks)
    ensures disk.embeddingFiles == old(disk.embeddingFiles)[processedDir := embeddings]
    ensures disk.chunkFiles == old(disk.chunkFiles)[processedDir := records]
  {
    disk.SaveEmbeddings(processedDir, embeddings);
    records := SerializeChunks(chunks);
    disk.SaveChunks(processedDir, records);
  }

  /** `{"page_content": chunk["page_content"], "metadata": chunk["metadata"]}` */
  function PointPayload(record: Record): Record
    requires "page_content" in record && "metadata" in record
  {
    map["page_content" := record["page_content"], "metadata" := record["metadata"]]
  }

  /** The record lacks a key the payload copies; the first missing one is reported. */
  function MissingKey(record: Record): Option<string> {
    if "page_content" !in record then Some("page_content")
    else if "metadata" !in record then Some("metadata")
    else None
  }

  /** The points for the pairs from index `i` on of `zip(embeddings, records)`, or
      the KeyError of the first record there that lacks a key. */
  function PointsFrom(embeddings: seq<Vector>, records: seq<Record>, i: nat): (r: Result<seq<Point>, PyError>)
    ensures r.Ok? ==> |r.value| == (if i >= Min(|embeddings|, |records|) then 0 else Min(|embeddings|, |records|) - i)
    ensures r.Err? ==> r.error == KeyError("page_content") || r.error == KeyError("metadata")
    decreases Min(|embeddings|, |records|) - i
  {
    if i >= Min(|embeddings|, |records|) then Ok([])
    else if MissingKey(records[i]).Some? then Err(KeyError(MissingKey(records[i]).value))
    else
      var rest := PointsFrom(embeddings, records, i + 1);
      if rest.Err? then rest
      else Ok([Point(i, embeddings[i], PointPayload(records[i]))] + rest.value)
  }

  /** `points` in `index_embeddings`: `zip` stops at the shorter list. */
  function IndexPoints(embeddings: seq<Vector>, records: seq<Record>): (r: Result<seq<Point>, PyError>)
    ensures r.Ok? ==> |r.value| == Min(|embeddings|, |records|)
    ensures r.Err? ==> r.error == KeyError("page_content") || r.error == KeyError("metadata")
  {
    PointsFrom(embeddings, records, 0)
  }

  /** Point `k` has id `k`, the `k`-th embedding and the payload of the `k`-th record,
      and there is one point per pair that `zip` forms. */
  lemma {:induction false} PointsFromShape(embeddings: seq<Vector>, records: seq<Record>, i: nat)
    requires PointsFrom(embeddings, records, i).Ok?
    ensures var ps := PointsFrom(embeddings, records, i).value;
            && |ps| == (if i >= Min(|embeddings|, |records|) then 0 else Min(|embeddings|, |records|) - i)
            && forall k :: i <= k < Min(|embeddings|, |records|) ==>
                 MissingKey(records[k]).None?
                 && ps[k - i] == Point(k, embeddings[k], PointPayload(records[k]))
    decreases Min(|embeddings|, |records|) - i
  {
    if i < Min(|embeddings|, |records|) {
      PointsFromShape(embeddings, records, i + 1);
      var ps := PointsFrom(embeddings, records, i).value;
      var rest := PointsFrom(embeddings, records, i + 1).value;
      assert ps == [Point(i, embeddings[i], PointPayload(records[i]))] + rest;
    }
  }

  /** The points are built exactly when every record `zip` reaches has both keys;
      otherwise the KeyError names the first missing key of the first such record. */
  lemma {:induction false} PointsFromErrors(embeddings: seq<Vector>, records: seq<Record>, i: nat)
    ensures PointsFrom(embeddings, records, i).Ok?
            <==> forall k :: i <= k < Min(|embeddings|, |records|) ==> MissingKey(records[k]).None?
    ensures PointsFrom(embeddings, records, i).Err? ==>
              exists k :: i <= k < Min(|embeddings|, |records|)
                && MissingKey(records[k]).Some?
                && PointsFrom(embeddings, records, i).error == KeyError(MissingKey(records[k]).value)
                && forall j :: i <= j < k ==> MissingKey(records[j]).None?
    decreases Min(|embeddings|, |records|) - i
  {
    if i < Min(|embeddings|, |records|) {
      PointsFromErrors(embeddings, records, i + 1);
    }
  }

  /** Points built from the records this script writes carry exactly those records as
      payloads: ids 0, 1, 2, ..., one per chunk that has an embedding. */
  lemma IndexSerialized(embeddings: seq<Vector>, chunks: seq<Document>)
    ensures var r := IndexPoints(embeddings, SerializeChunks(chunks));
            && r.Ok? && |r.value| == Min(|embeddings|, |chunks|)
            && forall k :: 0 <= k < |r.value| ==> r.value[k] == Point(k, embeddings[k], ChunkRecord(chunks[k]))
  {
    var records := SerializeChunks(chunks);
    PointsFromErrors(embeddings, records, 0);
    PointsFromShape(embeddings, records, 0);
    forall k | 0 <= k < Min(|embeddings|, |chunks|)
      ensures PointPayload(records[k]) == ChunkRecord(chunks[k])
    {
      PayloadOfChunkRecord(chunks[k]);
    }
  }

  /** The payload copied from a chunk's record is that record. */
  lemma PayloadOfChunkRecord(chunk: Document)
    ensures PointPayload(ChunkRecord(chunk)) == ChunkRecord(chunk)
  {
  }

  /** `index_embeddings(client, collection_name, embeddings, chunks)`: one upsert of
      all the points, or the KeyError and no request. */
  method IndexEmbeddings(client: Client, collectionName: string, embeddings: seq<Vector>, records: seq<Record>)
    returns (r: Result<Unit, PyError>)
    modifies client
    ensures client.collections == old(client.collections)
    ensures var points := IndexPoints(embeddings, records);
            && (points.Ok? ==> r == Ok(Unit) && client.log == old(client.log) + [Upsert(collectionName, points.value)])
            && (points.Err? ==> r == Err(points.error) && client.log == old(client.log))
  {
    var points := IndexPoints(embeddings, records);
    if points.Err? {
      return Err(points.error);
    }
    client.Upsert(collectionName, points.value);
    r := Ok(Unit);
  }
}
