/**
 * `QdrantManager`: loads the chunk records written by preprocessing, turns them into
 * documents, builds an in-memory dense vector store from them, and answers searches
 * once it has one.
 *
 * Building the store (embedding every document) and the similarity search are
 * library code: the store is modelled by the documents it was built from, and the
 * search is the parameter `similarity`.
 */
module Manager {
  import opened Wrappers
  import opened Entity
  import opened Storage
  import opened Preprocess

  const NotConfiguredMessage := "QdrantVectorStore no está configurado. Ejecuta 'load_data()' primero."

  /** `os.path.join(dir, name)` for a relative file name. */
  function PathJoin(dir: string, name: string): string {
    if dir == [] || dir[|dir| - 1] == '/' then dir + name else dir + "/" + name
  }

  /** `Document(page_content=record["page_content"], metadata=record.get("metadata", {}))`:
      a missing `page_content` raises KeyError, a field of the wrong type fails
      validation, and a missing `metadata` becomes `{}`. */
  function ToDocument(record: Record): (r: Result<Document, PyError>)
    ensures "page_content" !in record ==> r == Err(KeyError("page_content"))
    ensures r.Ok? <==> ("page_content" in record && record["page_content"].JStr?
                        && ("metadata" in record ==> record["metadata"].JDict?))
    ensures r.Ok? ==> r.value.content == record["page_content"].str
    ensures r.Ok? && "metadata" in record ==> r.value.metadata == record["metadata"].dict
    ensures r.Ok? && "metadata" !in record ==> r.value.metadata == map[]
    ensures r.Err? && "page_content" in record ==> r.error == ValidationError
  {
    if "page_content" !in record then Err(KeyError("page_content"))
    else
      var content := record["page_content"];
      var metadata := if "metadata" in record then record["metadata"] else JDict(map[]);
      if !content.JStr? || !metadata.JDict? then Err(ValidationError)
      else Ok(Document(content.str, metadata.dict))
  }

  /** `docs` in `load_data`: the conversion of every record, in order, stopping at the
      first one that raises. */
  function ToDocuments(records: seq<Record>): (r: Result<seq<Document>, PyError>)
    ensures r.Ok? ==> |r.value| == |records|
    ensures r.Err? ==> records != [] && (r.error == ValidationError || r.error == KeyError("page_content"))
  {
    if records == [] then Ok([])
    else
      var first := ToDocument(records[0]);
      if first.Err? then Err(first.error)
      else
        var rest := ToDocuments(records[1..]);
        if rest.Err? then rest else Ok([first.value] + rest.value)
  }

  /** Every record becomes exactly one document, in order, when all convert; the
      error otherwise is that of the first record that does not. */
  lemma {:induction false} ToDocumentsShape(records: seq<Record>)
    ensures ToDocuments(records).Ok? <==> forall k :: 0 <= k < |records| ==> ToDocument(records[k]).Ok?
    ensures ToDocuments(records).Ok? ==>
              && |ToDocuments(records).value| == |records|
              && forall k :: 0 <= k < |records| ==> ToDocuments(records).value[k] == ToDocument(records[k]).value
    ensures ToDocuments(records).Err? ==>
              exists k :: 0 <= k < |records| && ToDocument(records[k]).Err?
                && ToDocuments(records).error == ToDocument(records[k]).error
                && forall j :: 0 <= j < k ==> ToDocument(records[j]).Ok?
    decreases |records|
  {
    if records != [] {
      ToDocumentsShape(records[1..]);
      var r := ToDocuments(records);
      if ToDocument(records[0]).Err? {
        assert r.Err? && r.error == ToDocument(records[0]).error;
      } else if ToDocuments(records[1..]).Err? {
        var k :| 0 <= k < |records[1..]| && ToDocument(records[1..][k]).Err?
                 && ToDocuments(records[1..]).error == ToDocument(records[1..][k]).error
                 && forall j :: 0 <= j < k ==> ToDocument(records[1..][j]).Ok?;
        assert records[k + 1] == records[1..][k];
        forall j | 0 <= j < k + 1
          ensures ToDocument(records[j]).Ok?
        {
          if j > 0 {
            assert records[j] == records[1..][j - 1];
          }
        }
      } else {
        forall k | 0 <= k < |records|
          ensures ToDocument(records[k]).Ok? && r.value[k] == ToDocument(records[k]).value
        {
          if k > 0 {
            assert records[k] == records[1..][k - 1];
          }
        }
      }
    }
  }

  /** Records written by preprocessing reload into the very chunks they were made
      from: same text, same metadata, same order. */
  lemma {:induction false} SerializeRoundTrip(chunks: seq<Document>)
    ensures ToDocuments(SerializeChunks(chunks)) == Ok(chunks)
    decreases |chunks|
  {
    if chunks != [] {
      SerializeRoundTrip(chunks[1..]);
      var records := SerializeChunks(chunks);
      assert records[1..] == SerializeChunks(chunks[1..]);
      assert ToDocument(records[0]) == Ok(chunks[0]);
      assert chunks == [chunks[0]] + chunks[1..];
    }
  }

  /** The in-memory vector store built from the loaded documents
      (`QdrantVectorStore.from_documents`). */
  datatype DenseStore = DenseStore(collectionName: string, documents: seq<Document>)

  /** The library search over a store's documents: `(document, score)` pairs. */
  type Similarity = (seq<Document>, string, int) -> seq<(Document, real)>

  class QdrantManager {
    const collectionName: string
    const dataPath: string
    /** `qdrant_vector_store` */
    var vectorStore: Option<DenseStore>
    /** `retriever`: a retriever over the store, identified with the store it reads. */
    var retriever: Option<DenseStore>

    /** A fresh manager has neither a vector store nor a retriever. */
    constructor (collectionName: string, dataPath: string)
      ensures this.collectionName == collectionName && this.dataPath == dataPath
      ensures vectorStore == None && retriever == None
    {
      this.collectionName := collectionName;
      this.dataPath := dataPath;
      vectorStore := None;
      retriever := None;
    }

    /** `load_data()`: a missing `chunks.json` raises FileNotFoundError and a record
        that does not convert raises its error, both before any field changes;
        otherwise the store and the retriever are built from the documents. */
    method LoadData(disk: Disk) returns (r: Result<Unit, PyError>)
      modifies this
      ensures dataPath !in disk.chunkFiles ==>
                r == Err(FileNotFoundError(PathJoin(dataPath, "chunks.json")))
                && vectorStore == old(vectorStore) && retriever == old(retriever)
      ensures dataPath in disk.chunkFiles && ToDocuments(disk.chunkFiles[dataPath]).Err? ==>
                r == Err(ToDocuments(disk.chunkFiles[dataPath]).error)
                && vectorStore == old(vectorStore) && retriever == old(retriever)
      ensures dataPath in disk.chunkFiles && ToDocuments(disk.chunkFiles[dataPath]).Ok? ==>
                var store := DenseStore(collectionName, ToDocuments(disk.chunkFiles[dataPath]).value);
                r == Ok(Unit) && vectorStore == Some(store) && retriever == Some(store)
    {
      var chunksPath := PathJoin(dataPath, "chunks.json");
      if dataPath !in disk.chunkFiles {
        return Err(FileNotFoundError(chunksPath));
      }
      var chunkDicts := disk.chunkFiles[dataPath];
      var docs := ToDocuments(chunkDicts);
      if docs.Err? {
        return Err(docs.error);
      }
      vectorStore := Some(DenseStore(collectionName, docs.value));
      retriever := vectorStore;
      r := Ok(Unit);
    }

    /** `search(query, top_k)`: raises ValueError until a store has been built. */
    method Search(query: string, topK: int, similarity: Similarity) returns (r: Result<seq<(Document, real)>, PyError>)
      ensures vectorStore.None? ==> r == Err(ValueError(NotConfiguredMessage))
      ensures vectorStore.Some? ==> r == Ok(similarity(vectorStore.value.documents, query, topK))
    {
      if vectorStore.None? {
        return Err(ValueError(NotConfiguredMessage));
      }
      r := Ok(similarity(vectorStore.value.documents, query, topK));
    }
  }
}
