/**
 * The processed-data directory on disk: `chunks.json` (the chunk records) and
 * `embeddings.npy` (the embedding matrix), both keyed by the directory that holds
 * them. Writing a file and reading it back gives the same value.
 */
module Storage {
  import opened Entity

  class Disk {
    /** The records in `<dir>/chunks.json`, for every directory that has one. */
    var chunkFiles: map<string, seq<Record>>
    /** The rows of `<dir>/embeddings.npy`, for every directory that has one. */
    var embeddingFiles: map<string, seq<Vector>>

    constructor (chunkFiles: map<string, seq<Record>>, embeddingFiles: map<string, seq<Vector>>)
      ensures this.chunkFiles == chunkFiles && this.embeddingFiles == embeddingFiles
    {
      this.chunkFiles := chunkFiles;
      this.embeddingFiles := embeddingFiles;
    }

    /** `np.save(os.path.join(dir, "embeddings.npy"), embeddings)` */
    method SaveEmbeddings(dir: string, embeddings: seq<Vector>)
      modifies this
      ensures embeddingFiles == old(embeddingFiles)[dir := embeddings]
      ensures chunkFiles == old(chunkFiles)
    {
      embeddingFiles := embeddingFiles[dir := embeddings];
    }

    /** `json.dump(records, open(os.path.join(dir, "chunks.json"), "w"))` */
    method SaveChunks(dir: string, records: seq<Record>)
      modifies this
      ensures chunkFiles == old(chunkFiles)[dir := records]
      ensures embeddingFiles == old(embeddingFiles)
    {
      chunkFiles := chunkFiles[dir := records];
    }
  }
}
