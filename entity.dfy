/** The values that flow through the pipeline. */
module Entity {

  /** Metadata of a source file (its name, its page number, ...); every value is
      modelled as a string. */
  type Metadata = map<string, string>

  /** A text with the metadata of the document it came from: a loaded page, a
      fixed-size segment or a final chunk (`ChunkEntity`, and LangChain's
      `Document(page_content, metadata)`). */
  datatype Document = Document(content: string, metadata: Metadata)

  /** A JSON value inside a record: a string, an object of strings, or anything else. */
  datatype Json = JStr(str: string) | JDict(dict: Metadata) | JOther

  /** A JSON object: a persisted chunk record, or a point's payload. */
  type Record = map<string, Json>

  /** An embedding; its numbers are carried, never computed on. */
  type Vector = seq<real>
}
