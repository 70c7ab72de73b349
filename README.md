# practicos-rag: a Dafny model of the text-preparation pipeline

This project models the deterministic core of a retrieval-augmented-generation
pipeline and proves properties of that model. The core has six parts:

- **The two-stage chunker `fn_semantic_chunk`** (`semantic.dfy`).
  - Stage one cuts every document with a fixed-size splitter and stamps each piece
    with its document's metadata.
  - Stage two strips each piece's sentences and regroups them greedily by word
    count. A group is closed as soon as the next sentence would take it past
    `min_length` words.
  - The loops are methods. They are proved against specification functions:
    `Segments`, the recursive greedy pass `Greedy`/`Groups`, and `SemanticChunks`.
  - The state of `fn_semantic_chunk`'s sentence loop after `i` sentences is `PassAt`. A lemma proves that it
    finishes with exactly the groups of the recursive pass.
- **The text cleaner `fn_clean_text`** (`cleaning.dfy`, pure functions). It
  lowercases, filters through the class `[a-záéíóúñü\s]`, replaces accented letters
  by their base letters, then joins the lemmas of the tokens that are neither stop
  words nor punctuation.
- **`QdrantVectorStore`** (`vector_store.dfy`, a class over a client that logs its
  requests, `qdrant_client.dfy`):
  - the constructor creates the collection only if it is missing;
  - `add_embeddings` uploads in batches, with Python's floor division and slicing
    written out, so every batch size is covered;
  - `update_embeddings` upserts points by id.
- **The preprocessing script** (`preprocess.dfy`, with the files on disk in
  `storage.dfy`): the empty-load check, the chunk records it writes, and the points
  it indexes (ids 0, 1, 2, …, truncated by `zip`).
- **`QdrantManager`** (`manager.dfy`):
  - record-to-`Document` conversion with its errors;
  - the missing-file check;
  - the state that `load_data` sets and `search` requires.
- **`prepare_questions_and_ground_truths`** (`factoid.dfy`): the parser of
  "Factoid question: … Answer: …" strings.

Shared pieces: `wrappers.dfy` holds `Option`, `Result` and the Python exceptions
raised, `entity.dfy` the documents and JSON records, and `text.dfy` Python's
`str.isspace`, `strip`, `split()`, `split(sep)`, `join` and `in`. `seqs.dfy` holds
`Flatten`/`ConcatMap` and their lemmas.

Library code is not modelled. Each such dependency is a parameter, or the model
records only what the code hands to it:

- the text splitter and the spaCy sentencizer are parameters `Splitter` and
  `Sentencizer`;
- the spaCy analysis is the parameter `Analyzer`, which returns a lemma and stop and
  punctuation flags per token;
- the LLM question generator's output is the parameter `generated`;
- the similarity search is the parameter `Similarity`;
- the Qdrant client is a log of `Call`s plus its collection map;
- the files on disk are a map from directory to contents.

The chunker can emit a chunk with empty content. `fn_semantic_chunk` strips each
sentence and keeps it in the current group even when the stripped text is empty, so
a whitespace-only sentence followed by one too long for it becomes a chunk of its
own with empty content. `Semantic.EmptyChunkPossible` proves that this happens.

## Model

| member | source | states |
|---|---|---|
| Semantic.SplitDocuments | src/chunking/semantic.py:21-31 | the initial segments are every splitter piece of every document, stamped with that document's metadata, documents in order and pieces in split order |
| Semantic.SegmentAt | src/chunking/semantic.py:23-31 | piece `j` of document `i` is the segment right after all segments of documents before `i`, and carries document `i`'s metadata |
| Semantic.SegmentOrigin | src/chunking/semantic.py:23-31 | every segment is piece `j` of exactly one document `i`, at that position, with document `i`'s metadata |
| Semantic.SegmentsInDocumentOrder | src/chunking/semantic.py:23-31 | all segments of document `i` precede those of any later document |
| Semantic.Greedy | src/chunking/semantic.py:39-61 | the rest of the greedy pass closes no group exactly when no sentence is left and none is being gathered |
| Semantic.Groups | src/chunking/semantic.py:36-61 | the sentences of a segment form no group exactly when there are no sentences |
| Semantic.Turn | src/chunking/semantic.py:43-54 | one turn keeps the groups already closed as a prefix and closes at most one more; the sentence just seen ends the group being gathered |
| Semantic.SegmentChunks | src/chunking/semantic.py:34-61 | every chunk made of a segment carries that segment's metadata |
| Semantic.SemanticChunks | src/chunking/semantic.py:4-63 | every chunk returned carries the metadata of one of the input documents |
| Semantic.AddSentence | src/chunking/semantic.py:40-54 | one turn of the loop moves the loop state exactly as the pass state `Turn` does, and the chunks emitted stay one per closed group, in order |
| Semantic.RegroupSentences | src/chunking/semantic.py:36-61 | the chunks of a segment are one per group of the recursive greedy pass over its stripped sentences, joined with single spaces, carrying the segment's metadata |
| Semantic.RegroupSegment | src/chunking/semantic.py:35-61 | the chunks of one segment are `SegmentChunks` of it |
| Semantic.SemanticChunk | src/chunking/semantic.py:4-63 | the result is stage two applied to every segment of stage one, concatenated in segment order |
| Semantic.PassCountsWords | src/chunking/semantic.py:40-54 | after every turn, `current_length` is the total word count of `current_chunk` |
| Semantic.PassStep | src/chunking/semantic.py:43-54 | one turn moves one sentence from the rest of the greedy pass into the loop state without changing the groups they make together |
| Semantic.PassGreedy | src/chunking/semantic.py:39-54 | after `i` turns, the closed groups followed by the rest of the greedy pass are all the groups |
| Semantic.PassGroups | src/chunking/semantic.py:39-61 | the loop, with the final flush, closes exactly the groups of the recursive greedy pass |
| Semantic.FinishEmit | src/chunking/semantic.py:56-61 | the final flush emits one more chunk, of the group being gathered, exactly when that group is non-empty |
| Semantic.GreedyFlatten | src/chunking/semantic.py:39-61 | from any state, the groups still to be closed concatenate to the sentences being gathered followed by the sentences left, and none is empty |
| Semantic.GroupsPartition | src/chunking/semantic.py:39-61 | the groups concatenate to exactly the stripped sentences, in order; no group is empty; there are groups exactly when there are sentences |
| Semantic.GreedyFits | src/chunking/semantic.py:43-54 | every sentence after the first in a group was added while the running count plus its words stayed within `min_length` |
| Semantic.FitsSnoc | src/chunking/semantic.py:52-54 | adding a sentence that fits keeps that property of the group |
| Semantic.GroupsBounded | src/chunking/semantic.py:43-54 | every group has that property, so a group of two or more sentences has at most `min_length` words |
| Semantic.GreedyFlushes | src/chunking/semantic.py:43-51 | the first group begins with the sentences being gathered, and every later group was opened because its first sentence would take the group before it past `min_length` |
| Semantic.GroupsCloseWhenFull | src/chunking/semantic.py:43-51 | for every group after the first, the previous group's word count plus this group's first sentence's word count exceeds `min_length` |
| Semantic.SegmentChunksPartition | src/chunking/semantic.py:34-61 | one chunk per group; each chunk is the single-space join of a non-empty run of consecutive stripped sentences with the segment's metadata; a segment yields chunks iff it has sentences |
| Semantic.EmitWords | src/chunking/semantic.py:46-48 | each emitted chunk has as many words as the sentences of its group together |
| Semantic.SegmentChunksBounded | src/chunking/semantic.py:41-61 | a chunk's word count is its sentences' total; it is at most `min_length` unless the chunk is one sentence; each chunk plus the next group's first sentence exceeds `min_length` |
| Semantic.ChunkOrigin | src/chunking/semantic.py:23-61 | every final chunk is chunk `k` of segment `s`; segment `s` is splitter piece `j` of document `i`, at the position right after the segments of the documents before `i`; it holds that piece's text and document `i`'s metadata, which the chunk carries |
| Semantic.ChunksInSegmentOrder | src/chunking/semantic.py:34-61 | the chunks of a segment all precede those of any later segment |
| Semantic.LongSentenceExceeds | src/chunking/semantic.py:43-51 | a single sentence longer than `min_length` becomes a group of its own: the limit is not a cap |
| Semantic.EmptyGroupClosed | src/chunking/semantic.py:43-51 | an empty sentence followed by one too long for it gives the groups `[""]` and `[long]` |
| Semantic.EmptyChunkPossible | src/chunking/semantic.py:40-51 | a whitespace-only sentence followed by a too-long sentence makes the chunker emit a chunk with empty content |
| Text.Strip | src/chunking/semantic.py:40 | `strip()` returns a text no longer than its input, with no whitespace at either end |
| Text.WordCount | src/chunking/semantic.py:41 | `len(s.split())` is the number of words `s.split()` returns |
| Text.Words | src/chunking/semantic.py:41 | `s.split()` is non-empty when `s` starts with a character that is not whitespace |
| Text.RunsCountWords | src/chunking/semantic.py:41 | counting the starts of non-whitespace runs gives the number of words of `s.split()` |
| Text.Join | src/chunking/semantic.py:46 | the first part is a prefix of the join |
| Text.AllWords | src/cleaning/clean_documents.py:47 | the words of a list of texts, in order, are as many as their word counts together |
| Text.WordsSpaceJoin | src/cleaning/clean_documents.py:47 | the words of `a + " " + b` are the words of `a` followed by those of `b` |
| Text.JoinedWords | src/cleaning/clean_documents.py:47 | the words of `" ".join(g)` are the words of the texts of `g`, in order |
| Text.StripTrims | src/chunking/semantic.py:40 | `strip()` removes whitespace only, and only from the two ends |
| Text.StripStripped | src/chunking/semantic.py:40 | a text without whitespace at either end is left unchanged by `strip()` |
| Text.StripEmptyIffAllSpace | src/chunking/semantic.py:40 | `strip()` gives `""` exactly when the text is all whitespace |
| Text.WordCountZeroIffAllSpace | src/chunking/semantic.py:41 | `len(s.split())` is 0 exactly when the text is all whitespace |
| Text.JoinedWordCount | src/chunking/semantic.py:46 | the word count of the single-space join of sentences is the sum of their word counts |
| Text.SplitJoin | main_app.py:122-123 | `sep.join(s.split(sep))` gives `s` back |
| Text.Split | main_app.py:122-123 | `s.split(sep)` has at least one piece |
| Text.SplitSingleIffAbsent | main_app.py:121-123 | `s.split(sep)` has a single piece exactly when `sep` does not occur in `s` |
| Text.LastBefore | main_app.py:122-123 | the last occurrence of the pattern starting before a bound: an occurrence with none after it up to the bound, or none at all |
| Text.AfterLast | main_app.py:122-123 | where the text after the last occurrence begins lies within the text |
| Text.SplitLast | main_app.py:122-123 | `s.split(sep)[-1]` is the text after the last occurrence of a separator that cannot overlap itself |
| Text.SplitFirst | main_app.py:122 | `s.split(sep)[0]` is the text before the first occurrence of `sep` |
| Text.AfterLastShift | main_app.py:122-123 | past an occurrence, the last occurrence of the text is the last one of the rest, or that occurrence itself |
| Text.BeforeNextShift | main_app.py:122 | the first occurrence in `s[q:]` is the first occurrence at or after `q` in `s`, shifted |
| Text.SplitPiecesFree | main_app.py:122-123 | no piece of `s.split(sep)` contains `sep` |
| Cleaning.Lower | src/cleaning/clean_documents.py:30 | no upper-case letter that could pass the filter remains, and the text does not get shorter |
| Cleaning.LowerChar | src/cleaning/clean_documents.py:30 | a character lowers to one or two characters, none an upper-case letter that could pass the filter; a character with no such upper-case form is kept |
| Cleaning.LowerAppend | src/cleaning/clean_documents.py:30 | lowercasing works character by character: it distributes over concatenation |
| Cleaning.LowerIdempotent | src/cleaning/clean_documents.py:30 | lowercasing twice is lowercasing once |
| Cleaning.RemoveSpecial | src/cleaning/clean_documents.py:33 | after the filter every character is in `a-z`, `áéíóúñü` or whitespace, and the text is no longer |
| Cleaning.RemoveSpecialSubsequence | src/cleaning/clean_documents.py:33 | the filter only deletes: its result is a subsequence of its input |
| Cleaning.RemoveSpecialCounts | src/cleaning/clean_documents.py:33 | every occurrence of an allowed character is kept and no other character survives |
| Cleaning.RemoveSpecialIdempotent | src/cleaning/clean_documents.py:33 | filtering twice is filtering once |
| Cleaning.Unaccent | src/cleaning/clean_documents.py:36 | same length; each character is kept or is an accented letter replaced by an ASCII letter; no accented letter remains |
| Cleaning.UnaccentPlain | src/cleaning/clean_documents.py:33-36 | after the filter and `unidecode`, only `a-z` and whitespace remain |
| Cleaning.NlpInput | src/cleaning/clean_documents.py:29-39 | digits, punctuation and symbols never reach the NLP pipeline: it receives only `a-z` and whitespace |
| Cleaning.KeptLemmasAppend | src/cleaning/clean_documents.py:40-44 | the kept lemmas of consecutive token runs come out consecutively, in token order |
| Cleaning.KeptLemmas | src/cleaning/clean_documents.py:40-44 | there are at most as many kept lemmas as tokens |
| Cleaning.KeptLemmasEmptyIff | src/cleaning/clean_documents.py:40-44 | no lemma is kept exactly when every token is a stop word or punctuation |
| Cleaning.KeptLemmasCount | src/cleaning/clean_documents.py:40-44 | at most one lemma per token, and one per token exactly when every token is kept |
| Cleaning.CleanText | src/cleaning/clean_documents.py:19-47 | the cleaned text is `""` when there is no token or every token is a stop word or punctuation |
| Cleaning.CleanTextWords | src/cleaning/clean_documents.py:40-47 | `clean_text(text).split()` is exactly the words of the kept lemmas, in token order, and so has as many words as those lemmas together |
| Qdrant.Client.CreateCollection | src/vector_store_client/Qdrant_Vector_Store.py:39-41 | the collection exists with the given vector size and the request is logged |
| Qdrant.Client.RecreateCollection | main_preprocess.py:15-18 | the collection exists with the given vector size and the request is logged |
| Qdrant.Client.UploadCollection | src/vector_store_client/Qdrant_Vector_Store.py:95-98 | the upload is logged and the collections are unchanged |
| Qdrant.Client.Upsert | src/vector_store_client/Qdrant_Vector_Store.py:148-150 | the upsert is logged and the collections are unchanged |
| VectorStore.QdrantVectorStore.constructor | src/vector_store_client/Qdrant_Vector_Store.py:32-48 | the collection is created only when no collection of that name exists; an existing one is left as it is |
| VectorStore.MetadataOrDefault | src/vector_store_client/Qdrant_Vector_Store.py:76-77 | `None` becomes `len(texts)` empty maps; given metadata is used as is |
| VectorStore.FloorDivBounds | src/vector_store_client/Qdrant_Vector_Store.py:80 | `//` rounds toward minus infinity for both signs of the divisor |
| VectorStore.TotalBatches | src/vector_store_client/Qdrant_Vector_Store.py:80 | for a positive batch size, `total_batches` is the least count of `batch_size`-item batches that holds all `n` items |
| VectorStore.TotalBatchesCeiling | src/vector_store_client/Qdrant_Vector_Store.py:80 | for a positive batch size, `total_batches` is the ceiling of `n / batch_size`, and 0 exactly when `n` is 0 |
| VectorStore.TurnsCover | src/vector_store_client/Qdrant_Vector_Store.py:80-83 | the last batch starts before `n` and the batch after it would start at or past `n` |
| VectorStore.BatchStartMonotonic | src/vector_store_client/Qdrant_Vector_Store.py:83 | later batches start at least `batch_size` items later |
| VectorStore.BatchRanges | src/vector_store_client/Qdrant_Vector_Store.py:82-89 | every range is non-empty, holds at most `batch_size` items, only the last is short, each starts where the previous ended, the first starts at 0 and the last ends at `n` |
| VectorStore.PySlice | src/vector_store_client/Qdrant_Vector_Store.py:87-89 | a slice within bounds is the plain subsequence; one running past the end stops at the end |
| VectorStore.Payloads | src/vector_store_client/Qdrant_Vector_Store.py:92 | building the payloads raises IndexError exactly when there are fewer metadata than texts |
| VectorStore.PayloadsContents | src/vector_store_client/Qdrant_Vector_Store.py:92 | otherwise payload `i` is `{"text": texts[i], "metadata": metadata[i]}` |
| VectorStore.BatchAt | src/vector_store_client/Qdrant_Vector_Store.py:86-98 | a batch raises exactly when its metadata slice is shorter than its text slice, and then IndexError; otherwise it uploads the embedding slice to the collection, with one payload per text |
| VectorStore.BatchAtContents | src/vector_store_client/Qdrant_Vector_Store.py:87-98 | within a batch, item `i` pairs vector `embeddings[start+i]` with text and metadata `start+i` |
| VectorStore.BatchAtShortMetadata | src/vector_store_client/Qdrant_Vector_Store.py:89-92 | a batch that runs past the metadata raises IndexError |
| VectorStore.Batches | src/vector_store_client/Qdrant_Vector_Store.py:82-98 | every turn that succeeds uploads to the store's collection |
| VectorStore.BatchTurn | src/vector_store_client/Qdrant_Vector_Store.py:83-92 | unfolds the definition of turn `b` (`Batches` through `BatchAt`) for `UploadBatch`: it slices the lists at `batch_index * batch_size` and `min(start + batch_size, len(texts))` and uploads the payloads of the slices, or raises what building them raised |
| VectorStore.Run | src/vector_store_client/Qdrant_Vector_Store.py:82-98 | a loop of `t` turns uploads at most `t` batches, and exactly `t` when no turn raises |
| VectorStore.RunStopped | src/vector_store_client/Qdrant_Vector_Store.py:82-98 | after a turn raises, no later turn changes anything |
| VectorStore.RunAppends | src/vector_store_client/Qdrant_Vector_Store.py:95-98 | unfolds the definition of `Run` one turn further for `UploadBatch`: a turn that succeeds appends its upload |
| VectorStore.RunFailsAt | src/vector_store_client/Qdrant_Vector_Store.py:82-98 | a turn that raises ends the loop with that error and the uploads made before it |
| VectorStore.RunPrefix | src/vector_store_client/Qdrant_Vector_Store.py:82-98 | while the metadata lasts, the uploads of the first `t` turns hold exactly the first `min(t * batch_size, n)` vectors and payloads, in order |
| VectorStore.RunComplete | src/vector_store_client/Qdrant_Vector_Store.py:82-98 | with metadata for every text, all `total_batches` batches are uploaded and together hold all embeddings and all payloads, in order |
| VectorStore.CoveredBatches | src/vector_store_client/Qdrant_Vector_Store.py:82-89 | with `m < n` metadata, the first `m // batch_size` batches lie inside the metadata and the next one runs past it |
| VectorStore.RunShortMetadata | src/vector_store_client/Qdrant_Vector_Store.py:82-98 | with fewer metadata than texts, the batches wholly covered are uploaded, then IndexError, and nothing more is uploaded |
| VectorStore.RunEmpty | src/vector_store_client/Qdrant_Vector_Store.py:80-82 | empty input makes no upload |
| VectorStore.QdrantVectorStore.AddEmbeddings | src/vector_store_client/Qdrant_Vector_Store.py:72-100 | a length mismatch raises ValueError and a zero batch size ZeroDivisionError, both before any upload; otherwise the log gains exactly the uploads of the loop, stopping at the first batch that raises |
| VectorStore.QdrantVectorStore.UploadBatches | src/vector_store_client/Qdrant_Vector_Store.py:80-100 | the loop over `range(total_batches)` makes exactly the uploads of the turns up to the first that raises, and returns that error |
| VectorStore.QdrantVectorStore.UploadBatch | src/vector_store_client/Qdrant_Vector_Store.py:83-98 | one turn slices out batch `b` and either uploads it or raises before uploading anything |
| VectorStore.BuildPoints | src/vector_store_client/Qdrant_Vector_Store.py:144-146 | one point per id, in order, point `i` being `(ids[i], new_embeddings[i], new_payloads[i])`; IndexError exactly when a list is shorter than `ids` |
| VectorStore.QdrantVectorStore.UpdateEmbeddings | src/vector_store_client/Qdrant_Vector_Store.py:144-150 | one upsert of those points, or IndexError and no request |
| Storage.Disk.SaveEmbeddings | main_preprocess.py:43 | the directory's `embeddings.npy` holds the embeddings; `chunks.json` files are unchanged |
| Storage.Disk.SaveChunks | main_preprocess.py:47-48 | the directory's `chunks.json` holds the records; embedding files are unchanged |
| Preprocess.ConfigureQdrantClient | main_preprocess.py:11-19 | a fresh client whose only collection is the named one, created by one recreate request |
| Preprocess.LoadDocuments | main_preprocess.py:21-26 | an empty load raises ValueError; anything else is returned unchanged |
| Preprocess.ChunkRecord | main_preprocess.py:45 | a record has exactly the keys `page_content` and `metadata` |
| Preprocess.SerializeChunks | main_preprocess.py:44-46 | one record per chunk, in order, copying its content and metadata |
| Preprocess.SaveProcessedData | main_preprocess.py:40-49 | writes the embeddings and the records to the directory and returns exactly the records it wrote |
| Preprocess.PointsFrom | main_preprocess.py:53-60 | from pair `i` of `zip` on, one point per remaining pair, or a KeyError naming `page_content` or `metadata` |
| Preprocess.IndexPoints | main_preprocess.py:53-60 | `min(len(embeddings), len(chunks))` points, or a KeyError naming `page_content` or `metadata` |
| Preprocess.PointsFromShape | main_preprocess.py:53-59 | point `k` has id `k`, vector `embeddings[k]` and the payload of record `k`; there are `min(len(embeddings), len(chunks))` points |
| Preprocess.PointsFromErrors | main_preprocess.py:53-59 | the points are built exactly when every record `zip` reaches has both keys; otherwise the KeyError names the first missing key of the first such record |
| Preprocess.PayloadOfChunkRecord | main_preprocess.py:57 | the payload copied from a written record is that record |
| Preprocess.IndexSerialized | main_preprocess.py:53-59 | indexing the records this script writes never raises: ids 0, 1, 2, …, one point per chunk that has an embedding, carrying that chunk's record |
| Preprocess.IndexEmbeddings | main_preprocess.py:51-61 | one upsert of all the points, or the KeyError and no request |
| Manager.ToDocument | src/vector_store_client/qdrant_store_openai.py:46 | a missing `page_content` raises KeyError, a missing `metadata` becomes `{}`, a value of the wrong type fails validation; otherwise both fields are copied |
| Manager.ToDocuments | src/vector_store_client/qdrant_store_openai.py:45-48 | one document per record; an error comes from some record and is a KeyError for `page_content` or a validation error |
| Manager.ToDocumentsShape | src/vector_store_client/qdrant_store_openai.py:45-48 | every record becomes exactly one document, in order, when all convert; otherwise the error is that of the first record that does not |
| Manager.SerializeRoundTrip | src/vector_store_client/qdrant_store_openai.py:45-48 | records written by preprocessing reload into the very chunks they were made from |
| Manager.QdrantManager.constructor | src/vector_store_client/qdrant_store_openai.py:21-26 | a fresh manager has neither a vector store nor a retriever |
| Manager.QdrantManager.LoadData | src/vector_store_client/qdrant_store_openai.py:33-62 | a missing `chunks.json` raises FileNotFoundError and a bad record raises its error, both leaving the state unchanged; otherwise the store and the retriever are built from the documents |
| Manager.QdrantManager.Search | src/vector_store_client/qdrant_store_openai.py:74-78 | search raises ValueError until a store exists, and then returns the library search over the store's documents |
| Factoid.ExtractPair | main_app.py:121-126 | a string lacking either marker is skipped; a kept pair has a non-empty, stripped question and ground truth |
| Factoid.ExtractPairText | main_app.py:121-126 | the question is the stripped text from the end of the last `"Factoid question: "` to the first `"Answer: "` after it (or the end of the string); the ground truth is the stripped text after the last `"Answer: "`; the string is kept exactly when it holds both markers and both stripped texts are non-empty |
| Factoid.MarkersHeadUnique | main_app.py:121 | neither marker can overlap another occurrence of itself, so "after the last occurrence" is where `split(...)[-1]` begins |
| Factoid.QuestionEnd | main_app.py:122 | the question's end lies between its start and the end of the string |
| Factoid.FirstPieceFree | main_app.py:122 | the text before the first separator holds no pattern the whole text does not |
| Factoid.ExtractPairProperties | main_app.py:121-126 | a kept string holds both markers; both parts are non-empty and stripped; the question holds neither marker; the ground truth holds no answer marker |
| Factoid.AddPair | main_app.py:125-129 | a skipped string appends nothing; a kept one appends its question and its ground truth |
| Factoid.PrepareQuestionsAndGroundTruths | main_app.py:109-131 | the two lists are the questions and the ground truths of the kept strings, in input order; `query` plays no part |
| Factoid.PairsOrigin | main_app.py:117-131 | entry `k` of both lists comes from one generated string, which has `k` kept strings before it |
| Factoid.PairsAtMostInputs | main_app.py:117-131 | there are at most as many pairs as generated strings |
| Factoid.PairsInOrder | main_app.py:117-131 | later entries come from later generated strings |
| Factoid.PairsComplete | main_app.py:120-129 | every string that yields a pair contributes it, at the position after the pairs of the strings before it |

## Left out

- The Streamlit application, the LLM chains, reranking, embedding generation and
  PDF loading are outside this model. `search` of `QdrantVectorStore` is left out as
  well: it embeds the query with a library model and returns library scores.
- `embedding_model` and `distance`, which the two store classes only hand to
  libraries, are not modelled.
- Console output (`print`) is not modelled.
- The constructor of `QdrantVectorStore` catches every exception from the client and
  only prints it. The modelled client raises none, so that path is not modelled.
- The Qdrant server's own storage, validation and point contents are not modelled.
  The client is a log of requests plus its collection map.
- `load_spacy_model` and its subprocess install are not modelled. Neither are the
  internals of the text splitter, the sentencizer, the tokenizer, the stop-word
  tagger and the lemmatizer; they are parameters.
- JSON and NumPy file I/O and `os.makedirs` are not modelled. A file is modelled as
  the value last written to it, keyed by directory.
- `main()` of the preprocessing script, which only sequences the modelled steps, is
  not modelled.
- Cleaning.Unaccent: `unidecode` also transliterates the non-ASCII whitespace that
  the filter lets through (a no-break space, for instance). The model keeps such
  characters as they are.
- Cleaning.LowerChar: exact only for A–Z, ÁÉÍÓÚÑÜ, the Kelvin sign and capital I
  with dot. Every other character is kept as is. Their true lower-case forms never
  pass the filter either, so the filtered text is the same.
- VectorStore.QdrantVectorStore.UpdateEmbeddings: ids are integers. Python accepts
  any value there and leaves its validation to the client.
- Manager.ToDocument: metadata values are strings in the model. A metadata object
  holding any other value, such as the integer `page` that the PDF loader records,
  is `JOther` here and so a `ValidationError`, although a LangChain `Document`
  accepts it (as does `metadata: dict` of `ChunkEntity` in
  `src/chunking/domain/entity.py`). Pydantic's coercion of a non-string
  `page_content` is not modelled either; such a field is a `ValidationError`.
- Floating-point values (embeddings, scores) are carried, never computed on.
- Factoid.PrepareQuestionsAndGroundTruths: the generator that samples documents and
  asks the LLM is a parameter, and `sample_n` only feeds it.
