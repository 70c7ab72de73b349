/**
 * `QdrantVectorStore`: creates its collection if it is missing, uploads texts
 * with their embeddings in batches, and overwrites points by id.
 *
 * Python's floor division and slicing are written out, so the batching is modelled
 * for every batch size, including zero (which raises) and negative ones.
 */
module VectorStore {
  import opened Wrappers
  import opened Entity
  import opened Seqs
  import opened Qdrant

  // ---------------------------------------------------------------- Python arithmetic

  /** Python's `a // b`: the quotient rounded toward minus infinity. */
  function FloorDiv(a: int, b: int): int
    requires b != 0
  {
    if b > 0 then a / b else (-a) / (-b)
  }

  lemma FloorDivBounds(a: int, b: int)
    requires b != 0
    ensures b > 0 ==> b * FloorDiv(a, b) <= a < b * FloorDiv(a, b) + b
    ensures b < 0 ==> b * FloorDiv(a, b) + b < a <= b * FloorDiv(a, b)
  {
  }

  /** Where a slice bound `i` lands in a sequence of length `n`: counted from the
      end when negative, then clamped to `[0, n]`. */
  function SliceBound(i: int, n: nat): (r: nat)
    ensures r <= n
    ensures 0 <= i <= n ==> r == i
  {
    if i < 0 then (if i + n < 0 then 0 else i + n)
    else if i > n then n
    else i
  }

  /** Python's `s[i:j]`. */
  function PySlice<T>(s: seq<T>, i: int, j: int): (r: seq<T>)
    ensures 0 <= i <= j <= |s| ==> r == s[i..j]
    ensures 0 <= i <= |s| && j >= |s| ==> r == s[i..]
  {
    var a := SliceBound(i, |s|);
    var b := SliceBound(j, |s|);
    if a <= b then s[a..b] else []
  }

  // ---------------------------------------------------------------- batches

  /** The payload stored with one text: `{"text": text, "metadata": metadata}`. */
  function Payload(text: string, metadata: Metadata): Record {
    map["text" := JStr(text), "metadata" := JDict(metadata)]
  }

  /** `[{"text": texts[i], "metadata": metadatas[i]} for i in range(len(texts))]`,
      which raises IndexError when there are fewer metadata than texts. */
  function Payloads(texts: seq<string>, metadatas: seq<Metadata>): (r: Result<seq<Record>, PyError>)
    ensures r.Ok? <==> |metadatas| >= |texts|
    ensures r.Err? ==> r.error == IndexError
  {
    if |metadatas| < |texts| then Err(IndexError)
    else Ok(seq(|texts|, i requires 0 <= i < |texts| => Payload(texts[i], metadatas[i])))
  }

  /** Payload `i` pairs text `i` with metadata `i`. */
  lemma PayloadsContents(texts: seq<string>, metadatas: seq<Metadata>)
    requires |metadatas| >= |texts|
    ensures var r := Payloads(texts, metadatas);
            && r.Ok? && |r.value| == |texts|
            && forall i :: 0 <= i < |texts| ==> r.value[i] == Payload(texts[i], metadatas[i])
  {
  }

  /** The payloads of the texts that have metadata, in order. */
  function Paired(texts: seq<string>, metadatas: seq<Metadata>): (r: seq<Record>)
    ensures |r| == Min(|texts|, |metadatas|)
  {
    seq(Min(|texts|, |metadatas|), i requires 0 <= i < Min(|texts|, |metadatas|) => Payload(texts[i], metadatas[i]))
  }

  /** `metadata`, or `[{} for _ in texts]` when it is `None`. */
  function MetadataOrDefault(metadata: Option<seq<Metadata>>, n: nat): (r: seq<Metadata>)
    ensures metadata.None? ==> |r| == n && forall i :: 0 <= i < n ==> r[i] == map[]
    ensures metadata.Some? ==> r == metadata.value
  {
    match metadata
    case None => seq(n, _ => map[])
    case Some(m) => m
  }

  /** `total_batches`, and the number of turns `range(total_batches)` makes. */
  function TotalBatches(n: nat, batchSize: int): (r: int)
    requires batchSize != 0
    ensures batchSize > 0 ==> 0 <= r && (r - 1) * batchSize < n <= r * batchSize
  {
    var t := FloorDiv(n + batchSize - 1, batchSize);
    FloorDivBounds(n + batchSize - 1, batchSize);
    assert batchSize > 0 ==> (t - 1) * batchSize == t * batchSize - batchSize;
    t
  }

  function Turns(n: nat, batchSize: int): nat
    requires batchSize != 0
  {
    if TotalBatches(n, batchSize) < 0 then 0 else TotalBatches(n, batchSize)
  }

  /** `start = batch_index * batch_size` */
  function BatchStart(b: nat, batchSize: int): int {
    b * batchSize
  }

  /** `end = min(start + batch_size, len(texts))` */
  function BatchEnd(b: nat, batchSize: int, n: nat): int {
    Min(BatchStart(b, batchSize) + batchSize, n)
  }

  /** The upload of the items in `[start, end)`, or the error it raises. */
  function BatchAt(name: string, texts: seq<string>, embeddings: seq<Vector>, metadatas: seq<Metadata>,
                   start: int, end: int): (r: Result<Call, PyError>)
    ensures r.Ok? <==> |PySlice(metadatas, start, end)| >= |PySlice(texts, start, end)|
    ensures r.Err? ==> r.error == IndexError
    ensures r.Ok? ==> && r.value.UploadCollection? && r.value.name == name
                      && r.value.vectors == PySlice(embeddings, start, end)
                      && |r.value.payloads| == |PySlice(texts, start, end)|
  {
    var payloads := Payloads(PySlice(texts, start, end), PySlice(metadatas, start, end));
    if payloads.Err? then Err(payloads.error)
    else Ok(UploadCollection(name, PySlice(embeddings, start, end), payloads.value))
  }

  /** The upload of turn `b`, or the error it raises. */
  function BatchCall(name: string, texts: seq<string>, embeddings: seq<Vector>, metadatas: seq<Metadata>,
                     batchSize: int, b: nat): Result<Call, PyError>
  {
    BatchAt(name, texts, embeddings, metadatas, BatchStart(b, batchSize), BatchEnd(b, batchSize, |texts|))
  }

  /** What one turn of a loop does: the request it makes, or the error it raises. */
  type Step = nat -> Result<Call, PyError>

  /** The turns of `add_embeddings`' loop. */
  function Batches(name: string, texts: seq<string>, embeddings: seq<Vector>, metadatas: seq<Metadata>,
                   batchSize: int): (r: Step)
    ensures forall b: nat :: r(b).Ok? ==> r(b).value.UploadCollection? && r(b).value.name == name
  {
    (b: nat) => BatchCall(name, texts, embeddings, metadatas, batchSize, b)
  }

  /** The requests made by the first `turns` turns of a loop that stops at the
      first turn that raises, and that error, if any. */
  datatype Outcome = Outcome(calls: seq<Call>, error: Option<PyError>)

  function Run(step: Step, turns: nat): (r: Outcome)
    ensures |r.calls| <= turns
    ensures r.error.None? ==> |r.calls| == turns
  {
    if turns == 0 then Outcome([], None)
    else
      var o := Run(step, turns - 1);
      if o.error.Some? then o
      else match step(turns - 1)
        case Err(e) => Outcome(o.calls, Some(e))
        case Ok(call) => Outcome(o.calls + [call], None)
  }

  function UploadedVectors(c: Call): seq<Vector> {
    if c.UploadCollection? then c.vectors else []
  }

  function UploadedPayloads(c: Call): seq<Record> {
    if c.UploadCollection? then c.payloads else []
  }

  // ---------------------------------------------------------------- batch arithmetic

  /** For a positive batch size, later batches start later. */
  lemma BatchStartMonotonic(b: nat, b': nat, batchSize: int)
    requires batchSize > 0 && b <= b'
    ensures 0 <= BatchStart(b, batchSize) <= BatchStart(b', batchSize)
    ensures b < b' ==> BatchStart(b, batchSize) + batchSize <= BatchStart(b', batchSize)
  {
    assert BatchStart(b', batchSize) - BatchStart(b, batchSize) == (b' - b) * batchSize;
    if b < b' {
      assert (b' - b) * batchSize == (b' - b - 1) * batchSize + batchSize;
    }
  }

  /** The batch after `b` starts `batch_size` items later. */
  lemma NextStart(b: nat, batchSize: int)
    ensures BatchStart(b + 1, batchSize) == BatchStart(b, batchSize) + batchSize
  {
    assert (b + 1) * batchSize == b * batchSize + batchSize;
  }

  /** For a positive batch size, `total_batches` is the ceiling of `n / batch_size`:
      the least count of batches that holds `n` items. */
  lemma TotalBatchesCeiling(n: nat, batchSize: int)
    requires batchSize > 0
    ensures Turns(n, batchSize) == TotalBatches(n, batchSize)
    ensures (Turns(n, batchSize) - 1) * batchSize < n <= Turns(n, batchSize) * batchSize
    ensures n == 0 <==> Turns(n, batchSize) == 0
  {
    var t := FloorDiv(n + batchSize - 1, batchSize);
    FloorDivBounds(n + batchSize - 1, batchSize);
    assert batchSize * t <= n + batchSize - 1 < batchSize * t + batchSize;
    assert (t - 1) * batchSize == t * batchSize - batchSize;
    assert t >= 0;
  }

  /** The same ceiling, counted in batch starts: the last batch starts before `n`
      and the batch after it would start at or after `n`. */
  lemma TurnsCover(n: nat, batchSize: int)
    requires batchSize > 0
    ensures n <= BatchStart(Turns(n, batchSize), batchSize)
    ensures Turns(n, batchSize) > 0 ==> BatchStart(Turns(n, batchSize) - 1, batchSize) < n
    ensures n == 0 <==> Turns(n, batchSize) == 0
  {
    TotalBatchesCeiling(n, batchSize);
  }

  /** The batch ranges are non-empty, hold at most `batch_size` items each, only the
      last may be short, each starts where the one before it ended, and together they
      cover `[0, n)`. */
  lemma BatchRanges(n: nat, batchSize: int, b: nat)
    requires batchSize > 0 && b < Turns(n, batchSize)
    ensures 0 <= BatchStart(b, batchSize) < BatchEnd(b, batchSize, n) <= n
    ensures BatchEnd(b, batchSize, n) - BatchStart(b, batchSize) <= batchSize
    ensures b + 1 < Turns(n, batchSize) ==>
              BatchEnd(b, batchSize, n) - BatchStart(b, batchSize) == batchSize
              && BatchStart(b + 1, batchSize) == BatchEnd(b, batchSize, n)
    ensures b + 1 == Turns(n, batchSize) ==> BatchEnd(b, batchSize, n) == n
    ensures b == 0 ==> BatchStart(b, batchSize) == 0
  {
    var t := Turns(n, batchSize);
    TurnsCover(n, batchSize);
    BatchStartMonotonic(b, t - 1, batchSize);
    if b + 1 < t {
      BatchStartMonotonic(b + 1, t - 1, batchSize);
    }
  }

  /** A range inside the texts and the metadata uploads the vectors of the range
      and, pairwise with them, the texts and metadata of the same range. */
  lemma BatchAtContents(name: string, texts: seq<string>, embeddings: seq<Vector>, metadatas: seq<Metadata>,
                        start: int, end: int)
    requires 0 <= start <= end <= |texts| == |embeddings| && end <= |metadatas|
    ensures BatchAt(name, texts, embeddings, metadatas, start, end).Ok?
    ensures var c := BatchAt(name, texts, embeddings, metadatas, start, end).value;
            && c.UploadCollection? && c.name == name
            && c.vectors == embeddings[start..end] && |c.payloads| == end - start
            && forall i :: 0 <= i < end - start ==> c.payloads[i] == Payload(texts[start + i], metadatas[start + i])
  {
    var bt, bm := PySlice(texts, start, end), PySlice(metadatas, start, end);
    assert bt == texts[start..end] && bm == metadatas[start..end];
    assert PySlice(embeddings, start, end) == embeddings[start..end];
    PayloadsContents(bt, bm);
    var ps := Payloads(bt, bm).value;
    assert BatchAt(name, texts, embeddings, metadatas, start, end).value.payloads == ps;
    forall i | 0 <= i < end - start
      ensures ps[i] == Payload(texts[start + i], metadatas[start + i])
    {
      assert bt[i] == texts[start + i] && bm[i] == metadatas[start + i];
    }
  }

  /** A range that runs past the metadata raises IndexError. */
  lemma BatchAtShortMetadata(name: string, texts: seq<string>, embeddings: seq<Vector>, metadatas: seq<Metadata>,
                             start: int, end: int)
    requires 0 <= start <= |metadatas| < end <= |texts|
    ensures BatchAt(name, texts, embeddings, metadatas, start, end) == Err(IndexError)
  {
    assert |PySlice(metadatas, start, end)| == |metadatas| - start;
  }

  // ---------------------------------------------------------------- the loop

  /** Turn `b` slices the three lists at the batch bounds and uploads the payloads
      built from the slices, or raises what building them raised. */
  lemma BatchTurn(name: string, texts: seq<string>, embeddings: seq<Vector>, metadatas: seq<Metadata>,
                  batchSize: int, b: nat)
    ensures var start := BatchStart(b, batchSize);
            var end := BatchEnd(b, batchSize, |texts|);
            var documents := Payloads(PySlice(texts, start, end), PySlice(metadatas, start, end));
            Batches(name, texts, embeddings, metadatas, batchSize)(b)
            == if documents.Err? then Err(documents.error)
               else Ok(UploadCollection(name, PySlice(embeddings, start, end), documents.value))
  {
  }

  /** While the metadata lasts, every turn uploads one batch, and the uploads so far
      hold exactly the first `min(turns * batch_size, n)` vectors and payloads. */
  lemma {:induction false} RunPrefix(name: string, texts: seq<string>, embeddings: seq<Vector>, metadatas: seq<Metadata>,
                                     batchSize: int, turns: nat)
    requires batchSize > 0 && |embeddings| == |texts| && turns <= Turns(|texts|, batchSize)
    requires Min(BatchStart(turns, batchSize), |texts|) <= |metadatas|
    ensures var o := Run(Batches(name, texts, embeddings, metadatas, batchSize), turns);
            var m := Min(BatchStart(turns, batchSize), |texts|);
            && o.error.None? && |o.calls| == turns
            && ConcatMap(o.calls, UploadedVectors) == embeddings[..m]
            && ConcatMap(o.calls, UploadedPayloads) == Paired(texts, metadatas)[..m]
  {
    if turns > 0 {
      var b := turns - 1;
      var start, end := BatchStart(b, batchSize), BatchEnd(b, batchSize, |texts|);
      BatchRanges(|texts|, batchSize, b);
      NextStart(b, batchSize);
      assert Min(start, |texts|) == start;
      RunPrefix(name, texts, embeddings, metadatas, batchSize, b);
      BatchAtContents(name, texts, embeddings, metadatas, start, end);
      var step := Batches(name, texts, embeddings, metadatas, batchSize);
      var o := Run(step, b);
      var call := BatchCall(name, texts, embeddings, metadatas, batchSize, b).value;
      RunAppends(step, b, call);
      UploadsGrow(o.calls, call, embeddings, Paired(texts, metadatas), texts, metadatas, start, end);
    }
  }

  /** Appending the upload of `[start, end)` to uploads that hold the items before
      `start` gives uploads that hold the items before `end`. */
  lemma UploadsGrow(calls: seq<Call>, call: Call, embeddings: seq<Vector>, paired: seq<Record>,
                    texts: seq<string>, metadatas: seq<Metadata>, start: nat, end: nat)
    requires start <= end <= |embeddings| && end <= |paired|
    requires paired == Paired(texts, metadatas)
    requires ConcatMap(calls, UploadedVectors) == embeddings[..start]
    requires ConcatMap(calls, UploadedPayloads) == paired[..start]
    requires call.UploadCollection? && call.vectors == embeddings[start..end] && |call.payloads| == end - start
    requires forall i :: 0 <= i < end - start ==> call.payloads[i] == Payload(texts[start + i], metadatas[start + i])
    ensures ConcatMap(calls + [call], UploadedVectors) == embeddings[..end]
    ensures ConcatMap(calls + [call], UploadedPayloads) == paired[..end]
  {
    ConcatMapSnoc(calls, call, UploadedVectors);
    ConcatMapSnoc(calls, call, UploadedPayloads);
    assert embeddings[..start] + embeddings[start..end] == embeddings[..end];
    assert paired[..start] + call.payloads == paired[..end];
  }

  lemma ConcatMapSnoc<A, B>(xs: seq<A>, x: A, f: A -> seq<B>)
    ensures ConcatMap(xs + [x], f) == ConcatMap(xs, f) + f(x)
  {
    assert (xs + [x])[..|xs|] == xs;
  }

  /** With metadata for every text, every batch is uploaded and the uploads hold all
      the embeddings and all the payloads, in order. */
  lemma RunComplete(name: string, texts: seq<string>, embeddings: seq<Vector>, metadatas: seq<Metadata>, batchSize: int)
    requires batchSize > 0 && |embeddings| == |texts| <= |metadatas|
    ensures var o := Run(Batches(name, texts, embeddings, metadatas, batchSize), Turns(|texts|, batchSize));
            && o.error.None? && |o.calls| == Turns(|texts|, batchSize)
            && ConcatMap(o.calls, UploadedVectors) == embeddings
            && ConcatMap(o.calls, UploadedPayloads) == Paired(texts, metadatas)
  {
    var t := Turns(|texts|, batchSize);
    TurnsCover(|texts|, batchSize);
    RunPrefix(name, texts, embeddings, metadatas, batchSize, t);
    assert embeddings[..|texts|] == embeddings;
    assert Paired(texts, metadatas)[..|texts|] == Paired(texts, metadatas);
  }

  /** A turn after a failed one changes nothing. */
  lemma {:induction false} RunStopped(step: Step, turns: nat, later: nat)
    requires turns <= later
    requires Run(step, turns).error.Some?
    ensures Run(step, later) == Run(step, turns)
    decreases later - turns
  {
    if turns < later {
      RunStopped(step, turns, later - 1);
    }
  }

  /** A successful turn after successful ones appends its request. */
  lemma RunAppends(step: Step, turns: nat, call: Call)
    requires Run(step, turns).error.None? && step(turns) == Ok(call)
    ensures Run(step, turns + 1) == Outcome(Run(step, turns).calls + [call], None)
  {
  }

  /** A turn that raises after successful ones ends the run with that error. */
  lemma RunFailsAt(step: Step, turns: nat, later: nat, e: PyError)
    requires turns < later && Run(step, turns).error.None? && step(turns) == Err(e)
    ensures Run(step, later) == Outcome(Run(step, turns).calls, Some(e))
  {
    RunStopped(step, turns + 1, later);
  }

  /** With fewer metadata than texts, the batches wholly covered by the metadata are
      uploaded, then the next one raises IndexError and nothing more is uploaded. */
  lemma RunShortMetadata(name: string, texts: seq<string>, embeddings: seq<Vector>, metadatas: seq<Metadata>, batchSize: int)
    requires batchSize > 0 && |embeddings| == |texts| > |metadatas|
    ensures var o := Run(Batches(name, texts, embeddings, metadatas, batchSize), Turns(|texts|, batchSize));
            var full := |metadatas| / batchSize;
            && o.error == Some(IndexError) && |o.calls| == full && full * batchSize <= |metadatas|
            && ConcatMap(o.calls, UploadedVectors) == embeddings[..full * batchSize]
            && ConcatMap(o.calls, UploadedPayloads) == Paired(texts, metadatas)[..full * batchSize]
  {
    var n, t, full := |texts|, Turns(|texts|, batchSize), |metadatas| / batchSize;
    CoveredBatches(n, batchSize, |metadatas|);
    var start := BatchStart(full, batchSize);
    assert 0 <= start <= |metadatas| < |texts|;
    RunPrefix(name, texts, embeddings, metadatas, batchSize, full);
    var o := Run(Batches(name, texts, embeddings, metadatas, batchSize), full);
    assert o.error.None? && |o.calls| == full;
    assert ConcatMap(o.calls, UploadedVectors) == embeddings[..start];
    assert ConcatMap(o.calls, UploadedPayloads) == Paired(texts, metadatas)[..start];
    BatchAtShortMetadata(name, texts, embeddings, metadatas, BatchStart(full, batchSize), BatchEnd(full, batchSize, n));
    RunFailsAt(Batches(name, texts, embeddings, metadatas, batchSize), full, t, IndexError);
  }

  /** With `m < n` metadata, the first `m / batch_size` batches lie inside the
      metadata and the next batch runs past it. */
  lemma CoveredBatches(n: nat, batchSize: int, m: nat)
    requires batchSize > 0 && m < n
    ensures m / batchSize < Turns(n, batchSize)
    ensures 0 <= BatchStart(m / batchSize, batchSize) <= m < BatchEnd(m / batchSize, batchSize, n) <= n
  {
    var t, full := Turns(n, batchSize), m / batchSize;
    assert full * batchSize <= m < full * batchSize + batchSize;
    TurnsCover(n, batchSize);
    if t <= full {
      BatchStartMonotonic(t, full, batchSize);
    }
    BatchStartMonotonic(0, full, batchSize);
  }

  /** Empty input makes no upload. */
  lemma RunEmpty(name: string, embeddings: seq<Vector>, metadatas: seq<Metadata>, batchSize: int)
    requires batchSize > 0
    ensures Turns(0, batchSize) == 0
    ensures Run(Batches(name, [], embeddings, metadatas, batchSize), Turns(0, batchSize)) == Outcome([], None)
  {
    TurnsCover(0, batchSize);
  }

  // ---------------------------------------------------------------- points

  /** `[{"id": id_, "vector": vectors[i], "payload": payloads[i]} for i, id_ in enumerate(ids)]`,
      which raises IndexError when either list is shorter than `ids`. */
  function BuildPoints(ids: seq<int>, vectors: seq<Vector>, payloads: seq<Record>): (r: Result<seq<Point>, PyError>)
    ensures r.Ok? <==> |vectors| >= |ids| && |payloads| >= |ids|
    ensures r.Err? ==> r.error == IndexError
    ensures r.Ok? ==> |r.value| == |ids|
    ensures r.Ok? ==> forall i :: 0 <= i < |ids| ==> r.value[i] == Point(ids[i], vectors[i], payloads[i])
  {
    if |vectors| < |ids| || |payloads| < |ids| then Err(IndexError)
    else Ok(seq(|ids|, i requires 0 <= i < |ids| => Point(ids[i], vectors[i], payloads[i])))
  }

  const MismatchMessage := "El número de textos y embeddings debe coincidir."

  class QdrantVectorStore {
    const client: Client
    const collectionName: string

    /** Opens the client on storage holding `existing` and creates the collection
        only when no collection of that name exists. */
    constructor (existing: map<string, nat>, collectionName: string, vectorSize: nat)
      ensures fresh(client) && this.collectionName == collectionName
      ensures collectionName in existing ==> client.collections == existing && client.log == []
      ensures collectionName !in existing ==>
                client.collections == existing[collectionName := vectorSize]
                && client.log == [CreateCollection(collectionName, vectorSize)]
    {
      var c := new Client(existing);
      if collectionName !in c.collections {
        c.CreateCollection(collectionName, vectorSize);
      }
      client := c;
      this.collectionName := collectionName;
    }

    /** `add_embeddings(texts, embeddings, metadata, batch_size)` */
    method AddEmbeddings(texts: seq<string>, embeddings: seq<Vector>, metadata: Option<seq<Metadata>>, batchSize: int)
      returns (r: Result<Unit, PyError>)
      modifies client
      ensures client.collections == old(client.collections)
      ensures |texts| != |embeddings| ==> r == Err(ValueError(MismatchMessage)) && client.log == old(client.log)
      ensures |texts| == |embeddings| && batchSize == 0 ==> r == Err(ZeroDivisionError) && client.log == old(client.log)
      ensures |texts| == |embeddings| && batchSize != 0 ==>
                var o := Run(Batches(collectionName, texts, embeddings, MetadataOrDefault(metadata, |texts|), batchSize),
                             Turns(|texts|, batchSize));
                && client.log == old(client.log) + o.calls
                && r == (if o.error.Some? then Err(o.error.value) else Ok(Unit))
    {
      if |texts| != |embeddings| {
        return Err(ValueError(MismatchMessage));
      }
      var metadatas := MetadataOrDefault(metadata, |texts|);
      if batchSize == 0 {
        return Err(ZeroDivisionError);
      }
      var totalBatches := FloorDiv(|texts| + batchSize - 1, batchSize);
      r := UploadBatches(texts, embeddings, metadatas, batchSize, totalBatches);
    }

    /** The loop `for batch_index in range(total_batches)` of `add_embeddings`: stops at
        the first batch that raises. */
    method UploadBatches(texts: seq<string>, embeddings: seq<Vector>, metadatas: seq<Metadata>,
                         batchSize: int, totalBatches: int)
      returns (r: Result<Unit, PyError>)
      requires batchSize != 0 && totalBatches == TotalBatches(|texts|, batchSize)
      modifies client
      ensures client.collections == old(client.collections)
      ensures var o := Run(Batches(collectionName, texts, embeddings, metadatas, batchSize), Turns(|texts|, batchSize));
              && client.log == old(client.log) + o.calls
              && r == (if o.error.Some? then Err(o.error.value) else Ok(Unit))
    {
      ghost var turns := Turns(|texts|, batchSize);
      assert turns == if totalBatches < 0 then 0 else totalBatches;
      var b := 0;
      while b < totalBatches
        invariant b <= turns
        invariant Run(Batches(collectionName, texts, embeddings, metadatas, batchSize), b).error.None?
        invariant client.collections == old(client.collections)
        invariant client.log == old(client.log) + Run(Batches(collectionName, texts, embeddings, metadatas, batchSize), b).calls
      {
        var failure := UploadBatch(texts, embeddings, metadatas, batchSize, b, old(client.log));
        if failure.Some? {
          assert Run(Batches(collectionName, texts, embeddings, metadatas, batchSize), turns)
                 == Run(Batches(collectionName, texts, embeddings, metadatas, batchSize), b + 1) by {
            RunStopped(Batches(collectionName, texts, embeddings, metadatas, batchSize), b + 1, turns);
          }
          return Err(failure.value);
        }
        b := b + 1;
      }
      assert b == turns;
      r := Ok(Unit);
    }

    /** One turn of the loop in `add_embeddings`: slices out batch `b`, builds its
        payloads and uploads it, or raises before uploading anything. After turns
        `0 .. b - 1` have uploaded their batches after `prior`, the log then holds the
        uploads of turns `0 .. b`, and the error is that of turn `b`. */
    method UploadBatch(texts: seq<string>, embeddings: seq<Vector>, metadatas: seq<Metadata>, batchSize: int, b: nat,
                       ghost prior: seq<Call>)
      returns (failure: Option<PyError>)
      requires Run(Batches(collectionName, texts, embeddings, metadatas, batchSize), b).error.None?
      requires client.log == prior + Run(Batches(collectionName, texts, embeddings, metadatas, batchSize), b).calls
      modifies client
      ensures client.collections == old(client.collections)
      ensures var o := Run(Batches(collectionName, texts, embeddings, metadatas, batchSize), b + 1);
              failure == o.error && client.log == prior + o.calls
    {
      ghost var step := Batches(collectionName, texts, embeddings, metadatas, batchSize);
      var start := BatchStart(b, batchSize);
      var end := BatchEnd(b, batchSize, |texts|);
      var batchTexts := PySlice(texts, start, end);
      var batchEmbeddings := PySlice(embeddings, start, end);
      var batchMetadata := PySlice(metadatas, start, end);
      var documents := Payloads(batchTexts, batchMetadata);
      BatchTurn(collectionName, texts, embeddings, metadatas, batchSize, b);
      ghost var done := Run(step, b).calls;
      if documents.Err? {
        RunFailsAt(step, b, b + 1, documents.error);
        return Some(documents.error);
      }
      ghost var call := UploadCollection(collectionName, batchEmbeddings, documents.value);
      RunAppends(step, b, call);
      client.UploadCollection(collectionName, batchEmbeddings, documents.value);
      AppendAssoc(prior, done, [call]);
      failure := None;
    }
  
    /** `update_embeddings(ids, new_embeddings, new_payloads)`: one upsert of the
        points `(ids[i], new_embeddings[i], new_payloads[i])`, or IndexError and no
        request when either list is shorter than `ids`. */
    method UpdateEmbeddings(ids: seq<int>, newEmbeddings: seq<Vector>, newPayloads: seq<Record>)
      returns (r: Result<Unit, PyError>)
      modifies client
      ensures client.collections == old(client.collections)
      ensures |newEmbeddings| >= |ids| && |newPayloads| >= |ids| ==>
                r == Ok(Unit)
                && client.log == old(client.log) + [Upsert(collectionName, BuildPoints(ids, newEmbeddings, newPayloads).value)]
      ensures |newEmbeddings| < |ids| || |newPayloads| < |ids| ==>
                r == Err(IndexError) && client.log == old(client.log)
    {
      var points := BuildPoints(ids, newEmbeddings, newPayloads);
      if points.Err? {
        return Err(points.error);
      }
      client.Upsert(collectionName, points.value);
      r := Ok(Unit);
    }
  }
}
