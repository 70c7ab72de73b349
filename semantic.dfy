/**
 * The two-stage chunker `fn_semantic_chunk`.
 *
 * Stage one cuts every document with a fixed-size splitter and stamps each piece
 * with the document's metadata. Stage two re-splits every piece into sentences,
 * strips them, and regroups them greedily: a group is closed as soon as the next
 * sentence would take its word count past `minLength`.
 *
 * The splitter and the sentence segmenter are library code and are parameters here.
 */
module Semantic {
  import opened Text
  import opened Seqs
  import opened Entity

  /** The fixed-size splitter, already configured with the initial chunk size and
      no overlap: the texts of the pieces of a document, in order. */
  type Splitter = string -> seq<string>

  /** The sentence segmenter: the texts of the sentences of a text, in order. */
  type Sentencizer = string -> seq<string>

  // ---------------------------------------------------------------- stage one

  /** The pieces of one document, each carrying that document's metadata. */
  function Stamped(split: Splitter): Document -> seq<Document> {
    (d: Document) => seq(|split(d.content)|, j requires 0 <= j < |split(d.content)| =>
               Document(split(d.content)[j], d.metadata))
  }

  /** The initial segments of all documents, document after document. */
  function Segments(docs: seq<Document>, split: Splitter): seq<Document> {
    ConcatMap(docs, Stamped(split))
  }

  /** Stage one, as `fn_semantic_chunk` runs it: split each document, overwrite each
      piece's metadata with the document's, and extend the list of segments. */
  method SplitDocuments(documents: seq<Document>, split: Splitter) returns (initialChunks: seq<Document>)
    ensures initialChunks == Segments(documents, split)
  {
    initialChunks := [];
    for d := 0 to |documents|
      invariant initialChunks == ConcatMap(documents[..d], Stamped(split))
    {
      var document := documents[d];
      var pieces := split(document.content);
      // the splitter's own documents carry no metadata
      var splits := seq(|pieces|, j requires 0 <= j < |pieces| => Document(pieces[j], map[]));
      for j := 0 to |splits|
        invariant |splits| == |pieces|
        invariant forall t :: 0 <= t < |splits| ==> splits[t].content == pieces[t]
        invariant forall t :: 0 <= t < j ==> splits[t].metadata == document.metadata
      {
        splits := splits[j := splits[j].(metadata := document.metadata)];
      }
      assert splits == Stamped(split)(document);
      ConcatMapStep(documents, Stamped(split), d);
      initialChunks := initialChunks + splits;
    }
    assert documents[..|documents|] == documents;
  }

  /** Segment `j` of document `i` sits right after the segments of the documents
      before it, holds the splitter's piece `j` and carries document `i`'s metadata. */
  lemma SegmentAt(docs: seq<Document>, split: Splitter, i: nat, j: nat)
    requires i < |docs| && j < |split(docs[i].content)|
    ensures |Segments(docs[..i], split)| + j < |Segments(docs[..i + 1], split)| <= |Segments(docs, split)|
    ensures Segments(docs, split)[|Segments(docs[..i], split)| + j]
         == Document(split(docs[i].content)[j], docs[i].metadata)
  {
    ConcatMapAt(docs, Stamped(split), i, j);
  }

  /** Every segment is a piece of exactly one document and carries that document's
      metadata; segments of earlier documents come first. */
  lemma SegmentOrigin(docs: seq<Document>, split: Splitter, k: nat) returns (i: nat, j: nat)
    requires k < |Segments(docs, split)|
    ensures i < |docs| && j < |split(docs[i].content)|
    ensures k == |Segments(docs[..i], split)| + j
    ensures Segments(docs, split)[k] == Document(split(docs[i].content)[j], docs[i].metadata)
  {
    i, j := ConcatMapOrigin(docs, Stamped(split), k);
  }

  /** Segments of document `i` all precede those of any later document `i'`. */
  lemma SegmentsInDocumentOrder(docs: seq<Document>, split: Splitter, i: nat, i': nat)
    requires i < i' <= |docs|
    ensures |Segments(docs[..i], split)| + |split(docs[i].content)| <= |Segments(docs[..i'], split)|
  {
    ConcatMapStep(docs, Stamped(split), i);
    ConcatMapOrdered(docs, Stamped(split), i + 1, i');
  }

  // ---------------------------------------------------------------- stage two

  /** `sent.text.strip()` for every sentence of the segment. */
  function StripAll(sents: seq<string>): seq<string> {
    seq(|sents|, k requires 0 <= k < |sents| => Strip(sents[k]))
  }

  /** The rest of the greedy pass over `sents`, from a state where the sentences
      `current` (with `currentLength` words) are being gathered. */
  function Greedy(sents: seq<string>, minLength: int, current: seq<string>, currentLength: int): (r: seq<seq<string>>)
    ensures r == [] <==> sents == [] && current == []
    decreases |sents|
  {
    if sents == [] then
      (if current == [] then [] else [current])
    else
      var n := WordCount(sents[0]);
      if currentLength + n > minLength then
        (if current == [] then [] else [current]) + Greedy(sents[1..], minLength, [sents[0]], n)
      else
        Greedy(sents[1..], minLength, current + [sents[0]], currentLength + n)
  }

  /** The groups of sentences the greedy pass closes, in order. */
  function Groups(sents: seq<string>, minLength: int): (r: seq<seq<string>>)
    ensures r == [] <==> sents == []
  {
    Greedy(sents, minLength, [], 0)
  }

  /** Every sentence of `g` after the first was added without taking the running
      word count past `minLength`. */
  predicate Fits(g: seq<string>, minLength: int) {
    forall k :: 1 <= k < |g| ==> TotalWords(g[..k]) + WordCount(g[k]) <= minLength
  }

  lemma {:induction false} GreedyFlatten(sents: seq<string>, m: int, current: seq<string>, len: int)
    ensures Flatten(Greedy(sents, m, current, len)) == current + sents
    ensures forall g :: g in Greedy(sents, m, current, len) ==> g != []
    decreases |sents|
  {
    if sents == [] {
      assert current + sents == current;
    } else {
      var x, rest := sents[0], sents[1..];
      assert sents == [x] + rest;
      var n := WordCount(x);
      if len + n > m {
        var tail := Greedy(rest, m, [x], n);
        GreedyFlatten(rest, m, [x], n);
        if current != [] {
          assert ([current] + tail)[0] == current && ([current] + tail)[1..] == tail;
          assert Flatten([current] + tail) == current + Flatten(tail);
          assert current + ([x] + rest) == current + sents;
        } else {
          assert [] + tail == tail;
          assert [x] + rest == current + sents;
        }
      } else {
        GreedyFlatten(rest, m, current + [x], len + n);
        assert current + [x] + rest == current + sents;
      }
    }
  }

  /** A sentence that fits may join a group. */
  lemma FitsSnoc(current: seq<string>, x: string, m: int)
    requires Fits(current, m) && TotalWords(current) + WordCount(x) <= m
    ensures Fits(current + [x], m)
  {
    var next := current + [x];
    forall k | 1 <= k < |next|
      ensures TotalWords(next[..k]) + WordCount(next[k]) <= m
    {
      if k < |current| {
        assert next[..k] == current[..k];
      } else {
        assert next[..k] == current;
      }
    }
  }

  lemma {:induction false} GreedyFits(sents: seq<string>, m: int, current: seq<string>, len: int)
    requires len == TotalWords(current) && Fits(current, m)
    ensures forall g :: g in Greedy(sents, m, current, len) ==> Fits(g, m)
    decreases |sents|
  {
    if sents != [] {
      var x, rest := sents[0], sents[1..];
      var n := WordCount(x);
      if len + n > m {
        TotalWordsSingle(x);
        GreedyFits(rest, m, [x], n);
      } else {
        FitsSnoc(current, x, m);
        TotalWordsAppend(current, [x]);
        TotalWordsSingle(x);
        GreedyFits(rest, m, current + [x], len + n);
      }
    }
  }

  /** Each group after the first was opened because its first sentence would have
      taken the group before it past `m`. */
  predicate ClosesWhenFull(gs: seq<seq<string>>, m: int) {
    forall i :: 1 <= i < |gs| ==> gs[i] != [] && TotalWords(gs[i - 1]) + WordCount(gs[i][0]) > m
  }

  /** A group closed in front of groups that close when full keeps them closing
      when full, provided the next group's first sentence would have overflowed it. */
  lemma ClosedBefore(current: seq<string>, tail: seq<seq<string>>, m: int)
    requires tail != [] && tail[0] != [] && TotalWords(current) + WordCount(tail[0][0]) > m
    requires ClosesWhenFull(tail, m)
    ensures ClosesWhenFull([current] + tail, m)
  {
    var r := [current] + tail;
    forall i | 1 <= i < |r|
      ensures r[i] != [] && TotalWords(r[i - 1]) + WordCount(r[i][0]) > m
    {
      assert r[i] == tail[i - 1];
      if i > 1 {
        assert r[i - 1] == tail[i - 2];
      }
    }
  }

  lemma {:induction false} GreedyFlushes(sents: seq<string>, m: int, current: seq<string>, len: int)
    requires len == TotalWords(current)
    ensures var r := Greedy(sents, m, current, len);
      current != [] ==> r != [] && |current| <= |r[0]| && r[0][..|current|] == current
    ensures ClosesWhenFull(Greedy(sents, m, current, len), m)
    decreases |sents|
  {
    if sents != [] {
      var x, rest := sents[0], sents[1..];
      var n := WordCount(x);
      assert TotalWords([x]) == n;
      if len + n > m {
        var tail := Greedy(rest, m, [x], n);
        GreedyFlushes(rest, m, [x], n);
        if current != [] {
          assert Greedy(sents, m, current, len) == [current] + tail;
          assert tail[0][0] == tail[0][..1][0] == x;
          ClosedBefore(current, tail, m);
        } else {
          assert Greedy(sents, m, current, len) == tail;
        }
      } else {
        var next := current + [x];
        TotalWordsAppend(current, [x]);
        GreedyFlushes(rest, m, next, len + n);
        var r := Greedy(rest, m, next, len + n);
        assert Greedy(sents, m, current, len) == r;
        assert r[0][..|current|] == r[0][..|next|][..|current|];
      }
    }
  }

  /** Regrouping is a partition: concatenating the groups gives the sentences back,
      in order, no group is empty, and there are groups exactly when there are sentences. */
  lemma GroupsPartition(sents: seq<string>, m: int)
    ensures Flatten(Groups(sents, m)) == sents
    ensures forall g :: g in Groups(sents, m) ==> g != []
    ensures Groups(sents, m) == [] <==> sents == []
  {
    GreedyFlatten(sents, m, [], 0);
  }

  /** A group of two or more sentences has at most `m` words; every sentence after
      the first was added only because it still fitted. */
  lemma GroupsBounded(sents: seq<string>, m: int)
    ensures forall g :: g in Groups(sents, m) ==> Fits(g, m)
    ensures forall g :: g in Groups(sents, m) && |g| >= 2 ==> TotalWords(g) <= m
  {
    GreedyFits(sents, m, [], 0);
    forall g | g in Groups(sents, m) && |g| >= 2
      ensures TotalWords(g) <= m
    {
      var k := |g| - 1;
      assert g == g[..k] + [g[k]];
      TotalWordsAppend(g[..k], [g[k]]);
    }
  }

  /** A group is closed exactly when the next sentence would take it past `m`. */
  lemma GroupsCloseWhenFull(sents: seq<string>, m: int)
    ensures ClosesWhenFull(Groups(sents, m), m)
  {
    GreedyFlushes(sents, m, [], 0);
  }

  /** The chunk a closed group becomes. */
  function ChunkOf(group: seq<string>, metadata: Metadata): Document {
    Document(Join(group, " "), metadata)
  }

  function Emit(groups: seq<seq<string>>, metadata: Metadata): seq<Document> {
    seq(|groups|, k requires 0 <= k < |groups| => ChunkOf(groups[k], metadata))
  }

  /** The chunks stage two makes of one segment. */
  function SegmentChunks(sentencize: Sentencizer, minLength: int): (r: Document -> seq<Document>)
    ensures forall seg: Document, k :: 0 <= k < |r(seg)| ==> r(seg)[k].metadata == seg.metadata
  {
    (seg: Document) => Emit(Groups(StripAll(sentencize(seg.content)), minLength), seg.metadata)
  }

  /** Everything `fn_semantic_chunk` returns. */
  function SemanticChunks(docs: seq<Document>, split: Splitter, sentencize: Sentencizer, minLength: int): (r: seq<Document>)
    ensures forall t :: 0 <= t < |r| ==> exists i :: 0 <= i < |docs| && r[t].metadata == docs[i].metadata
  {
    var segs := Segments(docs, split);
    var f := SegmentChunks(sentencize, minLength);
    assert forall t :: 0 <= t < |ConcatMap(segs, f)| ==>
        exists i :: 0 <= i < |docs| && ConcatMap(segs, f)[t].metadata == docs[i].metadata by {
      forall t | 0 <= t < |ConcatMap(segs, f)|
        ensures exists i :: 0 <= i < |docs| && ConcatMap(segs, f)[t].metadata == docs[i].metadata
      {
        var s, k := ConcatMapOrigin(segs, f, t);
        var i, j := SegmentOrigin(docs, split, s);
      }
    }
    ConcatMap(segs, f)
  }

  /** One turn of the greedy pass, at sentence `i`. */
  lemma GreedyStep(sents: seq<string>, i: nat, m: int, current: seq<string>, len: int)
    requires i < |sents|
    ensures var n := WordCount(sents[i]);
      Greedy(sents[i..], m, current, len)
      == if len + n > m then
           (if current == [] then [] else [current]) + Greedy(sents[i + 1..], m, [sents[i]], n)
         else
           Greedy(sents[i + 1..], m, current + [sents[i]], len + n)
  {
    assert sents[i..][0] == sents[i] && sents[i..][1..] == sents[i + 1..];
  }

  /** The state of `fn_semantic_chunk`'s sentence loop: the groups closed so far,
      the sentences being gathered and their word count. */
  datatype Pass = Pass(closed: seq<seq<string>>, current: seq<string>, length: int)

  /** One turn of `fn_semantic_chunk`'s sentence loop, over sentence `x`. */
  function Turn(p: Pass, x: string, m: int): (r: Pass)
    ensures p.closed <= r.closed && |r.closed| <= |p.closed| + 1
    ensures r.current != [] && Last(r.current) == x
  {
    var n := WordCount(x);
    if p.length + n > m then
      Pass(if p.current == [] then p.closed else p.closed + [p.current], [x], n)
    else
      Pass(p.closed, p.current + [x], p.length + n)
  }

  /** The loop's state after the first `i` sentences. */
  function PassAt(sents: seq<string>, m: int, i: nat): Pass
    requires i <= |sents|
  {
    if i == 0 then Pass([], [], 0) else Turn(PassAt(sents, m, i - 1), sents[i - 1], m)
  }

  /** What the loop returns once the sentences run out: the last group is closed too. */
  function Finish(p: Pass): seq<seq<string>> {
    if p.current == [] then p.closed else p.closed + [p.current]
  }

  /** The running count is always the word count of the sentences being gathered. */
  lemma {:induction false} PassCountsWords(sents: seq<string>, m: int, i: nat)
    requires i <= |sents|
    ensures PassAt(sents, m, i).length == TotalWords(PassAt(sents, m, i).current)
    decreases i
  {
    if i > 0 {
      PassCountsWords(sents, m, i - 1);
      var p := PassAt(sents, m, i - 1);
      TotalWordsSingle(sents[i - 1]);
      TotalWordsAppend(p.current, [sents[i - 1]]);
    }
  }

  /** One turn of the loop moves one sentence from the rest of the greedy pass into
      the loop's state without changing the groups they make together. */
  lemma PassStep(sents: seq<string>, m: int, i: nat)
    requires i < |sents|
    ensures var p := PassAt(sents, m, i);
      var q := PassAt(sents, m, i + 1);
      p.closed + Greedy(sents[i..], m, p.current, p.length)
      == q.closed + Greedy(sents[i + 1..], m, q.current, q.length)
  {
    var p := PassAt(sents, m, i);
    GreedyStep(sents, i, m, p.current, p.length);
    var x := sents[i];
    var n := WordCount(x);
    var q := Turn(p, x, m);
    assert PassAt(sents, m, i + 1) == q;
    if p.length + n > m {
      var rest := Greedy(sents[i + 1..], m, [x], n);
      assert q.current == [x] && q.length == n;
      if p.current == [] {
        assert q.closed == p.closed;
      } else {
        assert q.closed == p.closed + [p.current];
        AppendAssoc(p.closed, [p.current], rest);
      }
    } else {
      assert q == Pass(p.closed, p.current + [x], p.length + n);
    }
  }

  /** After `i` turns, the closed groups followed by the rest of the greedy pass are
      all the groups. */
  lemma {:induction false} PassGreedy(sents: seq<string>, m: int, i: nat)
    requires i <= |sents|
    ensures var p := PassAt(sents, m, i);
      p.closed + Greedy(sents[i..], m, p.current, p.length) == Groups(sents, m)
    decreases i
  {
    if i == 0 {
      assert sents[0..] == sents;
    } else {
      PassGreedy(sents, m, i - 1);
      PassStep(sents, m, i - 1);
    }
  }

  /** `fn_semantic_chunk`'s sentence loop, run over all the sentences and finished, closes exactly the
      groups of the greedy pass. */
  lemma PassGroups(sents: seq<string>, m: int)
    ensures Finish(PassAt(sents, m, |sents|)) == Groups(sents, m)
  {
    PassGreedy(sents, m, |sents|);
    assert sents[|sents|..] == [];
  }

  lemma EmitSnoc(closed: seq<seq<string>>, group: seq<string>, metadata: Metadata)
    ensures Emit(closed + [group], metadata) == Emit(closed, metadata) + [ChunkOf(group, metadata)]
  {
  }

  /** The final flush emits the group still being gathered, if any. */
  lemma FinishEmit(p: Pass, metadata: Metadata)
    ensures Emit(Finish(p), metadata)
         == Emit(p.closed, metadata) + (if p.current == [] then [] else [ChunkOf(p.current, metadata)])
  {
    if p.current != [] {
      EmitSnoc(p.closed, p.current, metadata);
    }
  }

  /** The chunks of the closed groups after the last turn, followed by the final
      flush, are the chunks of the groups of the recursive pass. */
  lemma FinishChunks(sents: seq<string>, m: int, metadata: Metadata)
    ensures var p := PassAt(sents, m, |sents|);
            Emit(Groups(sents, m), metadata)
            == Emit(p.closed, metadata) + (if p.current == [] then [] else [ChunkOf(p.current, metadata)])
  {
    PassGroups(sents, m);
    FinishEmit(PassAt(sents, m, |sents|), metadata);
  }

  /** Turn `i` of the pass over the stripped sentences takes sentence `i`, stripped. */
  lemma StrippedTurn(sents: seq<string>, m: int, i: nat)
    requires i < |sents|
    ensures PassAt(StripAll(sents), m, i + 1) == Turn(PassAt(StripAll(sents), m, i), Strip(sents[i]), m)
  {
    var stripped := StripAll(sents);
    assert stripped[i] == Strip(sents[i]);
  }

  /** One turn of stage two's loop: sentence `sentText` either closes the current
      group, which becomes a chunk, and opens the next one, or joins the current group. */
  method AddSentence(ghost closed: seq<seq<string>>, chunks: seq<Document>, current: seq<string>,
                     currentLength: int, sentText: string, minLength: int, metadata: Metadata)
    returns (ghost closed': seq<seq<string>>, chunks': seq<Document>, current': seq<string>, currentLength': int)
    requires chunks == Emit(closed, metadata)
    ensures Pass(closed', current', currentLength') == Turn(Pass(closed, current, currentLength), sentText, minLength)
    ensures chunks' == Emit(closed', metadata)
  {
    var sentLength := WordCount(sentText);
    closed', chunks' := closed, chunks;
    if currentLength + sentLength > minLength {
      if current != [] {
        EmitSnoc(closed, current, metadata);
        chunks' := chunks + [ChunkOf(current, metadata)];
        closed' := closed + [current];
      }
      current' := [sentText];
      currentLength' := sentLength;
    } else {
      current' := current + [sentText];
      currentLength' := currentLength + sentLength;
    }
  }

  /** Stage two over the sentences of one segment, as `fn_semantic_chunk` runs it. */
  method RegroupSentences(sents: seq<string>, minLength: int, metadata: Metadata) returns (chunks: seq<Document>)
    ensures chunks == Emit(Groups(StripAll(sents), minLength), metadata)
  {
    ghost var stripped := StripAll(sents);
    ghost var closed: seq<seq<string>> := [];
    var current: seq<string> := [];
    var currentLength := 0;
    chunks := [];
    for i := 0 to |sents|
      invariant Pass(closed, current, currentLength) == PassAt(stripped, minLength, i)
      invariant chunks == Emit(closed, metadata)
    {
      var sentText := Strip(sents[i]);
      StrippedTurn(sents, minLength, i);
      closed, chunks, current, currentLength :=
        AddSentence(closed, chunks, current, currentLength, sentText, minLength, metadata);
    }
    FinishChunks(stripped, minLength, metadata);
    if current != [] {
      chunks := chunks + [ChunkOf(current, metadata)];
    }
  }

  /** Stage two for one segment: segment it into sentences and regroup them. */
  method RegroupSegment(segment: Document, sentencize: Sentencizer, minLength: int) returns (chunks: seq<Document>)
    ensures chunks == SegmentChunks(sentencize, minLength)(segment)
  {
    var sents := sentencize(segment.content);
    chunks := RegroupSentences(sents, minLength, segment.metadata);
  }

  /** `fn_semantic_chunk`: stage one over all documents, then stage two over every
      segment, in order, appending each segment's chunks. */
  method SemanticChunk(documents: seq<Document>, split: Splitter, sentencize: Sentencizer, minLength: int)
    returns (chunks: seq<Document>)
    ensures chunks == SemanticChunks(documents, split, sentencize, minLength)
  {
    var initialChunks := SplitDocuments(documents, split);
    chunks := [];
    for c := 0 to |initialChunks|
      invariant chunks == ConcatMap(initialChunks[..c], SegmentChunks(sentencize, minLength))
    {
      var segmentChunks := RegroupSegment(initialChunks[c], sentencize, minLength);
      ConcatMapStep(initialChunks, SegmentChunks(sentencize, minLength), c);
      chunks := chunks + segmentChunks;
    }
    assert initialChunks[..|initialChunks|] == initialChunks;
  }

  /** The chunks of one segment are one per group of consecutive stripped
      sentences, joined with single spaces and carrying the segment's metadata; the
      groups partition the sentences, in order; and a segment yields chunks exactly
      when it has sentences. */
  lemma SegmentChunksPartition(segment: Document, sentencize: Sentencizer, minLength: int)
    ensures var sents := StripAll(sentencize(segment.content));
      var gs := Groups(sents, minLength);
      var cs := SegmentChunks(sentencize, minLength)(segment);
      && |cs| == |gs|
      && Flatten(gs) == sents
      && (cs == [] <==> sents == [])
      && (forall k :: 0 <= k < |cs| ==> gs[k] != [] && cs[k] == Document(Join(gs[k], " "), segment.metadata))
  {
    var sents := StripAll(sentencize(segment.content));
    var gs := Groups(sents, minLength);
    var cs := SegmentChunks(sentencize, minLength)(segment);
    assert cs == Emit(gs, segment.metadata);
    GroupsPartition(sents, minLength);
    forall k | 0 <= k < |cs|
      ensures gs[k] != [] && cs[k] == Document(Join(gs[k], " "), segment.metadata)
    {
      assert gs[k] in gs;
    }
  }

  /** A chunk's word count is the total of its sentences' word counts; it is at most
      `minLength` unless the chunk is a single sentence; and a chunk is closed only
      when the next sentence would take it past `minLength`. */
  lemma SegmentChunksBounded(segment: Document, sentencize: Sentencizer, minLength: int)
    ensures var gs := Groups(StripAll(sentencize(segment.content)), minLength);
      var cs := SegmentChunks(sentencize, minLength)(segment);
      && (forall k :: 0 <= k < |cs| ==>
            && WordCount(cs[k].content) == TotalWords(gs[k])
            && (|gs[k]| >= 2 ==> WordCount(cs[k].content) <= minLength))
      && (forall k :: 1 <= k < |cs| ==>
            gs[k] != [] && WordCount(cs[k - 1].content) + WordCount(gs[k][0]) > minLength)
  {
    var sents := StripAll(sentencize(segment.content));
    var gs := Groups(sents, minLength);
    assert SegmentChunks(sentencize, minLength)(segment) == Emit(gs, segment.metadata);
    EmitWords(gs, segment.metadata);
    GroupsBounded(sents, minLength);
    GroupsCloseWhenFull(sents, minLength);
  }

  /** Each emitted chunk has as many words as its group's sentences together. */
  lemma EmitWords(gs: seq<seq<string>>, metadata: Metadata)
    ensures forall k :: 0 <= k < |gs| ==> WordCount(Emit(gs, metadata)[k].content) == TotalWords(gs[k])
  {
    forall k | 0 <= k < |gs|
      ensures WordCount(Emit(gs, metadata)[k].content) == TotalWords(gs[k])
    {
      JoinedWordCount(gs[k]);
    }
  }

  /** Every final chunk is chunk `k` of segment `s`, and segment `s` is splitter
      piece `j` of document `i`; the chunk carries that document's metadata. */
  lemma ChunkOrigin(docs: seq<Document>, split: Splitter, sentencize: Sentencizer, minLength: int, t: nat)
    returns (i: nat, j: nat, s: nat, k: nat)
    requires t < |SemanticChunks(docs, split, sentencize, minLength)|
    ensures var segs := Segments(docs, split);
      && i < |docs| && j < |split(docs[i].content)|
      && s == |Segments(docs[..i], split)| + j && s < |segs|
      && segs[s] == Document(split(docs[i].content)[j], docs[i].metadata)
      && k < |SegmentChunks(sentencize, minLength)(segs[s])|
      && t == |ConcatMap(segs[..s], SegmentChunks(sentencize, minLength))| + k
      && SemanticChunks(docs, split, sentencize, minLength)[t] == SegmentChunks(sentencize, minLength)(segs[s])[k]
      && SemanticChunks(docs, split, sentencize, minLength)[t].metadata == docs[i].metadata
  {
    var segs := Segments(docs, split);
    s, k := ConcatMapOrigin(segs, SegmentChunks(sentencize, minLength), t);
    i, j := SegmentOrigin(docs, split, s);
  }

  /** The regrouping keeps what the splitter gave it in order: chunks of segment `s`
      all come before those of any later segment `s'`. */
  lemma ChunksInSegmentOrder(docs: seq<Document>, split: Splitter, sentencize: Sentencizer, minLength: int, s: nat, s': nat)
    requires s < s' <= |Segments(docs, split)|
    ensures var segs := Segments(docs, split);
      var f := SegmentChunks(sentencize, minLength);
      |ConcatMap(segs[..s], f)| + |f(segs[s])| <= |ConcatMap(segs[..s'], f)|
  {
    var segs := Segments(docs, split);
    ConcatMapStep(segs, SegmentChunks(sentencize, minLength), s);
    ConcatMapOrdered(segs, SegmentChunks(sentencize, minLength), s + 1, s');
  }

  /** A lone sentence is a group of its own whatever its length, so a chunk can
      be longer than `minLength`: the limit is not a cap. */
  lemma LongSentenceExceeds(sentence: string, m: int)
    requires WordCount(sentence) > m
    ensures Groups([sentence], m) == [[sentence]]
    ensures TotalWords([sentence]) > m
  {
    var sents := [sentence];
    assert sents[1..] == [];
    assert Greedy(sents[1..], m, [sents[0]], WordCount(sentence)) == [[sentence]];
    assert TotalWords(sents[1..]) == 0;
  }

  /** A sentence too long to join the group before it closes that group even when
      the group holds only an empty sentence. */
  lemma EmptyGroupClosed(sentence: string, m: int)
    requires 0 <= m < WordCount(sentence)
    ensures Groups(["", sentence], m) == [[""], [sentence]]
  {
    var sents := ["", sentence];
    assert sents[1..] == [sentence] && sents[1..][1..] == [];
    assert WordCount(sents[0]) == 0;
    assert [] + [sents[0]] == [""];
    var n := WordCount(sentence);
    assert Greedy(sents[1..][1..], m, [sentence], n) == [[sentence]];
    assert Greedy(sents[1..], m, [""], 0) == [[""]] + [[sentence]];
  }

  /** A whitespace-only sentence strips to "" and can be closed as a chunk of its
      own: the chunker may emit an empty chunk. */
  lemma EmptyChunkPossible(segment: Document, sentencize: Sentencizer, blank: string, sentence: string, m: int)
    requires sentencize(segment.content) == [blank, sentence]
    requires AllSpace(blank) && Stripped(sentence) && 0 <= m < WordCount(sentence)
    ensures SegmentChunks(sentencize, m)(segment)
         == [Document("", segment.metadata), Document(sentence, segment.metadata)]
  {
    StripBlankThenSentence(blank, sentence);
    EmptyGroupClosed(sentence, m);
    EmitBlankThenSentence(sentence, segment.metadata);
  }

  lemma StripBlankThenSentence(blank: string, sentence: string)
    requires AllSpace(blank) && Stripped(sentence)
    ensures StripAll([blank, sentence]) == ["", sentence]
  {
    var r := StripAll([blank, sentence]);
    assert r[0] == "" by { StripEmptyIffAllSpace(blank); }
    assert r[1] == sentence by { StripStripped(sentence); }
    PairOf(r, "", sentence);
  }

  lemma EmitBlankThenSentence(sentence: string, metadata: Metadata)
    ensures Emit([[""], [sentence]], metadata) == [Document("", metadata), Document(sentence, metadata)]
  {
    var gs: seq<seq<string>> := [[""], [sentence]];
    assert ChunkOf(gs[0], metadata) == Document("", metadata);
    assert ChunkOf(gs[1], metadata) == Document(sentence, metadata);
  }
}
