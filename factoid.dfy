/**
 * `prepare_questions_and_ground_truths`: parses the generated "Factoid question: ...
 * Answer: ..." strings into questions and reference answers, skipping the strings
 * that lack a marker or yield an empty part.
 *
 * The generator (an LLM chain over sampled documents) is library code; its output
 * is the parameter `generated`.
 */
module Factoid {
  import opened Wrappers
  import opened Text
  import opened Seqs

  const QuestionMarker := "Factoid question: "
  const AnswerMarker := "Answer: "

  /** The question and ground truth of one generated string, or None when it is skipped. */
  function ExtractPair(generated: string): (r: Option<(string, string)>)
    ensures !Contains(generated, QuestionMarker) || !Contains(generated, AnswerMarker) ==> r.None?
    ensures r.Some? ==> r.value.0 != [] && Stripped(r.value.0) && r.value.1 != [] && Stripped(r.value.1)
  {
    if Contains(generated, QuestionMarker) && Contains(generated, AnswerMarker) then
      var question := Strip(Split(Last(Split(generated, QuestionMarker)), AnswerMarker)[0]);
      var groundTruth := Strip(Last(Split(generated, AnswerMarker)));
      if question == [] || groundTruth == [] then None else Some((question, groundTruth))
    else
      None
  }

  /** Neither marker can overlap itself: its first character occurs nowhere else in it. */
  lemma MarkersHeadUnique()
    ensures HeadUnique(QuestionMarker) && HeadUnique(AnswerMarker)
  {
  }

  /** Where the question begins: right after the last question marker. */
  function QuestionStart(generated: string): (r: nat)
    ensures r <= |generated|
  {
    AfterLast(generated, QuestionMarker)
  }

  /** Where the question ends: at the first answer marker after its start, or at the
      end of the string. */
  function QuestionEnd(generated: string): (r: nat)
    ensures QuestionStart(generated) <= r <= |generated|
  {
    BeforeNext(generated, AnswerMarker, QuestionStart(generated))
  }

  /** Where the ground truth begins: right after the last answer marker. */
  function AnswerStart(generated: string): (r: nat)
    ensures r <= |generated|
  {
    AfterLast(generated, AnswerMarker)
  }

  /** The question is the stripped text from the end of the last question marker to
      the next answer marker (or the end); the ground truth is the stripped text after
      the last answer marker. A string is kept exactly when it holds both markers and
      both stripped texts are non-empty. */
  lemma ExtractPairText(generated: string)
    ensures var question := Strip(generated[QuestionStart(generated)..QuestionEnd(generated)]);
            var groundTruth := Strip(generated[AnswerStart(generated)..]);
            ExtractPair(generated)
            == if Contains(generated, QuestionMarker) && Contains(generated, AnswerMarker)
                  && question != [] && groundTruth != []
               then Some((question, groundTruth))
               else None
  {
    MarkersHeadUnique();
    var q := QuestionStart(generated);
    var afterQuestion := Last(Split(generated, QuestionMarker));
    SplitLast(generated, QuestionMarker);
    assert afterQuestion == generated[q..];
    SplitFirst(afterQuestion, AnswerMarker);
    BeforeNextShift(generated, AnswerMarker, q);
    assert Split(afterQuestion, AnswerMarker)[0] == generated[q..QuestionEnd(generated)];
    SplitLast(generated, AnswerMarker);
  }

  /** The pair of a string that is not skipped. */
  function Kept(pair: Option<(string, string)>): seq<(string, string)> {
    match pair
    case None => []
    case Some(p) => [p]
  }

  function PairOf(generated: string): seq<(string, string)> {
    Kept(ExtractPair(generated))
  }

  /** The pairs kept, in the order of the generated strings. */
  function Pairs(generated: seq<string>): seq<(string, string)> {
    ConcatMap(generated, PairOf)
  }

  function Questions(pairs: seq<(string, string)>): (r: seq<string>)
    ensures |r| == |pairs|
  {
    seq(|pairs|, k requires 0 <= k < |pairs| => pairs[k].0)
  }

  function GroundTruths(pairs: seq<(string, string)>): (r: seq<string>)
    ensures |r| == |pairs|
  {
    seq(|pairs|, k requires 0 <= k < |pairs| => pairs[k].1)
  }

  /** Text that does not contain `pat` has no piece that does. */
  lemma FreeSlice(s: string, pat: string, i: nat, j: nat)
    requires i <= j <= |s| && !Contains(s, pat)
    ensures !Contains(s[i..j], pat)
  {
    if Contains(s[i..j], pat) {
      ContainsSlice(s, pat, i, j);
    }
  }

  /** The first piece of a split is a prefix of the text, so it holds no pattern the
      text does not. */
  lemma FirstPieceFree(s: string, sep: string, pat: string)
    requires sep != [] && !Contains(s, pat)
    ensures !Contains(Split(s, sep)[0], pat)
  {
    var first := Split(s, sep)[0];
    SplitJoin(s, sep);
    assert first <= s;
    assert s[..|first|] == first;
    FreeSlice(s, pat, 0, |first|);
  }

  /** Stripping cannot make a marker appear. */
  lemma FreeStrip(s: string, pat: string)
    requires !Contains(s, pat)
    ensures !Contains(Strip(s), pat)
  {
    var i, j := StripTrims(s);
    FreeSlice(s, pat, i, j);
  }

  /** A kept pair comes from a string holding both markers; both parts are non-empty
      and stripped; the question holds neither marker and the ground truth holds no
      answer marker. */
  lemma ExtractPairProperties(generated: string)
    requires ExtractPair(generated).Some?
    ensures Contains(generated, QuestionMarker) && Contains(generated, AnswerMarker)
    ensures var (question, groundTruth) := ExtractPair(generated).value;
            && question != [] && Stripped(question)
            && groundTruth != [] && Stripped(groundTruth)
            && !Contains(question, QuestionMarker) && !Contains(question, AnswerMarker)
            && !Contains(groundTruth, AnswerMarker)
  {
    var afterQuestion := Last(Split(generated, QuestionMarker));
    SplitPiecesFree(generated, QuestionMarker);
    assert !Contains(afterQuestion, QuestionMarker);
    var beforeAnswer := Split(afterQuestion, AnswerMarker)[0];
    SplitPiecesFree(afterQuestion, AnswerMarker);
    assert !Contains(beforeAnswer, AnswerMarker);
    var pieces := Split(afterQuestion, AnswerMarker);
    assert pieces[0] == beforeAnswer;
    FirstPieceFree(afterQuestion, AnswerMarker, QuestionMarker);
    FreeStrip(beforeAnswer, QuestionMarker);
    FreeStrip(beforeAnswer, AnswerMarker);
    var afterAnswer := Last(Split(generated, AnswerMarker));
    SplitPiecesFree(generated, AnswerMarker);
    assert !Contains(afterAnswer, AnswerMarker);
    FreeStrip(afterAnswer, AnswerMarker);
  }

  /** The two lists have one entry per kept string, so they have equal length, at
      most the number of generated strings, and entry `k` of both comes from the same
      string, later entries from later strings. */
  lemma PairsOrigin(generated: seq<string>, k: nat) returns (i: nat)
    requires k < |Pairs(generated)|
    ensures i < |generated| && ExtractPair(generated[i]) == Some(Pairs(generated)[k])
    ensures |Pairs(generated[..i])| == k
  {
    var j;
    i, j := ConcatMapOrigin(generated, PairOf, k);
  }

  lemma {:induction false} PairsAtMostInputs(generated: seq<string>)
    ensures |Pairs(generated)| <= |generated|
    decreases |generated|
  {
    if generated != [] {
      PairsAtMostInputs(generated[..|generated| - 1]);
    }
  }

  /** Later kept strings give later entries. */
  lemma PairsInOrder(generated: seq<string>, k: nat, k': nat) returns (i: nat, i': nat)
    requires k < k' < |Pairs(generated)|
    ensures i < i' < |generated|
    ensures ExtractPair(generated[i]) == Some(Pairs(generated)[k])
    ensures ExtractPair(generated[i']) == Some(Pairs(generated)[k'])
  {
    i := PairsOrigin(generated, k);
    i' := PairsOrigin(generated, k');
    if i' <= i {
      ConcatMapOrdered(generated, PairOf, i', i);
      assert false;
    }
  }

  /** Every string that yields a pair contributes it. */
  lemma PairsComplete(generated: seq<string>, i: nat)
    requires i < |generated| && ExtractPair(generated[i]).Some?
    ensures |Pairs(generated[..i])| < |Pairs(generated)|
    ensures Pairs(generated)[|Pairs(generated[..i])|] == ExtractPair(generated[i]).value
  {
    ConcatMapAt(generated, PairOf, i, 0);
  }

  lemma AppendPair(pairs: seq<(string, string)>, more: seq<(string, string)>)
    requires |more| <= 1
    ensures Questions(pairs + more) == Questions(pairs) + Questions(more)
    ensures GroundTruths(pairs + more) == GroundTruths(pairs) + GroundTruths(more)
  {
  }

  /** One turn of the loop in `prepare_questions_and_ground_truths`, given what the
      parsing of the string gave: its question and ground truth are appended, unless
      the string is skipped. */
  method AddPair(questionsProcessed: seq<string>, groundTruths: seq<string>, pair: Option<(string, string)>)
    returns (questionsProcessed': seq<string>, groundTruths': seq<string>)
    ensures questionsProcessed' == questionsProcessed + Questions(Kept(pair))
    ensures groundTruths' == groundTruths + GroundTruths(Kept(pair))
  {
    match pair
    case None =>
      questionsProcessed', groundTruths' := questionsProcessed, groundTruths;
    case Some((questionProcessed, groundTruth)) =>
      questionsProcessed' := questionsProcessed + [questionProcessed];
      groundTruths' := groundTruths + [groundTruth];
  }

  /** `prepare_questions_and_ground_truths(query, sample_n)`, given the generated
      strings; `query` is not used. */
  method PrepareQuestionsAndGroundTruths(query: string, generated: seq<string>)
    returns (questionsProcessed: seq<string>, groundTruths: seq<string>)
    ensures questionsProcessed == Questions(Pairs(generated))
    ensures groundTruths == GroundTruths(Pairs(generated))
  {
    questionsProcessed := [];
    groundTruths := [];
    for n := 0 to |generated|
      invariant questionsProcessed == Questions(Pairs(generated[..n]))
      invariant groundTruths == GroundTruths(Pairs(generated[..n]))
    {
      ConcatMapStep(generated, PairOf, n);
      AppendPair(Pairs(generated[..n]), PairOf(generated[n]));
      questionsProcessed, groundTruths := AddPair(questionsProcessed, groundTruths, ExtractPair(generated[n]));
    }
    assert generated[..|generated|] == generated;
  }
}
