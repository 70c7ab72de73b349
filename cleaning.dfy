/**
 * The text cleaner `fn_clean_text`: lowercase, drop every character outside
 * `[a-záéíóúñü\s]`, replace the accented letters by their base letters, then keep
 * the lemmas of the tokens that are neither stop words nor punctuation, joined
 * with single spaces.
 *
 * The spaCy pipeline is library code; it is the parameter `analyze`.
 */
module Cleaning {
  import opened Text
  import opened Seqs

  // ---------------------------------------------------------------- lowercasing

  /** The upper-case letters whose lower-case forms survive the filter. */
  predicate IsUpper(c: char) {
    ('A' <= c <= 'Z')
    || c == '\U{C1}' || c == '\U{C9}' || c == '\U{CD}' || c == '\U{D3}'
    || c == '\U{DA}' || c == '\U{D1}' || c == '\U{DC}'
  }

  const KelvinSign: char := '\U{212A}'
  const CapitalIWithDot: char := '\U{130}'
  const CombiningDot: char := '\U{307}'

  /** `c.lower()` for the characters whose lower-case form can pass the filter:
      A–Z, ÁÉÍÓÚÑÜ, the Kelvin sign (to "k") and capital I with dot (to "i" and a
      combining dot). Every other character is kept, as neither it nor its true
      lower-case form passes the filter. */
  function LowerChar(c: char): (r: string)
    ensures 1 <= |r| <= 2
    ensures forall k :: 0 <= k < |r| ==> !IsUpper(r[k]) && r[k] != KelvinSign && r[k] != CapitalIWithDot
    ensures !IsUpper(c) && c != KelvinSign && c != CapitalIWithDot ==> r == [c]
  {
    if 'A' <= c <= 'Z' then [(c as int + 32) as char]
    else if c == '\U{C1}' then "\U{E1}"
    else if c == '\U{C9}' then "\U{E9}"
    else if c == '\U{CD}' then "\U{ED}"
    else if c == '\U{D3}' then "\U{F3}"
    else if c == '\U{DA}' then "\U{FA}"
    else if c == '\U{D1}' then "\U{F1}"
    else if c == '\U{DC}' then "\U{FC}"
    else if c == KelvinSign then "k"
    else if c == CapitalIWithDot then ['i', CombiningDot]
    else [c]
  }

  /** `text.lower()` */
  function Lower(s: string): (r: string)
    ensures |r| >= |s|
    ensures forall k :: 0 <= k < |r| ==> !IsUpper(r[k]) && r[k] != KelvinSign && r[k] != CapitalIWithDot
  {
    if s == [] then [] else LowerChar(s[0]) + Lower(s[1..])
  }

  lemma {:induction false} LowerAppend(a: string, b: string)
    ensures Lower(a + b) == Lower(a) + Lower(b)
    decreases |a|
  {
    if a == [] {
      assert a + b == b;
    } else {
      assert (a + b)[0] == a[0] && (a + b)[1..] == a[1..] + b;
      LowerAppend(a[1..], b);
      var c := LowerChar(a[0]);
      assert Lower(a + b) == c + Lower(a[1..] + b);
      AppendAssoc(c, Lower(a[1..]), Lower(b));
    }
  }

  /** Text with no upper-case letters is left alone. */
  lemma {:induction false} LowerOfLower(s: string)
    requires forall k :: 0 <= k < |s| ==> !IsUpper(s[k]) && s[k] != KelvinSign && s[k] != CapitalIWithDot
    ensures Lower(s) == s
    decreases |s|
  {
    if s != [] {
      LowerOfLower(s[1..]);
    }
  }

  /** Lowercasing twice is lowercasing once. */
  lemma LowerIdempotent(s: string)
    ensures Lower(Lower(s)) == Lower(s)
  {
    LowerOfLower(Lower(s));
  }

  // ---------------------------------------------------------------- the filter

  /** The accented letters of the filter's class. */
  predicate IsAccented(c: char) {
    || c == '\U{E1}' || c == '\U{E9}' || c == '\U{ED}' || c == '\U{F3}'
    || c == '\U{FA}' || c == '\U{F1}' || c == '\U{FC}'
  }

  /** Membership in the class `[a-záéíóúñü\s]`. */
  predicate Allowed(c: char) {
    ('a' <= c <= 'z') || IsAccented(c) || IsSpace(c)
  }

  predicate AllAllowed(s: string) {
    forall k :: 0 <= k < |s| ==> Allowed(s[k])
  }

  /** `re.sub(r"[^a-záéíóúñü\s]", "", text)`: deletes every character outside the class. */
  function RemoveSpecial(s: string): (r: string)
    ensures |r| <= |s|
    ensures AllAllowed(r)
  {
    if s == [] then []
    else if Allowed(s[0]) then [s[0]] + RemoveSpecial(s[1..])
    else RemoveSpecial(s[1..])
  }

  /** `a` is `b` with some characters deleted. */
  predicate Subsequence(a: string, b: string)
    decreases |b|
  {
    a == [] || (b != [] && ((a[0] == b[0] && Subsequence(a[1..], b[1..])) || Subsequence(a, b[1..])))
  }

  /** The filter only deletes. */
  lemma {:induction false} RemoveSpecialSubsequence(s: string)
    ensures Subsequence(RemoveSpecial(s), s)
    decreases |s|
  {
    if s != [] {
      RemoveSpecialSubsequence(s[1..]);
    }
  }

  /** The filter keeps every occurrence of an allowed character and none of any other. */
  lemma {:induction false} RemoveSpecialCounts(s: string)
    ensures forall c :: multiset(RemoveSpecial(s))[c] == if Allowed(c) then multiset(s)[c] else 0
    decreases |s|
  {
    if s != [] {
      RemoveSpecialCounts(s[1..]);
      assert s == [s[0]] + s[1..];
      assert multiset(s) == multiset([s[0]]) + multiset(s[1..]);
    }
  }

  /** Text made of allowed characters passes the filter unchanged. */
  lemma {:induction false} RemoveSpecialOfAllowed(s: string)
    requires AllAllowed(s)
    ensures RemoveSpecial(s) == s
    decreases |s|
  {
    if s != [] {
      RemoveSpecialOfAllowed(s[1..]);
    }
  }

  /** Filtering twice is filtering once. */
  lemma RemoveSpecialIdempotent(s: string)
    ensures RemoveSpecial(RemoveSpecial(s)) == RemoveSpecial(s)
  {
    RemoveSpecialOfAllowed(RemoveSpecial(s));
  }

  // ---------------------------------------------------------------- accents

  /** What `unidecode` makes of one character of the filtered text. */
  function BaseLetter(c: char): char {
    if c == '\U{E1}' then 'a'
    else if c == '\U{E9}' then 'e'
    else if c == '\U{ED}' then 'i'
    else if c == '\U{F3}' then 'o'
    else if c == '\U{FA}' then 'u'
    else if c == '\U{F1}' then 'n'
    else if c == '\U{FC}' then 'u'
    else c
  }

  /** `unidecode(text)` on filtered text: each accented letter becomes its base
      letter, one for one, and every other character stays. */
  function Unaccent(s: string): (r: string)
    ensures |r| == |s|
    ensures forall k :: 0 <= k < |s| ==> r[k] == s[k] || (IsAccented(s[k]) && 'a' <= r[k] <= 'z')
    ensures forall k :: 0 <= k < |r| ==> !IsAccented(r[k])
  {
    seq(|s|, k requires 0 <= k < |s| => BaseLetter(s[k]))
  }

  /** After the filter and `unidecode`, only ASCII letters and whitespace remain. */
  lemma UnaccentPlain(s: string)
    requires AllAllowed(s)
    ensures forall k :: 0 <= k < |s| ==> ('a' <= Unaccent(s)[k] <= 'z') || IsSpace(Unaccent(s)[k])
  {
  }

  /** The text handed to the NLP pipeline (steps 1 to 3): no digit, punctuation
      mark or symbol reaches it. */
  function NlpInput(text: string): (r: string)
    ensures forall k :: 0 <= k < |r| ==> ('a' <= r[k] <= 'z') || IsSpace(r[k])
  {
    UnaccentPlain(RemoveSpecial(Lower(text)));
    Unaccent(RemoveSpecial(Lower(text)))
  }

  // ---------------------------------------------------------------- tokens

  /** What the pipeline reports about one token. */
  datatype Token = Token(lemmaText: string, isStop: bool, isPunct: bool)

  /** The spaCy pipeline: the tokens of a text, in order. */
  type Analyzer = string -> seq<Token>

  predicate Kept(t: Token) {
    !t.isStop && !t.isPunct
  }

  /** `[token.lemma_ for token in doc if not token.is_stop and not token.is_punct]` */
  function KeptLemmas(tokens: seq<Token>): (r: seq<string>)
    ensures |r| <= |tokens|
  {
    if tokens == [] then []
    else (if Kept(tokens[0]) then [tokens[0].lemmaText] else []) + KeptLemmas(tokens[1..])
  }

  /** The lemmas of consecutive runs of tokens come out consecutively, in token order. */
  lemma {:induction false} KeptLemmasAppend(a: seq<Token>, b: seq<Token>)
    ensures KeptLemmas(a + b) == KeptLemmas(a) + KeptLemmas(b)
    decreases |a|
  {
    if a == [] {
      assert a + b == b;
    } else {
      assert (a + b)[0] == a[0] && (a + b)[1..] == a[1..] + b;
      KeptLemmasAppend(a[1..], b);
    }
  }

  /** No lemma is kept exactly when every token is a stop word or punctuation
      (which holds when there are no tokens). */
  lemma {:induction false} KeptLemmasEmptyIff(tokens: seq<Token>)
    ensures KeptLemmas(tokens) == [] <==> forall k :: 0 <= k < |tokens| ==> !Kept(tokens[k])
    decreases |tokens|
  {
    if tokens != [] {
      KeptLemmasEmptyIff(tokens[1..]);
      if !Kept(tokens[0]) {
        forall k | 0 <= k < |tokens| && !Kept(tokens[k]) && k > 0
          ensures !Kept(tokens[1..][k - 1])
        {
        }
        assert (forall k :: 0 <= k < |tokens[1..]| ==> !Kept(tokens[1..][k]))
            <==> (forall k :: 0 <= k < |tokens| ==> !Kept(tokens[k])) by {
          if forall k :: 0 <= k < |tokens[1..]| ==> !Kept(tokens[1..][k]) {
            forall k | 0 <= k < |tokens|
              ensures !Kept(tokens[k])
            {
              if k > 0 {
                assert tokens[k] == tokens[1..][k - 1];
              }
            }
          }
        }
      }
    }
  }

  /** Every token contributes its lemma exactly when it is kept. */
  lemma {:induction false} KeptLemmasCount(tokens: seq<Token>)
    ensures |KeptLemmas(tokens)| <= |tokens|
    ensures |KeptLemmas(tokens)| == |tokens| <==> forall k :: 0 <= k < |tokens| ==> Kept(tokens[k])
    decreases |tokens|
  {
    if tokens != [] {
      KeptLemmasCount(tokens[1..]);
      if forall k :: 0 <= k < |tokens[1..]| ==> Kept(tokens[1..][k]) {
        forall k | 0 <= k < |tokens| && Kept(tokens[0])
          ensures Kept(tokens[k])
        {
          if k > 0 {
            assert tokens[k] == tokens[1..][k - 1];
          }
        }
      } else {
        var k :| 0 <= k < |tokens[1..]| && !Kept(tokens[1..][k]);
        assert !Kept(tokens[k + 1]);
      }
    }
  }

  // ---------------------------------------------------------------- the cleaner

  /** `fn_clean_text(text)`: the kept lemmas of the analysed text, joined with single
      spaces; the empty string when no token is kept. */
  function CleanText(text: string, analyze: Analyzer): (r: string)
    ensures var tokens := analyze(NlpInput(text));
            (forall k :: 0 <= k < |tokens| ==> !Kept(tokens[k])) ==> r == []
  {
    KeptLemmasEmptyIff(analyze(NlpInput(text)));
    Join(KeptLemmas(analyze(NlpInput(text))), " ")
  }

  /** The words of the cleaned text are exactly the words of the kept lemmas, in
      token order, and so are as many as those lemmas hold together. */
  lemma CleanTextWords(text: string, analyze: Analyzer)
    ensures Words(CleanText(text, analyze)) == AllWords(KeptLemmas(analyze(NlpInput(text))))
    ensures WordCount(CleanText(text, analyze)) == TotalWords(KeptLemmas(analyze(NlpInput(text))))
  {
    JoinedWords(KeptLemmas(analyze(NlpInput(text))));
    JoinedWordCount(KeptLemmas(analyze(NlpInput(text))));
  }
}
