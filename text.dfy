/**
 * The Python string operations the pipeline relies on: whitespace, `str.strip()`,
 * `len(str.split())`, `sep.join(...)`, `pat in s` and `str.split(sep)`.
 */
module Text {
  import opened Wrappers

  /** The characters for which Python's `str.isspace()` holds; `str.split()`,
      `str.strip()` and the regular-expression class `\s` use the same set. */
  predicate IsSpace(c: char) {
    || c == ' ' || c == '\t' || c == '\n' || c == '\r' || c == '\U{0B}' || c == '\U{0C}'
    || ('\U{1C}' <= c <= '\U{1F}') || c == '\U{85}' || c == '\U{A0}' || c == '\U{1680}'
    || ('\U{2000}' <= c <= '\U{200A}') || c == '\U{2028}' || c == '\U{2029}'
    || c == '\U{202F}' || c == '\U{205F}' || c == '\U{3000}'
  }

  predicate AllSpace(s: string) {
    forall k :: 0 <= k < |s| ==> IsSpace(s[k])
  }

  /** No whitespace at either end: the shape `str.strip()` returns. */
  predicate Stripped(s: string) {
    s == [] || (!IsSpace(s[0]) && !IsSpace(s[|s| - 1]))
  }

  /** `s.lstrip()`: drops the leading whitespace and nothing else. */
  function StripLeft(s: string): (r: string)
    ensures |r| <= |s| && r == s[|s| - |r|..]
    ensures AllSpace(s[..|s| - |r|])
    ensures r == [] || !IsSpace(r[0])
  {
    if s != [] && IsSpace(s[0]) then
      var r := StripLeft(s[1..]);
      assert forall k :: 1 <= k < |s| - |r| ==> s[k] == s[1..][k - 1];
      r
    else
      s
  }

  /** `s.rstrip()`: drops the trailing whitespace and nothing else. */
  function StripRight(s: string): (r: string)
    ensures |r| <= |s| && r == s[..|r|]
    ensures AllSpace(s[|r|..])
    ensures r == [] || !IsSpace(r[|r| - 1])
  {
    if s != [] && IsSpace(s[|s| - 1]) then
      var r := StripRight(s[..|s| - 1]);
      assert s[|r|..] == s[..|s| - 1][|r|..] + [s[|s| - 1]];
      r
    else
      s
  }

  /** `s.strip()` */
  function Strip(s: string): (r: string)
    ensures |r| <= |s| && Stripped(r)
  {
    StripRight(StripLeft(s))
  }

  /** What `strip` removes is whitespace at the two ends, and what it keeps is one
      contiguous piece of its input. */
  lemma StripTrims(s: string) returns (i: nat, j: nat)
    ensures i <= j <= |s| && Strip(s) == s[i..j]
    ensures AllSpace(s[..i]) && AllSpace(s[j..])
  {
    var l := StripLeft(s);
    var r := StripRight(l);
    i := |s| - |l|;
    j := i + |r|;
    assert s[j..] == l[|r|..];
  }

  /** Already-stripped text is left alone, so `strip` is idempotent. */
  lemma StripStripped(s: string)
    requires Stripped(s)
    ensures Strip(s) == s
  {
  }

  /** `strip` yields the empty string exactly on whitespace-only input. */
  lemma StripEmptyIffAllSpace(s: string)
    ensures Strip(s) == [] <==> AllSpace(s)
  {
    var i, j := StripTrims(s);
    if Strip(s) == [] {
      assert s == s[..i] + s[j..];
    } else {
      assert !IsSpace(s[i]);
    }
  }

  /** Counts the starts of non-whitespace runs in `s`; `inWord` says whether the
      character just before `s` was a non-whitespace one. */
  function Runs(s: string, inWord: bool): nat {
    if s == [] then 0
    else if IsSpace(s[0]) then Runs(s[1..], false)
    else (if inWord then 0 else 1) + Runs(s[1..], true)
  }

  /** `len(s.split())`: the number of maximal runs of non-whitespace characters. */
  function WordCount(s: string): (r: nat)
    ensures r == |Words(s)|
  {
    RunsCountWords(s, false);
    Runs(s, false)
  }

  /** Whether a run is open at the end of `a`, given whether one was open before it. */
  function EndsInWord(a: string, inWord: bool): bool {
    if a == [] then inWord else !IsSpace(a[|a| - 1])
  }

  lemma {:induction false} RunsAppend(a: string, b: string, inWord: bool)
    ensures Runs(a + b, inWord) == Runs(a, inWord) + Runs(b, EndsInWord(a, inWord))
    decreases |a|
  {
    if a == [] {
      assert a + b == b;
    } else {
      assert (a + b)[0] == a[0] && (a + b)[1..] == a[1..] + b;
      RunsAppend(a[1..], b, !IsSpace(a[0]));
    }
  }

  /** A space between two texts separates their words: joining adds the counts. */
  lemma WordCountSpaceJoin(a: string, b: string)
    ensures WordCount(a + " " + b) == WordCount(a) + WordCount(b)
  {
    RunsAppend(a, " " + b, false);
    assert a + " " + b == a + (" " + b);
    assert (" " + b)[1..] == b;
  }

  /** Total word count of a list of texts. */
  function TotalWords(g: seq<string>): nat {
    if g == [] then 0 else WordCount(g[0]) + TotalWords(g[1..])
  }

  lemma TotalWordsSingle(s: string)
    ensures TotalWords([s]) == WordCount(s)
  {
    assert [s][1..] == [];
  }

  lemma {:induction false} TotalWordsAppend(a: seq<string>, b: seq<string>)
    ensures TotalWords(a + b) == TotalWords(a) + TotalWords(b)
    decreases |a|
  {
    if a == [] {
      assert a + b == b;
    } else {
      assert (a + b)[1..] == a[1..] + b;
      TotalWordsAppend(a[1..], b);
    }
  }

  /** The word count of texts joined with single spaces is the sum of their
      word counts. */
  lemma {:induction false} JoinedWordCount(g: seq<string>)
    ensures WordCount(Join(g, " ")) == TotalWords(g)
    decreases |g|
  {
    if |g| > 1 {
      JoinedWordCount(g[1..]);
      WordCountSpaceJoin(g[0], Join(g[1..], " "));
    } else if |g| == 1 {
      assert g[1..] == [];
    }
  }

  lemma {:induction false} RunsOfSpace(s: string, inWord: bool)
    requires AllSpace(s)
    ensures Runs(s, inWord) == 0
    decreases |s|
  {
    if s != [] {
      RunsOfSpace(s[1..], false);
    }
  }

  /** A text has no words exactly when it is all whitespace. */
  lemma {:induction false} WordCountZeroIffAllSpace(s: string)
    ensures WordCount(s) == 0 <==> AllSpace(s)
    decreases |s|
  {
    if AllSpace(s) {
      RunsOfSpace(s, false);
    } else if IsSpace(s[0]) {
      WordCountZeroIffAllSpace(s[1..]);
      assert !AllSpace(s[1..]) by {
        var k :| 0 <= k < |s| && !IsSpace(s[k]);
        assert s[1..][k - 1] == s[k];
      }
    }
  }

  /** `s.split()`: the maximal runs of non-whitespace characters, in order. A
      character that is not whitespace extends the first word of the rest when that
      rest starts with one, and opens a new word otherwise. */
  function Words(s: string): (r: seq<string>)
    ensures s != [] && !IsSpace(s[0]) ==> r != []
    decreases |s|
  {
    if s == [] then []
    else
      var rest := Words(s[1..]);
      if IsSpace(s[0]) then rest
      else if |s| > 1 && !IsSpace(s[1]) then [[s[0]] + rest[0]] + rest[1..]
      else [[s[0]]] + rest
  }

  /** `len(s.split())` counts the words `s.split()` returns; `inWord` discounts the
      first word when it continues a run opened before `s`. */
  lemma {:induction false} RunsCountWords(s: string, inWord: bool)
    ensures Runs(s, inWord) == |Words(s)| - (if inWord && s != [] && !IsSpace(s[0]) then 1 else 0)
    decreases |s|
  {
    if s != [] {
      if IsSpace(s[0]) {
        RunsCountWords(s[1..], false);
      } else {
        RunsCountWords(s[1..], true);
      }
    }
  }

  /** A space between two texts separates their words: the words of the join are
      those of the first text followed by those of the second. */
  lemma {:induction false} WordsSpaceJoin(a: string, b: string)
    ensures Words(a + " " + b) == Words(a) + Words(b)
    decreases |a|
  {
    if a == [] {
      assert a + " " + b == [' '] + b;
      assert ([' '] + b)[1..] == b;
    } else {
      var t := a + " " + b;
      assert t[1..] == a[1..] + " " + b;
      WordsSpaceJoin(a[1..], b);
      if !IsSpace(a[0]) && |a| > 1 && !IsSpace(a[1]) {
        assert t[1] == a[1];
      } else if !IsSpace(a[0]) {
        assert IsSpace(t[1]) by {
          if |a| > 1 { assert t[1] == a[1]; } else { assert t[1] == ' '; }
        }
      }
    }
  }

  /** The words of every text of a list, one text after the other. */
  function AllWords(g: seq<string>): (r: seq<string>)
    ensures |r| == TotalWords(g)
  {
    if g == [] then []
    else Words(g[0]) + AllWords(g[1..])
  }

  /** `" ".join(g).split()` gives the words of the texts of `g`, in order. */
  lemma {:induction false} JoinedWords(g: seq<string>)
    ensures Words(Join(g, " ")) == AllWords(g)
    decreases |g|
  {
    if |g| > 1 {
      JoinedWords(g[1..]);
      WordsSpaceJoin(g[0], Join(g[1..], " "));
    } else if |g| == 1 {
      assert g[1..] == [];
      assert Words(g[0]) + [] == Words(g[0]);
    }
  }

  /** `sep.join(parts)` */
  function Join(parts: seq<string>, sep: string): (r: string)
    ensures parts != [] ==> parts[0] <= r
  {
    if parts == [] then []
    else if |parts| == 1 then parts[0]
    else parts[0] + sep + Join(parts[1..], sep)
  }

  function Last<T>(s: seq<T>): T
    requires s != []
  {
    s[|s| - 1]
  }

  predicate OccursAt(s: string, pat: string, k: int) {
    0 <= k && k + |pat| <= |s| && s[k..k + |pat|] == pat
  }

  /** Python's `pat in s`. */
  predicate Contains(s: string, pat: string) {
    exists k | 0 <= k <= |s| - |pat| :: OccursAt(s, pat, k)
  }

  /** The first occurrence of `pat` in `s` at or after `i`. */
  function IndexFrom(s: string, pat: string, i: nat): (r: Option<nat>)
    ensures r.Some? ==> i <= r.value && OccursAt(s, pat, r.value)
    ensures r.Some? ==> forall k :: i <= k < r.value ==> !OccursAt(s, pat, k)
    ensures r.None? ==> forall k :: i <= k ==> !OccursAt(s, pat, k)
    decreases |s| - i
  {
    if i + |pat| > |s| then None
    else if s[i..i + |pat|] == pat then Some(i)
    else IndexFrom(s, pat, i + 1)
  }

  /** `s.split(sep)`: the pieces between the occurrences of `sep`, which are found
      left to right without overlapping. Python rejects an empty separator. */
  function Split(s: string, sep: string): (r: seq<string>)
    requires sep != []
    ensures |r| >= 1
    decreases |s|
  {
    match IndexFrom(s, sep, 0)
    case None => [s]
    case Some(i) => [s[..i]] + Split(s[i + |sep|..], sep)
  }

  /** The split has a single piece exactly when the separator does not occur. */
  lemma SplitSingleIffAbsent(s: string, sep: string)
    requires sep != []
    ensures |Split(s, sep)| == 1 <==> !Contains(s, sep)
  {
    match IndexFrom(s, sep, 0)
    case None =>
    case Some(i) =>
      assert OccursAt(s, sep, i);
  }

  /** An occurrence inside a slice is an occurrence in the whole text. */
  lemma ContainsSlice(s: string, pat: string, i: nat, j: nat)
    requires i <= j <= |s| && Contains(s[i..j], pat)
    ensures Contains(s, pat)
  {
    var k :| 0 <= k <= |s[i..j]| - |pat| && OccursAt(s[i..j], pat, k);
    assert k + |pat| <= j - i;
    assert s[i..j][k..k + |pat|] == pat;
    forall t | 0 <= t < |pat|
      ensures s[i + k + t] == pat[t]
    {
      assert s[i..j][k..k + |pat|][t] == s[i..j][k + t];
    }
    assert s[i + k..i + k + |pat|] == pat;
    assert OccursAt(s, pat, i + k);
  }

  /** Joining the pieces of a split with the separator gives the text back. */
  lemma {:induction false} SplitJoin(s: string, sep: string)
    requires sep != []
    ensures Join(Split(s, sep), sep) == s
    decreases |s|
  {
    match IndexFrom(s, sep, 0)
    case None =>
    case Some(i) =>
      SplitJoin(s[i + |sep|..], sep);
      SplitJoinStep(s, sep, i);
  }

  lemma SplitJoinStep(s: string, sep: string, i: nat)
    requires sep != [] && IndexFrom(s, sep, 0) == Some(i)
    requires Join(Split(s[i + |sep|..], sep), sep) == s[i + |sep|..]
    ensures Join(Split(s, sep), sep) == s
  {
    var head, rest := s[..i], s[i + |sep|..];
    var tail := Split(rest, sep);
    var pieces := Split(s, sep);
    assert pieces == [head] + tail;
    JoinCons(head, tail, sep);
    assert Join(pieces, sep) == head + sep + rest;
    SplitAround(s, sep, i);
  }

  lemma SplitAround(s: string, sep: string, i: nat)
    requires OccursAt(s, sep, i)
    ensures s[..i] + sep + s[i + |sep|..] == s
  {
    assert s == s[..i] + s[i..i + |sep|] + s[i + |sep|..];
  }

  lemma JoinCons(head: string, tail: seq<string>, sep: string)
    requires tail != []
    ensures Join([head] + tail, sep) == head + sep + Join(tail, sep)
  {
    assert ([head] + tail)[1..] == tail;
  }

  /** No piece of a split contains the separator. */
  lemma {:induction false} SplitPiecesFree(s: string, sep: string)
    requires sep != []
    ensures forall k :: 0 <= k < |Split(s, sep)| ==> !Contains(Split(s, sep)[k], sep)
    decreases |s|
  {
    match IndexFrom(s, sep, 0)
    case None =>
    case Some(i) =>
      var rest := s[i + |sep|..];
      SplitPiecesFree(rest, sep);
      BeforeFirstFree(s, sep, i);
      var r := Split(s, sep);
      assert r == [s[..i]] + Split(rest, sep);
      forall k | 0 <= k < |r|
        ensures !Contains(r[k], sep)
      {
        if k > 0 {
          assert r[k] == Split(rest, sep)[k - 1];
        }
      }
  }

  /** The text before the first occurrence of `sep` does not contain it. */
  lemma BeforeFirstFree(s: string, sep: string, i: nat)
    requires sep != [] && IndexFrom(s, sep, 0) == Some(i)
    ensures !Contains(s[..i], sep)
  {
    forall k | 0 <= k <= i - |sep|
      ensures !OccursAt(s[..i], sep, k)
    {
      assert !OccursAt(s, sep, k);
      assert s[..i][k..k + |sep|] == s[k..k + |sep|];
    }
  }

  /** The last occurrence of `pat` in `s` that starts before `j`. */
  function LastBefore(s: string, pat: string, j: nat): (r: Option<nat>)
    ensures r.Some? ==> r.value < j && OccursAt(s, pat, r.value)
    ensures r.Some? ==> forall k :: r.value < k < j ==> !OccursAt(s, pat, k)
    ensures r.None? ==> forall k :: 0 <= k < j ==> !OccursAt(s, pat, k)
    decreases j
  {
    if j == 0 then None
    else if OccursAt(s, pat, j - 1) then Some(j - 1)
    else LastBefore(s, pat, j - 1)
  }

  /** Where the text after the last occurrence of `pat` begins, or 0 when `pat`
      does not occur. */
  function AfterLast(s: string, pat: string): (r: nat)
    ensures r <= |s|
  {
    match LastBefore(s, pat, |s| + 1)
    case None => 0
    case Some(k) => k + |pat|
  }

  /** Where the text before the first occurrence of `pat` at or after `i` ends, or
      the end of `s` when there is none. */
  function BeforeNext(s: string, pat: string, i: nat): (r: nat)
    requires i <= |s|
    ensures i <= r <= |s|
  {
    match IndexFrom(s, pat, i)
    case None => |s|
    case Some(k) => k
  }

  /** The first character of `pat` occurs nowhere else in it, so two occurrences of
      `pat` never overlap. */
  predicate HeadUnique(pat: string) {
    pat != [] && forall d :: 0 < d < |pat| ==> pat[d] != pat[0]
  }

  /** Two overlapping occurrences of `pat` put its first character at the offset
      between them. */
  lemma OverlapHead(s: string, pat: string, i: nat, k: nat)
    requires OccursAt(s, pat, i) && OccursAt(s, pat, k) && i < k < i + |pat|
    ensures pat[k - i] == pat[0]
  {
    assert s[i..i + |pat|][k - i] == s[k..k + |pat|][0];
  }

  /** An occurrence in a suffix is an occurrence in the whole text, shifted. */
  lemma OccursShift(s: string, pat: string, n: nat, k: nat)
    requires n <= |s|
    ensures OccursAt(s[n..], pat, k) <==> OccursAt(s, pat, n + k)
  {
    if k + |pat| <= |s| - n {
      assert s[n..][k..k + |pat|] == s[n + k..n + k + |pat|];
    }
  }

  /** An occurrence with none after it is the last one. */
  lemma LastIs(s: string, pat: string, x: nat)
    requires OccursAt(s, pat, x) && forall k :: x < k <= |s| ==> !OccursAt(s, pat, k)
    ensures LastBefore(s, pat, |s| + 1) == Some(x)
  {
    var l := LastBefore(s, pat, |s| + 1);
    if l.None? || l.value < x {
      assert false;
    }
  }

  /** Past an occurrence at `i`, the last occurrence of the text is the last one of
      the rest, shifted, or `i` itself when the rest has none. */
  lemma AfterLastShift(s: string, sep: string, i: nat)
    requires HeadUnique(sep) && OccursAt(s, sep, i)
    ensures AfterLast(s, sep) == i + |sep| + AfterLast(s[i + |sep|..], sep)
  {
    var n := i + |sep|;
    var rest := s[n..];
    match LastBefore(rest, sep, |rest| + 1)
    case None =>
      forall k | i < k <= |s|
        ensures !OccursAt(s, sep, k)
      {
        if OccursAt(s, sep, k) {
          if k < n {
            OverlapHead(s, sep, i, k);
          } else {
            OccursShift(s, sep, n, k - n);
          }
          assert false;
        }
      }
      LastIs(s, sep, i);
    case Some(x) =>
      OccursShift(s, sep, n, x);
      forall k | n + x < k <= |s|
        ensures !OccursAt(s, sep, k)
      {
        OccursShift(s, sep, n, k - n);
      }
      LastIs(s, sep, n + x);
  }

  /** `s.split(sep)[-1]` is the text after the last occurrence of `sep`, for a
      separator whose occurrences cannot overlap. */
  lemma {:induction false} SplitLast(s: string, sep: string)
    requires HeadUnique(sep)
    ensures Last(Split(s, sep)) == s[AfterLast(s, sep)..]
    decreases |s|
  {
    match IndexFrom(s, sep, 0)
    case None =>
      assert LastBefore(s, sep, |s| + 1).None? by {
        var l := LastBefore(s, sep, |s| + 1);
        if l.Some? {
          assert false;
        }
      }
    case Some(i) =>
      var rest := s[i + |sep|..];
      SplitLast(rest, sep);
      AfterLastShift(s, sep, i);
      assert Last(Split(s, sep)) == Last(Split(rest, sep));
      assert rest[AfterLast(rest, sep)..] == s[AfterLast(s, sep)..];
  }

  /** `s.split(sep)[0]` is the text before the first occurrence of `sep`. */
  lemma SplitFirst(s: string, sep: string)
    requires sep != []
    ensures Split(s, sep)[0] == s[..BeforeNext(s, sep, 0)]
  {
  }

  /** An occurrence at or after `q` is an occurrence in `s[q..]`: the first one in the
      suffix is the first one at or after `q` in the whole text, shifted. */
  lemma BeforeNextShift(s: string, pat: string, q: nat)
    requires q <= |s|
    ensures q + BeforeNext(s[q..], pat, 0) == BeforeNext(s, pat, q)
  {
    var t := s[q..];
    var found, whole := IndexFrom(t, pat, 0), IndexFrom(s, pat, q);
    if whole.Some? {
      OccursShift(s, pat, q, whole.value - q);
    }
    if found.Some? {
      OccursShift(s, pat, q, found.value);
    }
  }
}
