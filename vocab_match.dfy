/** The live "used" check on a target word: the submission is tested
    against the case-insensitive regular expression `\b<word>\w*\b`, built
    without the `u` flag, so `\w`, `\b` and case folding are ASCII only. */
module VocabMatch {
  import opened Text

  /** Characters with a special meaning in a regular expression pattern. */
  predicate IsMetaChar(c: char) {
    c in "\\^$.|?*+()[]{}"
  }

  /** A word that the regular expression reads literally and folds exactly:
      ASCII characters other than pattern metacharacters. */
  predicate LiteralWord(w: string) {
    forall k :: 0 <= k < |w| ==> w[k] as int < 128 && !IsMetaChar(w[k])
  }

  /** A single dictionary word: non-empty and made of word characters only. */
  predicate PlainWord(w: string) {
    w != [] && forall k :: 0 <= k < |w| ==> IsWordChar(w[k])
  }

  lemma {:induction false} PlainWordIsLiteral(w: string)
    requires PlainWord(w)
    ensures LiteralWord(w)
  {
  }

  predicate WordBefore(t: string, p: nat)
    requires p <= |t|
  {
    p > 0 && IsWordChar(t[p - 1])
  }

  predicate WordAt(t: string, p: nat)
    requires p <= |t|
  {
    p < |t| && IsWordChar(t[p])
  }

  /** `\b` holds at position `p`: exactly one of its neighbours is a word character. */
  predicate IsBoundary(t: string, p: nat)
    requires p <= |t|
  {
    WordBefore(t, p) != WordAt(t, p)
  }

  /** `w` matches the text at `i`, ignoring ASCII case. */
  predicate CaseMatch(w: string, t: string, i: nat)
    requires i + |w| <= |t|
  {
    forall k :: 0 <= k < |w| ==> FoldCase(t[i + k]) == FoldCase(w[k])
  }

  /** Every character in `[a, b)` is a word character. */
  predicate WordRun(t: string, a: nat, b: nat)
    requires a <= b <= |t|
  {
    forall k :: a <= k < b ==> IsWordChar(t[k])
  }

  /** The regular expression's own meaning: a match starts at `i` when `\b`
      holds there, the word follows, then some run of word characters,
      and `\b` holds where that run ends. */
  ghost predicate RegexMatchAt(w: string, t: string, i: nat) {
    i + |w| <= |t| && IsBoundary(t, i) && CaseMatch(w, t, i)
    && exists e :: i + |w| <= e <= |t| && WordRun(t, i + |w|, e) && IsBoundary(t, e)
  }

  /** `regex.test(t)`: a match starts somewhere in the text. */
  ghost predicate RegexTest(w: string, t: string) {
    exists i :: 0 <= i <= |t| && RegexMatchAt(w, t, i)
  }

  /** End of the run of word characters that starts at `p`. */
  function WordEnd(t: string, p: nat): (e: nat)
    requires p <= |t|
    ensures p <= e <= |t| && WordRun(t, p, e) && !WordAt(t, e)
    decreases |t| - p
  {
    if WordAt(t, p) then WordEnd(t, p + 1) else p
  }

  /** A run of word characters that stops at a non-word character ends where
      `WordEnd` says. */
  lemma {:induction false} WordEndUnique(t: string, p: nat, e: nat)
    requires p <= e <= |t| && WordRun(t, p, e) && !WordAt(t, e)
    ensures WordEnd(t, p) == e
    decreases e - p
  {
    if p < e {
      WordEndUnique(t, p + 1, e);
    }
  }

  /** The test at one start position, with the trailing `\w*\b` settled by
      looking at the two ends that can close it. */
  predicate MatchAt(w: string, t: string, i: nat)
    requires i + |w| <= |t|
  {
    IsBoundary(t, i) && CaseMatch(w, t, i)
    && (IsBoundary(t, i + |w|) || IsBoundary(t, WordEnd(t, i + |w|)))
  }

  /** A match starts at some position from `i` on. */
  function UsedFrom(w: string, t: string, i: nat): (b: bool)
    requires i <= |t|
    ensures b <==> exists j :: i <= j && j + |w| <= |t| && MatchAt(w, t, j)
    decreases |t| - i
  {
    if i + |w| > |t| then false
    else MatchAt(w, t, i) || (i < |t| && UsedFrom(w, t, i + 1))
  }

  /** `checkVocabUsed(w)` against the submission `t`. */
  function Used(w: string, t: string): (b: bool)
    ensures b <==> exists j :: 0 <= j && j + |w| <= |t| && MatchAt(w, t, j)
  {
    UsedFrom(w, t, 0)
  }

  /** Only the two ends tried by `MatchAt` can close the trailing `\w*\b`. */
  lemma {:induction false} MatchAtIsRegex(w: string, t: string, i: nat)
    requires i + |w| <= |t|
    ensures MatchAt(w, t, i) <==> RegexMatchAt(w, t, i)
  {
    var a := i + |w|;
    var m := WordEnd(t, a);
    if MatchAt(w, t, i) {
      if IsBoundary(t, a) {
        assert WordRun(t, a, a);
      } else {
        assert IsBoundary(t, m);
      }
    }
    if RegexMatchAt(w, t, i) {
      var e :| a <= e <= |t| && WordRun(t, a, e) && IsBoundary(t, e);
      if e > a {
        assert WordBefore(t, e);
        WordEndUnique(t, a, e);
      }
    }
  }

  /** The model of the check agrees with the regular expression on every
      word and every text. */
  lemma {:induction false} UsedIsRegexTest(w: string, t: string)
    ensures Used(w, t) <==> RegexTest(w, t)
  {
    if Used(w, t) {
      var j :| 0 <= j && j + |w| <= |t| && MatchAt(w, t, j);
      MatchAtIsRegex(w, t, j);
    }
    if RegexTest(w, t) {
      var j :| 0 <= j <= |t| && RegexMatchAt(w, t, j);
      MatchAtIsRegex(w, t, j);
    }
  }

  /** The word occurs, ignoring case, at a position no word character precedes. */
  predicate StartsWordAt(w: string, t: string, i: nat)
    requires i + |w| <= |t|
  {
    !WordBefore(t, i) && CaseMatch(w, t, i)
  }

  /** For a single dictionary word the check means: the word begins some
      word of the text, in any case, with any inflection after it. */
  lemma {:induction false} UsedPlain(w: string, t: string)
    requires PlainWord(w)
    ensures Used(w, t) <==> exists i :: 0 <= i && i + |w| <= |t| && StartsWordAt(w, t, i)
  {
    if Used(w, t) {
      var i :| 0 <= i && i + |w| <= |t| && MatchAt(w, t, i);
      FoldCasePreservesWordChar(t[i], w[0]);
      assert StartsWordAt(w, t, i);
    }
    if exists i :: 0 <= i && i + |w| <= |t| && StartsWordAt(w, t, i) {
      var i :| 0 <= i && i + |w| <= |t| && StartsWordAt(w, t, i);
      var a := i + |w|;
      FoldCasePreservesWordChar(t[i], w[0]);
      FoldCasePreservesWordChar(t[a - 1], w[|w| - 1]);
      var m := WordEnd(t, a);
      assert m > 0 && IsWordChar(t[m - 1]);
      assert IsBoundary(t, m);
      assert MatchAt(w, t, i);
    }
  }

  /** The `i` flag: words equal up to ASCII case are used in the same texts. */
  lemma {:induction false} UsedIgnoresCase(w: string, v: string, t: string)
    requires |w| == |v|
    requires forall k :: 0 <= k < |w| ==> FoldCase(w[k]) == FoldCase(v[k])
    ensures Used(w, t) == Used(v, t)
  {
    forall j | 0 <= j && j + |w| <= |t|
      ensures MatchAt(w, t, j) == MatchAt(v, t, j)
    {
      assert CaseMatch(w, t, j) == CaseMatch(v, t, j);
    }
  }

  /** Typing more after a used word keeps it used. */
  lemma {:induction false} UsedExtends(w: string, t: string, u: string)
    requires PlainWord(w) && Used(w, t)
    ensures Used(w, t + u)
  {
    UsedPlain(w, t);
    var i :| 0 <= i && i + |w| <= |t| && StartsWordAt(w, t, i);
    assert StartsWordAt(w, t + u, i) by {
      assert forall k :: 0 <= k < i + |w| ==> (t + u)[k] == t[k];
    }
    UsedPlain(w, t + u);
  }

  /** The word inside a longer word does not count: "nonresilience" does not
      use "resilience". */
  lemma {:induction false} NotUsedInsideWord()
    ensures !Used("resilience", "nonresilience")
  {
    var w, t := "resilience", "nonresilience";
    assert !MatchAt(w, t, 0) by { assert FoldCase(t[0]) != FoldCase(w[0]); }
    assert !MatchAt(w, t, 1) by { assert FoldCase(t[1]) != FoldCase(w[0]); }
    assert !MatchAt(w, t, 2) by { assert FoldCase(t[2]) != FoldCase(w[0]); }
    assert !MatchAt(w, t, 3) by { assert WordBefore(t, 3); }
  }

  /** Any capitalisation, followed by punctuation, counts. */
  lemma {:induction false} UsedUpperCase()
    ensures Used("resilience", "RESILIENCE.")
  {
    var w, t := "resilience", "RESILIENCE.";
    assert StartsWordAt(w, t, 0);
    UsedPlain(w, t);
  }

  /** An inflection that extends the word counts. */
  lemma {:induction false} UsedInflected()
    ensures Used("resilience", "resiliences")
  {
    var w, t := "resilience", "resiliences";
    assert StartsWordAt(w, t, 0);
    UsedPlain(w, t);
  }

  /** A form that changes the word's own letters does not: "resiliency"
      does not use "resilience". */
  lemma {:induction false} NotUsedOtherForm()
    ensures !Used("resilience", "resiliency")
  {
    var w, t := "resilience", "resiliency";
    assert !MatchAt(w, t, 0) by { assert FoldCase(t[9]) != FoldCase(w[9]); }
  }
}
