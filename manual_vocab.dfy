/** The self-supplied vocabulary strategy: the text typed into the manual
    input box is split on runs of newlines, commas and fullwidth commas,
    every piece is trimmed, and the empty ones are dropped. */
module ManualVocab {
  import opened Types
  import opened Text

  /** The separator class `[\n,，]`. */
  predicate IsSeparator(c: char) {
    c == '\n' || c == ',' || c == '\U{FF0C}'
  }

  predicate NoSeparator(s: string) {
    forall k :: 0 <= k < |s| ==> !IsSeparator(s[k])
  }

  /** Index of the first separator, or `|s|` when there is none. */
  function SeparatorIndex(s: string): (i: nat)
    ensures i <= |s|
    ensures i < |s| ==> IsSeparator(s[i])
  {
    if s == [] || IsSeparator(s[0]) then 0 else 1 + SeparatorIndex(s[1..])
  }

  /** No separator comes before the first one. */
  lemma {:induction false} SeparatorIndexPrefix(s: string)
    ensures NoSeparator(s[..SeparatorIndex(s)])
  {
    if s != [] && !IsSeparator(s[0]) {
      SeparatorIndexPrefix(s[1..]);
      var i := SeparatorIndex(s);
      assert forall k :: 0 < k < i ==> s[..i][k] == s[1..][..i - 1][k - 1];
    }
  }

  /** Length of the run of separators that `s` starts with. */
  function SeparatorRun(s: string): (n: nat)
    ensures n <= |s|
    ensures s != [] && IsSeparator(s[0]) ==> n > 0
  {
    if s == [] || !IsSeparator(s[0]) then 0 else 1 + SeparatorRun(s[1..])
  }

  /** `s.split(/[\n,，]+/)`: the maximal separator-free pieces between
      separator runs; a leading or trailing run yields an empty piece. */
  function Split(s: string): (pieces: seq<string>)
    ensures |pieces| >= 1
    decreases |s|
  {
    var i := SeparatorIndex(s);
    if i == |s| then
      [s]
    else
      var rest := s[i..];
      var n := SeparatorRun(rest);
      assert n >= 1;
      [s[..i]] + Split(rest[n..])
  }

  /** `.map(w => w.trim())` */
  function MapTrim(ws: seq<string>): (ts: seq<string>)
    ensures |ts| == |ws|
    ensures forall k {:trigger ts[k]} :: 0 <= k < |ws| ==> ts[k] == Trim(ws[k])
  {
    if ws == [] then [] else [Trim(ws[0])] + MapTrim(ws[1..])
  }

  /** `.filter(w => w.length > 0)` */
  function KeepNonEmpty(ws: seq<string>): (r: seq<string>)
    ensures |r| <= |ws|
  {
    if ws == [] then []
    else (if ws[0] == [] then [] else [ws[0]]) + KeepNonEmpty(ws[1..])
  }

  /** `.filter(w => w.trim())`: keeps the pieces whose trimmed form is non-empty. */
  function KeepNonBlank(ws: seq<string>): (r: seq<string>)
    ensures |r| <= |ws|
  {
    if ws == [] then []
    else (if Trim(ws[0]) == [] then [] else [ws[0]]) + KeepNonBlank(ws[1..])
  }

  /** The word list the submit handler builds from the manual input. */
  function Parse(text: string): seq<string> {
    KeepNonEmpty(MapTrim(Split(text)))
  }

  /** The live "recognised" count shown beside the input box. */
  function LiveCount(text: string): nat {
    |KeepNonBlank(Split(text))|
  }

  /** One vocabulary item per word, marked as user supplied. */
  function ManualItems(words: seq<string>): (items: seq<VocabularyItem>)
    ensures |items| == |words|
    ensures forall k :: 0 <= k < |words| ==>
              items[k].word == words[k] && items[k].pos == "Custom"
              && items[k].definition == "User defined vocabulary"
    ensures Words(items) == words
  {
    if words == [] then []
    else [VocabularyItem(words[0], "Custom", "User defined vocabulary")] + ManualItems(words[1..])
  }

  /** A token the parser may produce: non-empty, no white space at either end,
      and no separator inside. */
  predicate CleanToken(t: string) {
    t != [] && !IsWhitespace(t[0]) && !IsWhitespace(t[|t| - 1]) && NoSeparator(t)
  }

  // ---------------------------------------------------------------------
  // Helper facts about the pipeline stages

  lemma {:induction false} AppendAssoc<T>(a: seq<T>, b: seq<T>, c: seq<T>)
    ensures a + (b + c) == (a + b) + c
  {
  }

  /** No piece of the split holds a separator. */
  lemma {:induction false} SplitPiecesNoSeparator(s: string)
    ensures forall k :: 0 <= k < |Split(s)| ==> NoSeparator(Split(s)[k])
    decreases |s|
  {
    var i := SeparatorIndex(s);
    SeparatorIndexPrefix(s);
    if i < |s| {
      var rest := s[i..];
      SplitPiecesNoSeparator(rest[SeparatorRun(rest)..]);
    }
  }

  /** The filter keeps only non-empty words, each taken from its input. */
  lemma {:induction false} KeepNonEmptyFacts(ws: seq<string>)
    ensures forall k :: 0 <= k < |KeepNonEmpty(ws)| ==>
              KeepNonEmpty(ws)[k] != [] && KeepNonEmpty(ws)[k] in ws
  {
    if ws != [] {
      KeepNonEmptyFacts(ws[1..]);
    }
  }

  lemma {:induction false} SeparatorIndexAppend(x: string, y: string)
    ensures SeparatorIndex(x + y)
            == if SeparatorIndex(x) < |x| then SeparatorIndex(x) else |x| + SeparatorIndex(y)
  {
    if x == [] {
      assert x + y == y;
    } else if !IsSeparator(x[0]) {
      assert (x + y)[1..] == x[1..] + y;
      SeparatorIndexAppend(x[1..], y);
    }
  }

  lemma {:induction false} SeparatorRunAppend(x: string, y: string)
    ensures SeparatorRun(x + y)
            == if SeparatorRun(x) < |x| then SeparatorRun(x) else |x| + SeparatorRun(y)
  {
    if x == [] {
      assert x + y == y;
    } else if IsSeparator(x[0]) {
      assert (x + y)[1..] == x[1..] + y;
      SeparatorRunAppend(x[1..], y);
    }
  }

  // ---------------------------------------------------------------------
  // Properties of the parser

  /** The words contributed by one separator-free piece. */
  function PieceWords(p: string): (ws: seq<string>)
    ensures |ws| <= 1
  {
    var t := Trim(p);
    if t == [] then [] else [t]
  }

  /** Trimming and dropping empty words, fused into one pass over the pieces. */
  function Clean(pieces: seq<string>): (ws: seq<string>)
    ensures |ws| <= |pieces|
  {
    if pieces == [] then [] else PieceWords(pieces[0]) + Clean(pieces[1..])
  }

  /** The same word list, computed by cutting at one separator at a time. */
  function Tokens(s: string): seq<string>
    decreases |s|
  {
    var i := SeparatorIndex(s);
    if i == |s| then PieceWords(s) else PieceWords(s[..i]) + Tokens(s[i + 1..])
  }

  lemma {:induction false} CleanIsPipeline(pieces: seq<string>)
    ensures Clean(pieces) == KeepNonEmpty(MapTrim(pieces))
  {
    if pieces != [] {
      CleanIsPipeline(pieces[1..]);
      assert MapTrim(pieces)[1..] == MapTrim(pieces[1..]);
    }
  }

  lemma {:induction false} CleanCons(p: string, rest: seq<string>)
    ensures Clean([p] + rest) == PieceWords(p) + Clean(rest)
  {
    assert ([p] + rest)[1..] == rest;
  }

  /** How split treats the text after the first separator. */
  lemma {:induction false} SplitStep(s: string)
    requires SeparatorIndex(s) < |s|
    ensures var i := SeparatorIndex(s);
            var tail := s[i + 1..];
            Split(s) == [s[..i]] + Split(tail[SeparatorRun(tail)..])
  {
    var i := SeparatorIndex(s);
    var rest := s[i..];
    var tail := s[i + 1..];
    assert rest[1..] == tail;
    assert SeparatorRun(rest) == 1 + SeparatorRun(tail);
    assert rest[SeparatorRun(rest)..] == tail[SeparatorRun(tail)..];
  }

  /** A leading separator run only adds an empty piece. */
  lemma {:induction false} SplitLeadingRun(s: string)
    requires SeparatorRun(s) > 0
    ensures Split(s) == [[]] + Split(s[SeparatorRun(s)..])
  {
    assert SeparatorIndex(s) == 0;
    assert s[0..] == s && s[..0] == [];
  }

  lemma {:induction false} CleanSplitSkipRun(t: string)
    ensures Clean(Split(t)) == Clean(Split(t[SeparatorRun(t)..]))
  {
    var m := SeparatorRun(t);
    if m > 0 {
      SplitLeadingRun(t);
      CleanCons([], Split(t[m..]));
    } else {
      assert t[m..] == t;
    }
  }

  lemma {:induction false} CleanSplitHead(s: string)
    requires SeparatorIndex(s) < |s|
    ensures Clean(Split(s)) == PieceWords(s[..SeparatorIndex(s)])
                               + Clean(Split(s[SeparatorIndex(s) + 1..][SeparatorRun(s[SeparatorIndex(s) + 1..])..]))
  {
    SplitStep(s);
    var i := SeparatorIndex(s);
    var tail := s[i + 1..];
    CleanCons(s[..i], Split(tail[SeparatorRun(tail)..]));
  }

  lemma {:induction false} CleanSplitWhole(s: string)
    requires SeparatorIndex(s) == |s|
    ensures Clean(Split(s)) == PieceWords(s)
  {
    assert Split(s) == [s] + [];
    CleanCons(s, []);
  }

  lemma {:induction false} TokensUnfold(s: string)
    requires SeparatorIndex(s) < |s|
    ensures Tokens(s) == PieceWords(s[..SeparatorIndex(s)]) + Tokens(s[SeparatorIndex(s) + 1..])
  {
  }

  lemma {:induction false} TokensWhole(s: string)
    requires SeparatorIndex(s) == |s|
    ensures Tokens(s) == PieceWords(s)
  {
  }

  /** One cut of the induction: the two definitions agree on `s` when they
      agree on the text after its first separator. */
  lemma {:induction false} CleanSplitStep(s: string)
    requires SeparatorIndex(s) < |s|
    requires Clean(Split(s[SeparatorIndex(s) + 1..])) == Tokens(s[SeparatorIndex(s) + 1..])
    ensures Clean(Split(s)) == Tokens(s)
  {
    CleanSplitHead(s);
    CleanSplitSkipRun(s[SeparatorIndex(s) + 1..]);
    TokensUnfold(s);
  }

  lemma {:induction false} CleanSplitIsTokens(s: string)
    ensures Clean(Split(s)) == Tokens(s)
    decreases |s|
  {
    var i := SeparatorIndex(s);
    if i == |s| {
      CleanSplitWhole(s);
      TokensWhole(s);
    } else {
      CleanSplitIsTokens(s[i + 1..]);
      CleanSplitStep(s);
    }
  }

  /** The pipeline and the piece-at-a-time definition agree. */
  lemma {:induction false} ParseIsTokens(s: string)
    ensures Parse(s) == Tokens(s)
  {
    CleanIsPipeline(Split(s));
    CleanSplitIsTokens(s);
  }

  /** Text without separators yields its trimmed self, or nothing when blank. */
  lemma {:induction false} ParseNoSeparator(s: string)
    requires NoSeparator(s)
    ensures Parse(s) == if AllWhitespace(s) then [] else [Trim(s)]
  {
    assert SeparatorIndex(s) == |s|;
    ParseIsTokens(s);
    var _ := TrimFacts(s);
  }

  lemma {:induction false} SeparatorIndexBefore(s: string, p: nat)
    requires p < |s| && IsSeparator(s[p])
    ensures SeparatorIndex(s) <= p && SeparatorIndex(s[..p]) == SeparatorIndex(s)
  {
    SeparatorIndexAppend(s[..p], s[p..]);
    assert s == s[..p] + s[p..];
    assert SeparatorIndex(s[p..]) == 0;
  }

  lemma {:induction false} SliceFacts(s: string, i: nat, p: nat)
    requires i < p < |s|
    ensures s[i + 1..][..p - i - 1] == s[..p][i + 1..]
    ensures s[i + 1..][p - i..] == s[p + 1..]
    ensures s[..p][..i] == s[..i]
  {
  }

  lemma {:induction false} TokensCut(s: string, p: nat)
    requires p < |s| && IsSeparator(s[p])
    ensures Tokens(s) == Tokens(s[..p]) + Tokens(s[p + 1..])
    decreases |s|
  {
    var i := SeparatorIndex(s);
    SeparatorIndexBefore(s, p);
    TokensUnfold(s);
    if i == p {
      TokensWhole(s[..p]);
    } else {
      var t := s[i + 1..];
      TokensCut(t, p - i - 1);
      TokensUnfold(s[..p]);
      SliceFacts(s, i, p);
      AppendAssoc(PieceWords(s[..i]), Tokens(t[..p - i - 1]), Tokens(t[p - i..]));
    }
  }

  lemma {:induction false} TokensConcat(a: string, c: char, b: string)
    requires IsSeparator(c)
    ensures Tokens(a + [c] + b) == Tokens(a) + Tokens(b)
  {
    var s := a + [c] + b;
    TokensCut(s, |a|);
    assert s[..|a|] == a;
    assert s[|a| + 1..] == b;
  }

  /** Splitting at a separator distributes the parse over the two sides, so
      the parser keeps the order of the words and keeps duplicates. */
  lemma {:induction false} ParseConcat(a: string, c: char, b: string)
    requires IsSeparator(c)
    ensures Parse(a + [c] + b) == Parse(a) + Parse(b)
  {
    ParseIsTokens(a + [c] + b);
    ParseIsTokens(a);
    ParseIsTokens(b);
    TokensConcat(a, c, b);
  }

  /** Every word the parser produces is a clean token. */
  lemma {:induction false} ParseTokensClean(text: string)
    ensures forall k :: 0 <= k < |Parse(text)| ==> CleanToken(Parse(text)[k])
  {
    var pieces := Split(text);
    var trimmed := MapTrim(pieces);
    SplitPiecesNoSeparator(text);
    KeepNonEmptyFacts(trimmed);
    forall k | 0 <= k < |Parse(text)| ensures CleanToken(Parse(text)[k]) {
      var t := Parse(text)[k];
      assert t in trimmed;
      var j :| 0 <= j < |trimmed| && trimmed[j] == t;
      TrimChars(pieces[j]);
      var _ := TrimFacts(pieces[j]);
      assert NoSeparator(pieces[j]);
      forall q | 0 <= q < |t| ensures !IsSeparator(t[q]) {
        assert t[q] in pieces[j];
      }
    }
  }

  /** Nothing but white space and separators. */
  predicate Blank(s: string) {
    forall k :: 0 <= k < |s| ==> IsWhitespace(s[k]) || IsSeparator(s[k])
  }

  lemma {:induction false} BlankAround(s: string, i: nat)
    requires i < |s| && IsSeparator(s[i])
    ensures Blank(s) <==> Blank(s[..i]) && Blank(s[i + 1..])
  {
    if Blank(s[..i]) && Blank(s[i + 1..]) {
      forall k | 0 <= k < |s| ensures IsWhitespace(s[k]) || IsSeparator(s[k]) {
        if k < i {
          assert s[k] == s[..i][k];
        } else if k > i {
          assert s[k] == s[i + 1..][k - i - 1];
        }
      }
    }
  }

  lemma {:induction false} PieceWordsEmpty(p: string)
    requires NoSeparator(p)
    ensures PieceWords(p) == [] <==> Blank(p)
  {
    var _ := TrimFacts(p);
  }

  lemma {:induction false} TokensEmptyStep(text: string)
    requires SeparatorIndex(text) < |text|
    requires Tokens(text[SeparatorIndex(text) + 1..]) == [] <==> Blank(text[SeparatorIndex(text) + 1..])
    ensures Tokens(text) == [] <==> Blank(text)
  {
    var i := SeparatorIndex(text);
    TokensUnfold(text);
    SeparatorIndexPrefix(text);
    PieceWordsEmpty(text[..i]);
    BlankAround(text, i);
  }

  lemma {:induction false} TokensEmptyIff(text: string)
    ensures Tokens(text) == [] <==> Blank(text)
    decreases |text|
  {
    var i := SeparatorIndex(text);
    if i == |text| {
      SeparatorIndexPrefix(text);
      assert text[..i] == text;
      TokensWhole(text);
      PieceWordsEmpty(text);
    } else {
      TokensEmptyIff(text[i + 1..]);
      TokensEmptyStep(text);
    }
  }

  /** The parse is empty exactly when the text holds nothing but white space
      and separators. */
  lemma {:induction false} ParseEmptyIff(text: string)
    ensures Parse(text) == [] <==> Blank(text)
  {
    ParseIsTokens(text);
    TokensEmptyIff(text);
  }

  /** Filtering on the trimmed form and then trimming gives the same list as
      trimming first and filtering on the length. */
  lemma {:induction false} FilterTrimCommute(ws: seq<string>)
    ensures MapTrim(KeepNonBlank(ws)) == KeepNonEmpty(MapTrim(ws))
  {
    if ws != [] {
      FilterTrimCommute(ws[1..]);
      assert MapTrim(ws)[1..] == MapTrim(ws[1..]);
      var head := if Trim(ws[0]) == [] then [] else [ws[0]];
      assert MapTrim(head + KeepNonBlank(ws[1..])) == MapTrim(head) + MapTrim(KeepNonBlank(ws[1..]));
    }
  }

  /** The count shown live beside the input equals the number of words
      the submit handler will take. */
  lemma {:induction false} LiveCountMatchesParse(text: string)
    ensures LiveCount(text) == |Parse(text)|
  {
    FilterTrimCommute(Split(text));
  }
}
