/** Character classes and trimming as JavaScript defines them:
    the white space that `String.prototype.trim` removes, and the ASCII
    word characters and case folding of a non-Unicode regular expression. */
module Text {

  /** White space and line terminators removed by `trim`: tab, line feed,
      vertical tab, form feed, carriage return, space, no-break space,
      ogham space mark, the spaces U+2000 to U+200A, line and paragraph
      separator, narrow no-break space, medium mathematical space,
      ideographic space and the byte order mark. */
  predicate IsWhitespace(c: char) {
    ('\t' <= c <= '\r') || c == ' ' || c == '\U{00A0}' || c == '\U{1680}'
    || ('\U{2000}' <= c <= '\U{200A}') || c == '\U{2028}' || c == '\U{2029}'
    || c == '\U{202F}' || c == '\U{205F}' || c == '\U{3000}' || c == '\U{FEFF}'
  }

  predicate AllWhitespace(s: string) {
    forall k :: 0 <= k < |s| ==> IsWhitespace(s[k])
  }

  /** `s` without its leading white space. */
  function TrimStart(s: string): string {
    if s != [] && IsWhitespace(s[0]) then TrimStart(s[1..]) else s
  }

  /** `s` without its trailing white space. */
  function TrimEnd(s: string): string {
    if s != [] && IsWhitespace(s[|s| - 1]) then TrimEnd(s[..|s| - 1]) else s
  }

  /** `s.trim()` */
  function Trim(s: string): string {
    TrimEnd(TrimStart(s))
  }

  lemma {:induction false} TrimStartFacts(s: string) returns (i: nat)
    ensures i <= |s| && TrimStart(s) == s[i..] && AllWhitespace(s[..i])
    ensures TrimStart(s) != [] ==> !IsWhitespace(TrimStart(s)[0])
  {
    if s != [] && IsWhitespace(s[0]) {
      var i' := TrimStartFacts(s[1..]);
      i := i' + 1;
      assert s[1..][i'..] == s[i..];
      assert forall k :: 0 <= k < i ==> s[..i][k] == if k == 0 then s[0] else s[1..][..i'][k - 1];
    } else {
      i := 0;
    }
  }

  lemma {:induction false} TrimEndFacts(s: string) returns (j: nat)
    ensures j <= |s| && TrimEnd(s) == s[..j] && AllWhitespace(s[j..])
    ensures TrimEnd(s) != [] ==> !IsWhitespace(TrimEnd(s)[|TrimEnd(s)| - 1])
    ensures TrimEnd(s) == [] ==> AllWhitespace(s)
  {
    if s != [] && IsWhitespace(s[|s| - 1]) {
      var p := s[..|s| - 1];
      j := TrimEndFacts(p);
      assert p[..j] == s[..j];
      forall k | j <= k < |s|
        ensures IsWhitespace(s[k])
      {
        if k < |p| {
          assert s[k] == p[j..][k - j];
        }
      }
    } else {
      j := |s|;
    }
    if TrimEnd(s) == [] {
      assert s[j..] == s;
    }
  }

  /** What `trim` promises: the result is the infix of `s` left once the
      white space at both ends is cut away; it is empty exactly when `s` is
      all white space, and otherwise begins and ends with other characters. */
  lemma {:induction false} TrimFacts(s: string) returns (i: nat)
    ensures i + |Trim(s)| <= |s| && Trim(s) == s[i..i + |Trim(s)|]
    ensures AllWhitespace(s[..i]) && AllWhitespace(s[i + |Trim(s)|..])
    ensures Trim(s) == [] <==> AllWhitespace(s)
    ensures Trim(s) != [] ==> !IsWhitespace(Trim(s)[0]) && !IsWhitespace(Trim(s)[|Trim(s)| - 1])
  {
    var t := TrimStart(s);
    i := TrimStartFacts(s);
    var j := TrimEndFacts(t);
    var r := Trim(s);
    assert r == t[..j] == s[i..i + j];
    assert s[i + j..] == t[j..];
    if t != [] && j > 0 {
      assert r[0] == t[0];
    }
    if t != [] {
      assert !IsWhitespace(s[i]) by { assert t[0] == s[i]; }
    }
    if r == [] {
      assert s == s[..i] + t;
    }
  }

  /** Every character of `Trim(s)` occurs in `s`. */
  lemma {:induction false} TrimChars(s: string)
    ensures forall k :: 0 <= k < |Trim(s)| ==> Trim(s)[k] in s
  {
    var r := Trim(s);
    var i := TrimFacts(s);
    forall k | 0 <= k < |r| ensures r[k] in s {
      assert r[k] == s[i + k];
    }
  }

  /** `\w` without the `u` flag: ASCII letters, digits and underscore. */
  predicate IsWordChar(c: char) {
    ('a' <= c <= 'z') || ('A' <= c <= 'Z') || ('0' <= c <= '9') || c == '_'
  }

  /** The case folding of an ASCII character under the `i` flag; every
      other character folds only to itself against ASCII patterns. */
  function FoldCase(c: char): (f: char)
    ensures 'A' <= c <= 'Z' ==> 'a' <= f <= 'z' && f as int == c as int + 32
    ensures !('A' <= c <= 'Z') ==> f == c
  {
    if 'A' <= c <= 'Z' then (c as int + 32) as char else c
  }

  /** Folding keeps word characters apart from the rest. */
  lemma {:induction false} FoldCasePreservesWordChar(a: char, b: char)
    requires FoldCase(a) == FoldCase(b)
    ensures IsWordChar(a) <==> IsWordChar(b)
  {
  }
}
