/**
 * The three Python `str` builtins the goodbye check relies on, over
 * Dafny strings (sequences of Unicode scalar values):
 *   - `s.lower()`, restricted to ASCII letters;
 *   - `s.strip()`, which removes the characters `str.isspace()` accepts
 *     from both ends;
 *   - `phrase in text`, the substring test.
 */
module PyStr {

  /** The characters for which Python's `str.isspace()` holds. */
  predicate IsSpace(c: char) {
    || c == ' '
    || '\t' <= c <= '\r'              // \t \n \x0b \x0c \r
    || '\U{1C}' <= c <= '\U{1F}'      // file, group, record and unit separators
    || c == '\U{85}' || c == '\U{A0}' || c == '\U{1680}'
    || '\U{2000}' <= c <= '\U{200A}'
    || c == '\U{2028}' || c == '\U{2029}' || c == '\U{202F}'
    || c == '\U{205F}' || c == '\U{3000}'
  }

  function LowerChar(c: char): char {
    if 'A' <= c <= 'Z' then (c as int + 32) as char else c
  }

  function UpperChar(c: char): char {
    if 'a' <= c <= 'z' then (c as int - 32) as char else c
  }

  /** `s.lower()` */
  function Lower(s: string): string {
    seq(|s|, i requires 0 <= i < |s| => LowerChar(s[i]))
  }

  /** `s.upper()` */
  function Upper(s: string): string {
    seq(|s|, i requires 0 <= i < |s| => UpperChar(s[i]))
  }

  /** Number of whitespace characters at the start of `s`. */
  function LeadingSpaces(s: string): (n: nat)
    ensures n <= |s|
    ensures forall j :: 0 <= j < n ==> IsSpace(s[j])
    ensures n == |s| || !IsSpace(s[n])
  {
    if |s| > 0 && IsSpace(s[0]) then 1 + LeadingSpaces(s[1..]) else 0
  }

  /** Number of whitespace characters at the end of `s`. */
  function TrailingSpaces(s: string): (n: nat)
    ensures n <= |s|
    ensures forall j :: |s| - n <= j < |s| ==> IsSpace(s[j])
    ensures n == |s| || !IsSpace(s[|s| - n - 1])
  {
    if |s| > 0 && IsSpace(s[|s| - 1]) then 1 + TrailingSpaces(s[..|s| - 1]) else 0
  }

  /** Start and end of the part of `s` that `s.strip()` keeps. */
  function StripStart(s: string): nat {
    LeadingSpaces(s)
  }

  function StripEnd(s: string): nat {
    var a := LeadingSpaces(s);
    |s| - TrailingSpaces(s[a..])
  }

  /**
   * `s.strip()`: the longest slice of `s` that neither starts nor ends
   * with whitespace, everything cut off on either side being whitespace.
   */
  function Strip(s: string): (r: string)
    ensures StripStart(s) <= StripEnd(s) <= |s|
    ensures r == s[StripStart(s)..StripEnd(s)]
    ensures forall j :: 0 <= j < StripStart(s) ==> IsSpace(s[j])
    ensures forall j :: StripEnd(s) <= j < |s| ==> IsSpace(s[j])
    ensures r == [] || (!IsSpace(r[0]) && !IsSpace(r[|r| - 1]))
  {
    var a := LeadingSpaces(s);
    var t := s[a..];
    t[..|t| - TrailingSpaces(t)]
  }

  /** `phrase` occurs in `text` starting at index `i`. */
  predicate OccursAt(text: string, phrase: string, i: int) {
    0 <= i && i + |phrase| <= |text| && text[i..i + |phrase|] == phrase
  }

  /**
   * Python's `phrase in text` on two strings: the empty string is in every
   * string, and nothing is in a shorter string.
   */
  predicate Contains(text: string, phrase: string)
    ensures |phrase| == 0 ==> Contains(text, phrase)
    ensures Contains(text, phrase) ==> |phrase| <= |text|
  {
    assert OccursAt(text, [], 0);
    exists i | 0 <= i <= |text| - |phrase| :: OccursAt(text, phrase, i)
  }

  /**
   * What `s.lower()` does: no ASCII capital is left, every other character
   * is kept, and each character still names the same letter.
   */
  lemma LowerLowers(s: string)
    ensures |Lower(s)| == |s|
    ensures forall i :: 0 <= i < |s| ==> !('A' <= Lower(s)[i] <= 'Z')
    ensures forall i :: 0 <= i < |s| ==> ('A' <= s[i] <= 'Z' || Lower(s)[i] == s[i])
    ensures forall i :: 0 <= i < |s| ==> UpperChar(Lower(s)[i]) == UpperChar(s[i])
  {
  }

  lemma LowerOfUpper(s: string)
    ensures Lower(Upper(s)) == Lower(s)
  {
  }

  /** Lower-casing never turns a non-space into a space or back. */
  lemma LowerKeepsSpaces(s: string)
    ensures forall j :: 0 <= j < |s| ==> (IsSpace(Lower(s)[j]) <==> IsSpace(s[j]))
  {
  }

  /** `strip()` cuts at the same places in two strings whose whitespace lies at the same positions. */
  lemma {:induction false} LeadingSpacesAgree(s: string, t: string)
    requires |s| == |t|
    requires forall j :: 0 <= j < |s| ==> (IsSpace(s[j]) <==> IsSpace(t[j]))
    ensures LeadingSpaces(s) == LeadingSpaces(t)
  {
    if |s| > 0 && IsSpace(s[0]) {
      LeadingSpacesAgree(s[1..], t[1..]);
    }
  }

  lemma {:induction false} TrailingSpacesAgree(s: string, t: string)
    requires |s| == |t|
    requires forall j :: 0 <= j < |s| ==> (IsSpace(s[j]) <==> IsSpace(t[j]))
    ensures TrailingSpaces(s) == TrailingSpaces(t)
  {
    if |s| > 0 && IsSpace(s[|s| - 1]) {
      TrailingSpacesAgree(s[..|s| - 1], t[..|t| - 1]);
    }
  }

  lemma StripBoundsAgree(s: string, t: string)
    requires |s| == |t|
    requires forall j :: 0 <= j < |s| ==> (IsSpace(s[j]) <==> IsSpace(t[j]))
    ensures StripStart(s) == StripStart(t) && StripEnd(s) == StripEnd(t)
  {
    LeadingSpacesAgree(s, t);
    var a := LeadingSpaces(s);
    TrailingSpacesAgree(s[a..], t[a..]);
  }

  /** `m.upper().strip() == m.strip().upper()` */
  lemma StripUpper(s: string)
    ensures Strip(Upper(s)) == Upper(Strip(s))
  {
    StripBoundsAgree(Upper(s), s);
    var a, b := StripStart(s), StripEnd(s);
    assert Upper(s)[a..b] == Upper(s[a..b]);
  }

  /** `m.lower().strip() == m.strip().lower()` */
  lemma StripLower(s: string)
    ensures Strip(Lower(s)) == Lower(Strip(s))
  {
    StripBoundsAgree(Lower(s), s);
    var a, b := StripStart(s), StripEnd(s);
    assert Lower(s)[a..b] == Lower(s[a..b]);
  }

  /** Substring is transitive: a phrase inside a phrase found in `text` is found in `text`. */
  lemma ContainsTransitive(text: string, outer: string, inner: string)
    requires Contains(text, outer) && Contains(outer, inner)
    ensures Contains(text, inner)
  {
    var i :| 0 <= i <= |text| - |outer| && OccursAt(text, outer, i);
    var j :| 0 <= j <= |outer| - |inner| && OccursAt(outer, inner, j);
    forall k | 0 <= k < |inner|
      ensures text[i + j + k] == inner[k]
    {
      assert inner[k] == outer[j + k] == text[i + j + k];
    }
    assert OccursAt(text, inner, i + j);
  }

  /** What occurs in a slice of `text` occurs in `text`. */
  lemma ContainsSlice(text: string, a: nat, b: nat, phrase: string)
    requires a <= b <= |text|
    requires Contains(text[a..b], phrase)
    ensures Contains(text, phrase)
  {
    var i :| 0 <= i <= |text[a..b]| - |phrase| && OccursAt(text[a..b], phrase, i);
    forall k | 0 <= k < |phrase|
      ensures text[a + i + k] == phrase[k]
    {
      assert phrase[k] == text[a..b][i + k];
    }
    assert OccursAt(text, phrase, a + i);
  }

  /**
   * A phrase that neither starts nor ends with whitespace, found in `text`,
   * lies inside any slice of `text` outside which there is only whitespace.
   */
  lemma ContainsWithinSpaces(text: string, a: nat, b: nat, phrase: string)
    requires a <= b <= |text|
    requires forall j :: 0 <= j < a ==> IsSpace(text[j])
    requires forall j :: b <= j < |text| ==> IsSpace(text[j])
    requires |phrase| > 0 && !IsSpace(phrase[0]) && !IsSpace(phrase[|phrase| - 1])
    requires Contains(text, phrase)
    ensures Contains(text[a..b], phrase)
  {
    var i :| 0 <= i <= |text| - |phrase| && OccursAt(text, phrase, i);
    assert text[i] == phrase[0];
    assert text[i + |phrase| - 1] == phrase[|phrase| - 1];
    forall k | 0 <= k < |phrase|
      ensures text[a..b][i - a + k] == phrase[k]
    {
      assert text[i + k] == phrase[k];
    }
    assert OccursAt(text[a..b], phrase, i - a);
  }

  /**
   * Stripping before lower-casing never changes whether a phrase that
   * neither starts nor ends with whitespace occurs.
   */
  lemma ContainsIgnoresStrip(s: string, phrase: string)
    requires |phrase| > 0 && !IsSpace(phrase[0]) && !IsSpace(phrase[|phrase| - 1])
    ensures Contains(Lower(Strip(s)), phrase) <==> Contains(Lower(s), phrase)
  {
    var a, b := StripStart(s), StripEnd(s);
    var low := Lower(s);
    assert Lower(Strip(s)) == low[a..b];
    LowerKeepsSpaces(s);
    if Contains(low[a..b], phrase) {
      ContainsSlice(low, a, b, phrase);
    }
    if Contains(low, phrase) {
      ContainsWithinSpaces(low, a, b, phrase);
    }
  }
}
