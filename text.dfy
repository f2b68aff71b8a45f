/**
 * String primitives of the JavaScript runtime the service relies on, over
 * `string`. A JavaScript string is a sequence of UTF-16 code units; here a
 * `char` is a Unicode scalar value, so a character outside the Basic
 * Multilingual Plane is one `char` rather than two, and lone surrogates do
 * not occur. Every character class used below lies in the Basic Multilingual
 * Plane, so no modelled operation depends on the difference.
 */
module Text {
  import opened Wrappers

  /** ECMAScript LineTerminator: the characters the regex `.` does not match. */
  predicate IsLineTerminator(c: char) {
    c == '\n' || c == '\r' || c == '\U{2028}' || c == '\U{2029}'
  }

  /** A character `.` matches. */
  predicate IsLineChar(c: char) {
    !IsLineTerminator(c)
  }

  /** ECMAScript WhiteSpace or LineTerminator: the regex class `\s`, and what `trim()` removes. */
  predicate IsSpace(c: char) {
    || c == '\t' || c == '\U{000B}' || c == '\U{000C}' || c == ' ' || c == '\U{00A0}'
    || c == '\U{1680}' || ('\U{2000}' <= c <= '\U{200A}') || c == '\U{202F}'
    || c == '\U{205F}' || c == '\U{3000}' || c == '\U{FEFF}'
    || IsLineTerminator(c)
  }

  /** The regex class `\d`: ASCII digits only. */
  predicate IsDigit(c: char) {
    '0' <= c <= '9'
  }

  predicate AllDigits(s: string) {
    forall k :: 0 <= k < |s| ==> IsDigit(s[k])
  }

  /** `r` is what is left of `t` after some prefix of it. */
  predicate EndsWith(t: string, r: string) {
    |r| <= |t| && r == t[|t| - |r|..]
  }

  predicate NoSpaces(s: string) {
    forall k :: 0 <= k < |s| ==> !IsSpace(s[k])
  }

  predicate AllSpaces(s: string) {
    forall k :: 0 <= k < |s| ==> IsSpace(s[k])
  }

  predicate NoLineTerminators(s: string) {
    forall k :: 0 <= k < |s| ==> IsLineChar(s[k])
  }

  /**
   * Case folding of a JavaScript regex with the `i` flag and no `u` flag, as it
   * applies to ASCII pattern letters: a character matches a lower-case ASCII
   * letter exactly when it is that letter in either case (characters above
   * U+007F never fold onto ASCII in that mode).
   */
  function Lower(c: char): (r: char)
    ensures 'A' <= c <= 'Z' ==> 'a' <= r <= 'z' && r as int == c as int + 32
    ensures !('A' <= c <= 'Z') ==> r == c
  {
    if 'A' <= c <= 'Z' then (c as int + 32) as char else c
  }

  /** `t` begins with the lower-case literal `kw`, letters compared case-insensitively. */
  predicate StartsWithIgnoreCase(t: string, kw: string) {
    |kw| <= |t| && forall k :: 0 <= k < |kw| ==> Lower(t[k]) == kw[k]
  }

  /** `w` is a spelling of the lower-case literal `kw` in any letter case. */
  predicate SpelledAs(w: string, kw: string) {
    |w| == |kw| && forall k :: 0 <= k < |kw| ==> Lower(w[k]) == kw[k]
  }

  /** Length of the longest prefix of `t` whose characters all satisfy `p`: a greedy `[p]*`. */
  function Span(t: string, p: char -> bool): (n: nat)
    ensures n <= |t|
    ensures forall k :: 0 <= k < n ==> p(t[k])
    ensures n == |t| || !p(t[n])
  {
    if t != [] && p(t[0]) then 1 + Span(t[1..], p) else 0
  }

  lemma {:induction false} SpanOfPrefix(w: string, rest: string, p: char -> bool)
    requires forall k :: 0 <= k < |w| ==> p(w[k])
    requires rest == [] || !p(rest[0])
    ensures Span(w + rest, p) == |w|
  {
    if w != [] {
      assert (w + rest)[1..] == w[1..] + rest;
      SpanOfPrefix(w[1..], rest, p);
    } else {
      assert w + rest == rest;
    }
  }

  /** `String.prototype.trimEnd`. */
  function TrimEnd(t: string): (r: string)
    ensures |r| <= |t| && r == t[..|r|]
    ensures forall k :: |r| <= k < |t| ==> IsSpace(t[k])
    ensures r == [] || !IsSpace(r[|r| - 1])
  {
    if t != [] && IsSpace(t[|t| - 1]) then TrimEnd(t[..|t| - 1]) else t
  }

  /** No leading and no trailing whitespace. */
  predicate IsTrimmed(s: string) {
    s == [] || (!IsSpace(s[0]) && !IsSpace(s[|s| - 1]))
  }

  /**
   * `String.prototype.trim`: the part of `t` left after removing the whitespace
   * run at each end, and nothing else.
   */
  function Trim(t: string): (r: string)
    ensures IsTrimmed(r)
    ensures var i := Span(t, IsSpace);
      && i + |r| <= |t| && r == t[i..i + |r|]
      && (forall k :: 0 <= k < i ==> IsSpace(t[k]))
      && (forall k :: i + |r| <= k < |t| ==> IsSpace(t[k]))
  {
    var i := Span(t, IsSpace);
    var r := TrimEnd(t[i..]);
    assert r == [] ==> IsTrimmed(r);
    r
  }

  /** Trimming text that has no whitespace at either end leaves it as it is. */
  lemma TrimmedUnchanged(s: string)
    requires IsTrimmed(s)
    ensures Trim(s) == s
  {
    if s != [] {
      assert Span(s, IsSpace) == 0;
      assert s[0..] == s;
    }
  }

  /**
   * `t.replace(/\s+/g, '')`: every whitespace character removed, order kept
   * (RemoveSpacesConcat and RemoveSpacesChar pin the result down exactly).
   */
  function RemoveSpaces(t: string): (r: string)
    ensures NoSpaces(r)
    ensures |r| <= |t|
  {
    if t == [] then []
    else (if IsSpace(t[0]) then [] else [t[0]]) + RemoveSpaces(t[1..])
  }

  /**
   * Removing whitespace works piece by piece: the result for `a + b` is the
   * result for `a` followed by the result for `b`. With the one-character
   * case below this pins the result down as the input's non-whitespace
   * characters, in their order.
   */
  lemma {:induction false} RemoveSpacesConcat(a: string, b: string)
    ensures RemoveSpaces(a + b) == RemoveSpaces(a) + RemoveSpaces(b)
  {
    if a == [] {
      assert a + b == b;
    } else {
      var head := if IsSpace(a[0]) then [] else [a[0]];
      assert (a + b)[0] == a[0] && (a + b)[1..] == a[1..] + b;
      assert RemoveSpaces(a + b) == head + RemoveSpaces(a[1..] + b);
      RemoveSpacesConcat(a[1..], b);
      assert RemoveSpaces(a) == head + RemoveSpaces(a[1..]);
      var x, y := RemoveSpaces(a[1..]), RemoveSpaces(b);
      assert head + (x + y) == (head + x) + y;
    }
  }

  /** A single character is kept exactly when it is not whitespace. */
  lemma RemoveSpacesChar(c: char)
    ensures RemoveSpaces([c]) == if IsSpace(c) then [] else [c]
  {
    assert [c][1..] == [];
  }

  /** Each character other than whitespace keeps its number of occurrences. */
  lemma {:induction false} RemoveSpacesCounts(t: string)
    ensures forall c :: multiset(RemoveSpaces(t))[c] == if IsSpace(c) then 0 else multiset(t)[c]
  {
    if t != [] {
      RemoveSpacesCounts(t[1..]);
      assert t == [t[0]] + t[1..];
      var head := if IsSpace(t[0]) then [] else [t[0]];
      assert multiset(RemoveSpaces(t)) == multiset(head) + multiset(RemoveSpaces(t[1..]));
    }
  }

  lemma {:induction false} RemoveSpacesUnchanged(t: string)
    requires NoSpaces(t)
    ensures RemoveSpaces(t) == t
  {
    if t != [] {
      RemoveSpacesUnchanged(t[1..]);
      assert [t[0]] + t[1..] == t;
    }
  }

  /** `pat` occurs in `t` starting at index `k`. */
  predicate OccursAt(t: string, pat: string, k: nat) {
    k + |pat| <= |t| && t[k..k + |pat|] == pat
  }

  /** The leftmost index at or after `from` where `pat` occurs, if any. */
  function FindFrom(t: string, pat: string, from: nat): (r: Option<nat>)
    decreases |t| - from
    ensures r.Some? ==> from <= r.value && OccursAt(t, pat, r.value)
    ensures r.Some? ==> forall k :: from <= k < r.value ==> !OccursAt(t, pat, k)
    ensures r.None? ==> forall k :: from <= k ==> !OccursAt(t, pat, k)
  {
    if from + |pat| > |t| then None
    else if t[from..from + |pat|] == pat then Some(from)
    else FindFrom(t, pat, from + 1)
  }

  predicate Contains(t: string, pat: string) {
    exists k: nat :: k <= |t| && OccursAt(t, pat, k)
  }

  /**
   * `t.replace(pat, '')` with a string pattern: only the leftmost occurrence
   * of `pat` is removed.
   */
  function RemoveFirst(t: string, pat: string): (r: string)
    ensures !Contains(t, pat) ==> r == t
    ensures Contains(t, pat) ==> |r| == |t| - |pat|
    ensures Contains(t, pat) ==> exists k: nat ::
      && OccursAt(t, pat, k) && (forall j :: 0 <= j < k ==> !OccursAt(t, pat, j))
      && r == t[..k] + t[k + |pat|..]
  {
    match FindFrom(t, pat, 0)
    case None => t
    case Some(k) =>
      var r := t[..k] + t[k + |pat|..];
      assert OccursAt(t, pat, k) && (forall j :: 0 <= j < k ==> !OccursAt(t, pat, j)) && r == t[..k] + t[k + |pat|..];
      r
  }

  /** A single space between two strings is dropped. */
  lemma RemoveSpacesAround(a: string, b: string)
    ensures RemoveSpaces(a + " " + b) == RemoveSpaces(a) + RemoveSpaces(b)
  {
    var sp := " ";
    RemoveSpacesConcat(a + sp, b);
    RemoveSpacesConcat(a, sp);
    RemoveSpacesChar(' ');
    assert RemoveSpaces(a) + [] == RemoveSpaces(a);
  }

  /** Single spaces between whitespace-free words are all dropped. */
  lemma RemoveSpacesBetween(a: string, b: string, c: string)
    requires NoSpaces(a) && NoSpaces(b) && NoSpaces(c)
    ensures RemoveSpaces(a + " " + b + " " + c) == a + b + c
  {
    RemoveSpacesAround(a + " " + b, c);
    RemoveSpacesAround(a, b);
    RemoveSpacesUnchanged(a);
    RemoveSpacesUnchanged(b);
    RemoveSpacesUnchanged(c);
  }

  /** `+1 555 0100` without its whitespace is `+15550100`. */
  lemma RemoveSpacesExample()
    ensures RemoveSpaces("+1 555 0100") == "+15550100"
  {
    var a, b, c := "+1", "555", "0100";
    SampleSplit();
    DigitsHaveNoSpaces("1");
    assert a == "+" + "1";
    DigitsHaveNoSpaces(b);
    DigitsHaveNoSpaces(c);
    RemoveSpacesBetween(a, b, c);
  }

  lemma DigitsHaveNoSpaces(s: string)
    requires AllDigits(s)
    ensures NoSpaces(s)
  {
  }

  lemma SampleSplit()
    ensures "+1 555 0100" == "+1" + " " + "555" + " " + "0100"
    ensures "+1" + "555" + "0100" == "+15550100"
  {
  }
}
