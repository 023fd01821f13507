/**
 * The pieces of Python's string library the core relies on: the whitespace
 * class shared by `str.isspace`, `str.strip`, `str.split()` and the regular
 * expression class `\s`, ASCII lower-casing, `str.split(sep)` and `sep.join`.
 * Only the ASCII part of Python's Unicode-aware definitions is modelled.
 */
module Strings {

  /** Python's whitespace restricted to ASCII: tab, line feed, vertical tab,
      form feed, carriage return, the four information separators and space. */
  predicate IsSpace(c: char) {
    9 <= c as int <= 13 || 28 <= c as int <= 32
  }

  predicate NotSpace(c: char) {
    !IsSpace(c)
  }

  predicate AllSpace(s: string) {
    forall i :: 0 <= i < |s| ==> IsSpace(s[i])
  }

  predicate IsUpper(c: char) {
    'A' <= c <= 'Z'
  }

  /** `str.lower` on one character (ASCII letters only). */
  function Lower(c: char): (r: char)
    ensures !IsUpper(r)
    ensures IsUpper(c) ==> r as int == c as int + 32
    ensures !IsUpper(c) ==> r == c
  {
    if IsUpper(c) then (c as int + 32) as char else c
  }

  /** `str.lower` (ASCII letters only). */
  function LowerStr(s: string): (r: string)
    ensures |r| == |s|
    ensures forall i :: 0 <= i < |s| ==> r[i] == Lower(s[i])
  {
    seq(|s|, i requires 0 <= i < |s| => Lower(s[i]))
  }

  /** Length of the longest prefix of `s` whose characters all satisfy `p`. */
  function Span(s: string, p: char -> bool): (n: nat)
    ensures n <= |s|
    ensures forall i :: 0 <= i < n ==> p(s[i])
    ensures n < |s| ==> !p(s[n])
  {
    if s == [] || !p(s[0]) then 0 else 1 + Span(s[1..], p)
  }

  /** Length of the longest suffix of `s` whose characters all satisfy `p`. */
  function SpanBack(s: string, p: char -> bool): (n: nat)
    ensures n <= |s|
    ensures forall i :: |s| - n <= i < |s| ==> p(s[i])
    ensures n < |s| ==> !p(s[|s| - n - 1])
  {
    if s == [] || !p(s[|s| - 1]) then 0 else 1 + SpanBack(s[..|s| - 1], p)
  }

  /** A prefix run that stops at `n` has length `n`. */
  lemma SpanExact(s: string, p: char -> bool, n: nat)
    requires n <= |s| && (forall i :: 0 <= i < n ==> p(s[i])) && (n < |s| ==> !p(s[n]))
    ensures Span(s, p) == n
  {
  }

  /** The text after the leading whitespace, as the regular expression `\s*` consumes it. */
  function DropSpaces(s: string): (r: string)
    ensures |r| <= |s|
    ensures r != [] ==> !IsSpace(r[0])
  {
    s[Span(s, IsSpace)..]
  }

  /** What `\s*` leaves is the input after a whitespace prefix. */
  lemma DropSpacesSuffix(s: string)
    ensures var r := DropSpaces(s);
      r == s[|s| - |r|..] && AllSpace(s[..|s| - |r|])
  {
  }

  /** `str.strip()`: both whitespace ends removed. */
  function Strip(s: string): (r: string)
    ensures |r| <= |s|
    ensures r != [] ==> !IsSpace(r[0]) && !IsSpace(r[|r| - 1])
  {
    var t := DropSpaces(s);
    t[..|t| - SpanBack(t, IsSpace)]
  }

  /** What `str.strip()` leaves is the slice between a whitespace prefix and
      a whitespace suffix. */
  lemma StripSlice(s: string)
    ensures var r := Strip(s);
      var k := Span(s, IsSpace);
      && k + |r| <= |s| && r == s[k..k + |r|]
      && AllSpace(s[..k]) && AllSpace(s[k + |r|..])
  {
  }

  /** Index of the first occurrence of `d` in `s`. */
  function IndexOf(s: string, d: char): (i: nat)
    requires d in s
    ensures i < |s| && s[i] == d && d !in s[..i]
  {
    if s[0] == d then 0 else 1 + IndexOf(s[1..], d)
  }

  /** A join of two or more parts is the first part, the delimiter, then the join of the rest. */
  lemma JoinFront(parts: seq<string>, d: char)
    requires |parts| >= 2
    ensures Join(parts, d) == parts[0] + ([d] + Join(parts[1..], d))
  {
  }

  /** Concatenation regroups freely. */
  lemma ConcatAssoc<T>(a: seq<T>, b: seq<T>, c: seq<T>)
    ensures a + b + c == a + (b + c)
  {
  }

  /** `d.join(parts)`. */
  function Join(parts: seq<string>, d: char): string
  {
    if |parts| == 0 then ""
    else if |parts| == 1 then parts[0]
    else parts[0] + [d] + Join(parts[1..], d)
  }

  /** `s.split(d)` for a one-character separator: the pieces between the
      occurrences of `d`; `Join` puts them back together. */
  function Split(s: string, d: char): (r: seq<string>)
    ensures |r| >= 1
    ensures forall i :: 0 <= i < |r| ==> d !in r[i]
    ensures forall i, c :: 0 <= i < |r| && c in r[i] ==> c in s
    ensures Join(r, d) == s
    decreases |s|
  {
    if d !in s then [s]
    else
      var i := IndexOf(s, d);
      var rest := Split(s[i + 1..], d);
      var r := [s[..i]] + rest;
      assert r[1..] == rest;
      assert s == s[..i] + [d] + s[i + 1..];
      r
  }

  /** A string without whitespace. */
  predicate NoSpace(s: string) {
    forall k :: 0 <= k < |s| ==> NotSpace(s[k])
  }

  /** The characters of `s` that are not whitespace, in order. */
  function Text(s: string): (r: string)
    ensures |r| <= |s|
    ensures forall c :: c in r ==> c in s && !IsSpace(c)
  {
    if s == [] then [] else (if IsSpace(s[0]) then [] else [s[0]]) + Text(s[1..])
  }

  /** On one character the text is the character exactly when it is not whitespace. */
  lemma TextChar(c: char)
    ensures Text([c]) == if IsSpace(c) then [] else [c]
  {
    assert [c][1..] == [];
  }

  /** Whitespace holds no text. */
  lemma {:induction false} TextOfSpaces(s: string)
    requires AllSpace(s)
    ensures Text(s) == []
    decreases |s|
  {
    if s != [] {
      assert AllSpace(s[1..]);
      TextOfSpaces(s[1..]);
    }
  }

  /** A string without whitespace is all text. */
  lemma {:induction false} TextOfNoSpace(s: string)
    requires NoSpace(s)
    ensures Text(s) == s
    decreases |s|
  {
    if s != [] {
      assert NotSpace(s[0]) && NoSpace(s[1..]);
      TextOfNoSpace(s[1..]);
      assert s == [s[0]] + s[1..];
    }
  }

  /** Taking the text distributes over concatenation. */
  lemma {:induction false} TextAppend(a: string, b: string)
    ensures Text(a + b) == Text(a) + Text(b)
    decreases |a|
  {
    if a == [] {
      assert a + b == b;
    } else {
      var h := if IsSpace(a[0]) then [] else [a[0]];
      assert (a + b)[0] == a[0];
      assert (a + b)[1..] == a[1..] + b;
      assert Text(a + b) == h + Text(a[1..] + b);
      TextAppend(a[1..], b);
      assert Text(a) == h + Text(a[1..]);
      ConcatAssoc(h, Text(a[1..]), Text(b));
    }
  }

  /** The words of a list written one after another. */
  function Flatten(words: seq<string>): string
  {
    if words == [] then [] else words[0] + Flatten(words[1..])
  }

  /** A word of `str.split()`: a non-empty run of non-whitespace. */
  predicate IsWord(w: string) {
    w != [] && forall k :: 0 <= k < |w| ==> NotSpace(w[k])
  }

  /** The first word of a string that starts with non-whitespace. */
  lemma LeadingWord(t: string)
    requires t != [] && !IsSpace(t[0])
    ensures 1 <= Span(t, NotSpace) <= |t| && IsWord(t[..Span(t, NotSpace)])
  {
    assert NotSpace(t[0]);
  }

  /** `s.split()` without a separator: the maximal runs of non-whitespace. */
  function SplitWords(s: string): (r: seq<string>)
    ensures forall i :: 0 <= i < |r| ==> IsWord(r[i])
    decreases |s|
  {
    var t := DropSpaces(s);
    if t == [] then []
    else
      LeadingWord(t);
      var n := Span(t, NotSpace);
      [t[..n]] + SplitWords(t[n..])
  }

  /** Dropping a leading whitespace run does not change the text. */
  lemma TextDropSpaces(s: string, n: nat)
    requires n <= |s| && AllSpace(s[..n])
    ensures Text(s[n..]) == Text(s)
  {
    assert s == s[..n] + s[n..];
    TextAppend(s[..n], s[n..]);
    TextOfSpaces(s[..n]);
  }

  /** A leading word is all text. */
  lemma TextAfterLeadingWord(t: string, n: nat)
    requires n <= |t| && IsWord(t[..n])
    ensures Text(t) == t[..n] + Text(t[n..])
  {
    assert t == t[..n] + t[n..];
    TextAppend(t[..n], t[n..]);
    assert NoSpace(t[..n]);
    TextOfNoSpace(t[..n]);
  }

  /** One step of `str.split()`: the leading word, then the words of the rest. */
  lemma SplitWordsFront(s: string)
    requires DropSpaces(s) != []
    ensures var t := DropSpaces(s);
      var n := Span(t, NotSpace);
      1 <= n <= |t| && SplitWords(s) == [t[..n]] + SplitWords(t[n..])
  {
    LeadingWord(DropSpaces(s));
  }

  lemma FlattenFront(w: string, rest: seq<string>)
    ensures Flatten([w] + rest) == w + Flatten(rest)
  {
    assert ([w] + rest)[1..] == rest;
  }

  /** The words hold every non-whitespace character of `s`, in order. */
  lemma {:induction false} SplitWordsText(s: string)
    ensures Flatten(SplitWords(s)) == Text(s)
    decreases |s|
  {
    var t := DropSpaces(s);
    DropSpacesSuffix(s);
    TextDropSpaces(s, |s| - |t|);
    if t != [] {
      SplitWordsFront(s);
      var n := Span(t, NotSpace);
      LeadingWord(t);
      TextAfterLeadingWord(t, n);
      SplitWordsText(t[n..]);
      FlattenFront(t[..n], SplitWords(t[n..]));
    }
  }
}
