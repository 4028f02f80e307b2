/**
 * The Python string built-ins the pipeline relies on, over ASCII: `str.lower`, the `in` substring
 * test, `str.split()` without arguments, `str.strip` (with and without a character argument) and
 * `str.join`.
 */
module Strings {

  /** The ASCII characters Python's `str.isspace` accepts: tab to carriage return, the four
      information separators 0x1C-0x1F, and space. */
  predicate IsWhitespace(c: char) {
    ('\t' <= c <= '\r') || ('\U{1C}' <= c <= '\U{1F}') || c == ' '
  }

  /** The same characters as a set, for the argument-less `strip()`. */
  const Whitespace: set<char> := set c: char | '\t' <= c <= ' ' && IsWhitespace(c)

  predicate NoWhitespace(s: string) {
    forall k :: 0 <= k < |s| ==> !IsWhitespace(s[k])
  }

  // ---------------------------------------------------------------------------------------------
  // Lowercasing

  function LowerChar(c: char): char {
    if 'A' <= c <= 'Z' then (c as int + 32) as char else c
  }

  predicate IsUpper(c: char) {
    'A' <= c <= 'Z'
  }

  /** `str.lower()` restricted to ASCII letters: no upper-case letter is left, each upper-case
      letter becomes its lower-case partner, and every other character stays as it is. */
  function Lower(s: string): (r: string)
    ensures |r| == |s|
    ensures forall k :: 0 <= k < |r| ==> !IsUpper(r[k])
    ensures forall k :: 0 <= k < |s| && IsUpper(s[k]) ==> r[k] as int == s[k] as int + ('a' as int - 'A' as int)
    ensures forall k :: 0 <= k < |s| && !IsUpper(s[k]) ==> r[k] == s[k]
  {
    seq(|s|, k requires 0 <= k < |s| => LowerChar(s[k]))
  }

  /** Lowercasing works character by character, so it distributes over concatenation. */
  lemma LowerAppend(a: string, b: string)
    ensures Lower(a + b) == Lower(a) + Lower(b)
  {
    var l, r := Lower(a + b), Lower(a) + Lower(b);
    forall k | 0 <= k < |l| ensures l[k] == r[k] {
      if k < |a| {
        assert (a + b)[k] == a[k];
      } else {
        assert (a + b)[k] == b[k - |a|];
      }
    }
  }

  /** Lowercasing twice is lowercasing once. */
  lemma LowerIdempotent(s: string)
    ensures Lower(Lower(s)) == Lower(s)
  {
  }

  // ---------------------------------------------------------------------------------------------
  // Substring containment

  /** `sub` starts at position `i` of `s`. */
  predicate OccursAt(s: string, sub: string, i: int) {
    0 <= i && i + |sub| <= |s| && s[i..i + |sub|] == sub
  }

  /** Python's `sub in s`: compare `sub` with each prefix of the successive suffixes of `s`. */
  function Contains(s: string, sub: string): bool
    decreases |s|
  {
    if |sub| > |s| then false
    else if s[..|sub|] == sub then true
    else Contains(s[1..], sub)
  }

  lemma {:induction false} OccursAtShift(s: string, sub: string, j: int)
    requires s != [] && 0 <= j
    ensures OccursAt(s[1..], sub, j) <==> OccursAt(s, sub, j + 1)
  {
    if 0 <= j && j + |sub| <= |s| - 1 {
      assert s[1..][j..j + |sub|] == s[j + 1..j + 1 + |sub|];
    }
  }

  /** `Contains` finds a substring exactly when it occurs at some position. */
  lemma {:induction false} ContainsIff(s: string, sub: string)
    ensures Contains(s, sub) <==> exists i :: OccursAt(s, sub, i)
    decreases |s|
  {
    if |sub| > |s| {
    } else if s[..|sub|] == sub {
      assert OccursAt(s, sub, 0);
    } else {
      ContainsIff(s[1..], sub);
      if Contains(s[1..], sub) {
        var j :| OccursAt(s[1..], sub, j);
        assert 0 <= j;
        OccursAtShift(s, sub, j);
      } else if i :| OccursAt(s, sub, i) {
        assert i != 0;
        OccursAtShift(s, sub, i - 1);
        assert false;
      }
    }
  }

  /** A piece of a piece of `s` is a piece of `s`. */
  lemma OccursAtTransitive(s: string, t: string, u: string, i: int, j: int)
    requires OccursAt(s, t, i) && OccursAt(t, u, j)
    ensures OccursAt(s, u, i + j)
  {
    forall k | 0 <= k < |u| ensures s[i + j + k] == u[k] {
      assert s[i..i + |t|][j + k] == t[j + k];
      assert t[j..j + |u|][k] == u[k];
    }
    assert s[i + j..i + j + |u|] == u;
  }

  // ---------------------------------------------------------------------------------------------
  // Splitting on whitespace

  /** Length of the run of non-whitespace characters at the front of `s`. */
  function WordLength(s: string): (n: nat)
    ensures n <= |s|
    ensures forall k :: 0 <= k < n ==> !IsWhitespace(s[k])
    ensures n < |s| ==> IsWhitespace(s[n])
  {
    if s == [] || IsWhitespace(s[0]) then 0 else 1 + WordLength(s[1..])
  }

  /** The characters of `s` that are not whitespace, in order. */
  function RemoveWhitespace(s: string): string {
    if s == [] then [] else (if IsWhitespace(s[0]) then [] else [s[0]]) + RemoveWhitespace(s[1..])
  }

  /** The number of places a word starts in `s`, scanning left to right: a character that is not
      whitespace and is either the first one (`afterSpace` holds initially) or follows whitespace. */
  function CountWordStarts(s: string, afterSpace: bool): nat {
    if s == [] then 0
    else (if afterSpace && !IsWhitespace(s[0]) then 1 else 0) + CountWordStarts(s[1..], IsWhitespace(s[0]))
  }

  function WordStarts(s: string): nat {
    CountWordStarts(s, true)
  }

  /** The tokens laid end to end. */
  function Concat(tokens: seq<string>): string {
    if tokens == [] then [] else tokens[0] + Concat(tokens[1..])
  }

  /** `str.split()` with no separator: maximal runs of non-whitespace characters, in order. The
      tokens are non-empty and free of whitespace, together they hold exactly the non-whitespace
      characters of `s`, and there is one per word start, so leading, trailing and repeated
      whitespace of any kind produce no empty tokens. */
  function Split(s: string): (tokens: seq<string>)
    ensures forall k :: 0 <= k < |tokens| ==> tokens[k] != [] && NoWhitespace(tokens[k])
    ensures Concat(tokens) == RemoveWhitespace(s)
    ensures |tokens| == WordStarts(s)
    decreases |s|
  {
    if s == [] then []
    else if IsWhitespace(s[0]) then Split(s[1..])
    else
      var n := WordLength(s);
      var rest := Split(s[n..]);
      WordInsideCounts(s, n);
      RemoveWhitespaceOfWord(s, n);
      assert ([s[..n]] + rest)[1..] == rest;
      [s[..n]] + rest
  }

  /** Inside a word no new word starts: the count continues as from the word's end. */
  lemma {:induction false} WordInsideCounts(s: string, n: nat)
    requires n == WordLength(s) && n > 0
    ensures CountWordStarts(s, true) == 1 + CountWordStarts(s[n..], true)
    decreases |s|
  {
    WordTailCounts(s[1..], n - 1);
    assert s[1..][n - 1..] == s[n..];
    AfterWordCounts(s[n..]);
  }

  lemma {:induction false} WordTailCounts(s: string, m: nat)
    requires m == WordLength(s)
    ensures CountWordStarts(s, false) == CountWordStarts(s[m..], false)
    decreases |s|
  {
    if m > 0 {
      WordTailCounts(s[1..], m - 1);
      assert s[1..][m - 1..] == s[m..];
    }
  }

  /** Where a word ends the next character is whitespace, if any, so the scan state does not
      matter there. */
  lemma AfterWordCounts(s: string)
    requires s == [] || IsWhitespace(s[0])
    ensures CountWordStarts(s, false) == CountWordStarts(s, true)
  {
  }

  /** A word keeps all its characters: they come first among the non-whitespace ones. */
  lemma {:induction false} RemoveWhitespaceOfWord(s: string, m: nat)
    requires m <= WordLength(s)
    ensures RemoveWhitespace(s) == s[..m] + RemoveWhitespace(s[m..])
    decreases m
  {
    if m > 0 {
      RemoveWhitespaceOfWord(s[1..], m - 1);
      assert s[1..][m - 1..] == s[m..];
      assert s[..m] == [s[0]] + s[1..][..m - 1];
    }
  }

  /** Words joined by single spaces (the inverse direction of `Split`). */
  function JoinWords(words: seq<string>): string {
    Join(" ", words)
  }

  lemma {:induction false} WordLengthOfWord(w: string, rest: string)
    requires NoWhitespace(w)
    requires rest == [] || IsWhitespace(rest[0])
    ensures WordLength(w + rest) == |w|
  {
    if w != [] {
      assert (w + rest)[0] == w[0];
      assert (w + rest)[1..] == w[1..] + rest;
      WordLengthOfWord(w[1..], rest);
    } else {
      assert w + rest == rest;
    }
  }

  /** Splitting words joined by single spaces gives the words back. */
  lemma {:induction false} SplitJoinWords(words: seq<string>)
    requires forall k :: 0 <= k < |words| ==> words[k] != [] && NoWhitespace(words[k])
    ensures Split(JoinWords(words)) == words
  {
    if words == [] {
    } else if |words| == 1 {
      var w := words[0];
      WordLengthOfWord(w, []);
      assert w + [] == w;
      assert w[|w|..] == [];
    } else {
      var w, tail := words[0], JoinWords(words[1..]);
      var s := w + " " + tail;
      WordLengthOfWord(w, " " + tail);
      assert s == w + (" " + tail);
      assert s[..|w|] == w;
      assert s[|w|..] == " " + tail;
      assert (" " + tail)[1..] == tail;
      SplitJoinWords(words[1..]);
    }
  }

  // ---------------------------------------------------------------------------------------------
  // Stripping

  /** Number of leading characters of `s` that are in `cs`. */
  function LeadingIn(s: string, cs: set<char>): (n: nat)
    ensures n <= |s|
    ensures forall k :: 0 <= k < n ==> s[k] in cs
    ensures n < |s| ==> s[n] !in cs
  {
    if s != [] && s[0] in cs then 1 + LeadingIn(s[1..], cs) else 0
  }

  /** Number of trailing characters of `s` that are in `cs`. */
  function TrailingIn(s: string, cs: set<char>): (n: nat)
    ensures n <= |s|
    ensures forall k :: |s| - n <= k < |s| ==> s[k] in cs
    ensures n < |s| ==> s[|s| - 1 - n] !in cs
  {
    if s != [] && s[|s| - 1] in cs then 1 + TrailingIn(s[..|s| - 1], cs) else 0
  }

  /** Python's `strip(cs)`: drop every leading, then every trailing character that is in `cs`.
      The result is the piece of `s` from the first to the last character not in `cs`. */
  function Strip(s: string, cs: set<char>): (r: string)
    ensures OccursAt(s, r, LeadingIn(s, cs))
    ensures r != [] ==> r[0] !in cs && r[|r| - 1] !in cs
    ensures r == [] ==> forall k :: 0 <= k < |s| ==> s[k] in cs
  {
    var start := LeadingIn(s, cs);
    var end := StripEnd(s, cs);
    StripBounds(s, cs, start, end);
    s[start..end]
  }

  /** `Strip` keeps exactly the slice from the first to the last character outside `cs`. */
  lemma StripBetween(s: string, cs: set<char>, a: nat, b: nat)
    requires a < b <= |s|
    requires forall k :: 0 <= k < a ==> s[k] in cs
    requires forall k :: b <= k < |s| ==> s[k] in cs
    requires s[a] !in cs && s[b - 1] !in cs
    ensures Strip(s, cs) == s[a..b]
  {
    var start := LeadingIn(s, cs);
    assert start == a;
    assert StripEnd(s, cs) == b;
  }

  /** A string that starts and ends outside `cs` is left as it is. */
  lemma StripUntouched(s: string, cs: set<char>)
    requires s != [] && s[0] !in cs && s[|s| - 1] !in cs
    ensures Strip(s, cs) == s
  {
    StripBetween(s, cs, 0, |s|);
    assert s[0..|s|] == s;
  }

  /** Stripping a body framed by characters of `cs` gives the body back, when the body itself
      starts and ends outside `cs`. */
  lemma StripFramed(p: string, body: string, q: string, cs: set<char>)
    requires forall k :: 0 <= k < |p| ==> p[k] in cs
    requires forall k :: 0 <= k < |q| ==> q[k] in cs
    requires body != [] && body[0] !in cs && body[|body| - 1] !in cs
    ensures Strip(p + body + q, cs) == body
  {
    var s := p + body + q;
    assert forall k :: 0 <= k < |p| ==> s[k] == p[k];
    assert forall k :: |p| + |body| <= k < |s| ==> s[k] == q[k - |p| - |body|];
    assert s[|p|] == body[0] && s[|p| + |body| - 1] == body[|body| - 1];
    StripBetween(s, cs, |p|, |p| + |body|);
    MiddleOf(p, body, q);
  }

  lemma MiddleOf<T>(p: seq<T>, t: seq<T>, q: seq<T>)
    ensures (p + t + q)[|p|..|p| + |t|] == t
  {
    var s := p + t + q;
    assert forall k :: 0 <= k < |t| ==> s[|p| + k] == t[k];
  }

  /** Three strips in a row still leave a piece of the original. */
  lemma StripThriceIsPiece(s: string, cs1: set<char>, cs2: set<char>, cs3: set<char>)
    ensures exists i :: OccursAt(s, Strip(Strip(Strip(s, cs1), cs2), cs3), i)
  {
    var s1 := Strip(s, cs1);
    var s2 := Strip(s1, cs2);
    OccursAtTransitive3(s, s1, s2, Strip(s2, cs3), LeadingIn(s, cs1), LeadingIn(s1, cs2), LeadingIn(s2, cs3));
  }

  lemma OccursAtTransitive3(s: string, t: string, u: string, v: string, i: int, j: int, k: int)
    requires OccursAt(s, t, i) && OccursAt(t, u, j) && OccursAt(u, v, k)
    ensures OccursAt(s, v, i + j + k)
  {
    OccursAtTransitive(s, t, u, i, j);
    OccursAtTransitive(s, u, v, i + j, k);
  }

  /** One past the last position `Strip` keeps. */
  function StripEnd(s: string, cs: set<char>): int {
    |s| - TrailingIn(s[LeadingIn(s, cs)..], cs)
  }

  /** The cut points of `Strip`: in order, on characters outside `cs`, or meeting when every
      character is in `cs`. */
  lemma StripBounds(s: string, cs: set<char>, start: nat, end: int)
    requires start == LeadingIn(s, cs) && end == |s| - TrailingIn(s[start..], cs)
    ensures start <= end <= |s|
    ensures start < end ==> s[start] !in cs && s[end - 1] !in cs
    ensures start == end ==> forall k :: 0 <= k < |s| ==> s[k] in cs
  {
    var rest := s[start..];
    var trailing := TrailingIn(rest, cs);
    assert start < |s| ==> rest[0] == s[start];
    if start < end {
      assert s[end - 1] == rest[|rest| - 1 - trailing];
    }
  }

  // ---------------------------------------------------------------------------------------------
  // Joining

  /** Python's `sep.join(parts)`. */
  function Join(sep: string, parts: seq<string>): string {
    if parts == [] then []
    else if |parts| == 1 then parts[0]
    else parts[0] + sep + Join(sep, parts[1..])
  }

  /** Joining is built up one part at a time, as an appending loop does. */
  lemma {:induction false} JoinAppend(sep: string, parts: seq<string>, p: string)
    requires parts != []
    ensures Join(sep, parts + [p]) == Join(sep, parts) + sep + p
  {
    if |parts| == 1 {
      assert parts + [p] == [parts[0], p];
    } else {
      assert (parts + [p])[1..] == parts[1..] + [p];
      JoinAppend(sep, parts[1..], p);
    }
  }

  /** The length of a join: all parts plus one separator between each two. */
  lemma {:induction false} JoinLength(sep: string, parts: seq<string>)
    requires parts != []
    ensures |Join(sep, parts)| == SumLengths(parts) + (|parts| - 1) * |sep|
  {
    if |parts| > 1 {
      JoinLength(sep, parts[1..]);
    }
  }

  function SumLengths(parts: seq<string>): nat {
    if parts == [] then 0 else |parts[0]| + SumLengths(parts[1..])
  }
}
