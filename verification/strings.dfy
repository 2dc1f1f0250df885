/** The few JavaScript string primitives the scraper relies on: `includes`,
    `indexOf`, `replace` with a string pattern, `trim`, and the regular
    expression wildcard `.`, each given an independent characterisation. */
module Strings {
  import opened Wrappers

  /** p is a prefix of s. */
  predicate StartsWith(s: string, p: string) {
    |p| <= |s| && s[..|p|] == p
  }

  /** p is a suffix of s. */
  predicate EndsWith(s: string, p: string) {
    |p| <= |s| && s[|s| - |p|..] == p
  }

  /** p occurs in s starting at position i. */
  predicate OccursAt(s: string, p: string, i: int) {
    0 <= i && i + |p| <= |s| && s[i..i + |p|] == p
  }

  /** Position of the first occurrence of p in s at or after `from`. */
  function IndexFrom(s: string, p: string, from: nat): (r: Option<nat>)
    requires from <= |s|
    ensures r.Some? ==> from <= r.value && OccursAt(s, p, r.value)
    ensures r.Some? ==> forall j :: from <= j < r.value ==> !OccursAt(s, p, j)
    ensures r.None? ==> forall j :: from <= j ==> !OccursAt(s, p, j)
    decreases |s| - from
  {
    if from + |p| > |s| then None
    else if s[from..from + |p|] == p then Some(from)
    else IndexFrom(s, p, from + 1)
  }

  /** JavaScript's `s.indexOf(p)`, with None for -1: the first occurrence. */
  function IndexOf(s: string, p: string): (r: Option<nat>)
    ensures r.Some? ==> OccursAt(s, p, r.value)
    ensures r.Some? ==> forall j :: 0 <= j < r.value ==> !OccursAt(s, p, j)
    ensures r.None? ==> forall j :: !OccursAt(s, p, j)
  {
    IndexFrom(s, p, 0)
  }

  /** JavaScript's `s.includes(p)`: p occurs somewhere in s. */
  function Includes(s: string, p: string): (b: bool)
    ensures b <==> exists i :: OccursAt(s, p, i)
  {
    IndexOf(s, p).Some?
  }

  /** The first occurrence of p in s is at i. */
  predicate FirstAt(s: string, p: string, i: int) {
    OccursAt(s, p, i) && forall j :: 0 <= j < i ==> !OccursAt(s, p, j)
  }

  /** JavaScript's `s.replace(p, t)` for a string pattern p and a replacement t
      without `$` sequences: only the first occurrence of p is replaced, and
      a text without p comes back unchanged. */
  function ReplaceFirst(s: string, p: string, t: string): (r: string)
    ensures forall i :: FirstAt(s, p, i) ==> r == s[..i] + t + s[i + |p|..]
    ensures (forall j :: !OccursAt(s, p, j)) ==> r == s
  {
    match IndexOf(s, p)
    case None => s
    case Some(i) => s[..i] + t + s[i + |p|..]
  }

  /** A single character c occurs in s first at i. */
  lemma FirstCharAt(s: string, c: char, i: nat)
    requires i < |s| && s[i] == c && c !in s[..i]
    ensures FirstAt(s, [c], i)
  {
    forall j | 0 <= j < i ensures !OccursAt(s, [c], j) {
      assert s[..i][j] == s[j];
    }
  }

  /** A character c absent from s never occurs in it. */
  lemma CharAbsent(s: string, c: char)
    requires c !in s
    ensures forall j :: !OccursAt(s, [c], j)
  {
    forall j | 0 <= j < |s| ensures !OccursAt(s, [c], j) {
      assert s[j..j + 1][0] == s[j];
    }
  }

  /** For a one-character pattern, `includes` is plain membership. */
  lemma IncludesChar(s: string, c: char)
    ensures Includes(s, [c]) <==> c in s
  {
    if c in s {
      var i :| 0 <= i < |s| && s[i] == c;
      assert s[i..i + 1] == [c];
      assert OccursAt(s, [c], i);
    } else {
      CharAbsent(s, c);
    }
  }

  /** One copy of c when c occurs in s, none otherwise. */
  function Once(c: char, s: string): (m: multiset<char>)
    ensures m <= multiset(s)
  {
    if c in s then multiset{c} else multiset{}
  }

  /** Replacing the first occurrence of a character c by t removes one c (if
      there is one), adds the characters of t, and leaves every other
      character alone. */
  lemma ReplaceFirstChars(s: string, c: char, t: string)
    ensures c in s ==> multiset(ReplaceFirst(s, [c], t)) == multiset(s) - multiset{c} + multiset(t)
    ensures c !in s ==> ReplaceFirst(s, [c], t) == s
  {
    if c in s {
      var k :| 0 <= k < |s| && s[k] == c;
      var i := FirstIndexOfChar(s, c, k);
      ReplaceFirstCharAt(s, c, t, i);
      SpliceChars(s, t, i);
    } else {
      CharAbsent(s, c);
    }
  }

  /** ReplaceFirstChars, as one equation on bags of characters. */
  lemma ReplaceFirstBag(s: string, c: char, t: string)
    ensures multiset(ReplaceFirst(s, [c], t))
         == multiset(s) - Once(c, s) + (if c in s then multiset(t) else multiset{})
  {
    ReplaceFirstChars(s, c, t);
  }

  /** Replacing the first c leaves the presence of every other character
      unchanged, except for those t brings in. */
  lemma ReplaceFirstKeeps(s: string, c: char, t: string, d: char)
    requires d != c && d !in t
    ensures d in ReplaceFirst(s, [c], t) <==> d in s
  {
    if c in s {
      var k :| 0 <= k < |s| && s[k] == c;
      var i := FirstIndexOfChar(s, c, k);
      ReplaceFirstCharAt(s, c, t, i);
      SpliceKeeps(s, t, i, d);
    } else {
      CharAbsent(s, c);
    }
  }

  /** Replacing the first c by t trades one character for |t| of them, when
      c occurs at all. */
  lemma ReplaceFirstLength(s: string, c: char, t: string)
    ensures |ReplaceFirst(s, [c], t)| == if c in s then |s| - 1 + |t| else |s|
  {
    if c in s {
      var k :| 0 <= k < |s| && s[k] == c;
      var i := FirstIndexOfChar(s, c, k);
      ReplaceFirstCharAt(s, c, t, i);
    } else {
      CharAbsent(s, c);
    }
  }

  /** Splicing t in place of s[i] keeps every other character d that t does not bring in. */
  lemma SpliceKeeps(s: string, t: string, i: nat, d: char)
    requires i < |s| && d != s[i] && d !in t
    ensures d in s[..i] + t + s[i + 1..] <==> d in s
  {
    assert s == s[..i] + [s[i]] + s[i + 1..];
  }

  /** Splicing t in place of s[i] trades that one character for those of t. */
  lemma SpliceChars(s: string, t: string, i: nat)
    requires i < |s|
    ensures multiset(s[..i] + t + s[i + 1..]) == multiset(s) - multiset{s[i]} + multiset(t)
  {
    assert s == s[..i] + [s[i]] + s[i + 1..];
    assert multiset(s) == multiset(s[..i]) + multiset{s[i]} + multiset(s[i + 1..]);
  }

  /** Replacing the first c, known to be at i, splices t in at i. */
  lemma ReplaceFirstCharAt(s: string, c: char, t: string, i: nat)
    requires i < |s| && s[i] == c && c !in s[..i]
    ensures ReplaceFirst(s, [c], t) == s[..i] + t + s[i + 1..]
  {
    FirstCharAt(s, c, i);
  }

  /** The first position of c in s, given that c occurs at or before k. */
  function FirstIndexOfChar(s: string, c: char, k: nat): (i: nat)
    requires k < |s| && s[k] == c
    ensures i <= k && s[i] == c && c !in s[..i]
  {
    if c !in s[..k] then k
    else
      var j :| 0 <= j < k && s[..k][j] == c;
      FirstIndexOfChar(s, c, j)
  }

  /** JavaScript white space and line terminators, the characters `trim` removes. */
  predicate IsJsSpace(c: char) {
    || c in {'\t', '\n', '\U{B}', '\U{C}', '\r', ' ', '\U{A0}', '\U{1680}'}
    || ('\U{2000}' <= c <= '\U{200A}')
    || c in {'\U{2028}', '\U{2029}', '\U{202F}', '\U{205F}', '\U{3000}', '\U{FEFF}'}
  }

  /** The line terminators that the regular-expression wildcard `.` does not match. */
  predicate IsLineTerminator(c: char) {
    c in {'\n', '\r', '\U{2028}', '\U{2029}'}
  }

  /** Number of white-space characters at the start of s. */
  function LeadingSpaces(s: string): (n: nat)
    ensures n <= |s|
    ensures forall k :: 0 <= k < n ==> IsJsSpace(s[k])
    ensures n < |s| ==> !IsJsSpace(s[n])
  {
    if |s| == 0 || !IsJsSpace(s[0]) then 0 else 1 + LeadingSpaces(s[1..])
  }

  /** Number of white-space characters at the end of s. */
  function TrailingSpaces(s: string): (n: nat)
    ensures n <= |s|
    ensures forall k :: |s| - n <= k < |s| ==> IsJsSpace(s[k])
    ensures n < |s| ==> !IsJsSpace(s[|s| - n - 1])
  {
    if |s| == 0 || !IsJsSpace(s[|s| - 1]) then 0 else 1 + TrailingSpaces(s[..|s| - 1])
  }

  /** JavaScript's `s.trim()`: the longest infix of s that neither starts nor
      ends with white space, once all surrounding white space is dropped. */
  function Trim(s: string): (r: string)
    ensures |r| <= |s|
    ensures r == "" || (!IsJsSpace(r[0]) && !IsJsSpace(r[|r| - 1]))
    ensures OccursAt(s, r, LeadingSpaces(s))
    ensures forall k :: 0 <= k < LeadingSpaces(s) ==> IsJsSpace(s[k])
    ensures forall k :: LeadingSpaces(s) + |r| <= k < |s| ==> IsJsSpace(s[k])
  {
    var a := LeadingSpaces(s);
    var u := s[a..];
    var b := TrailingSpaces(u);
    u[..|u| - b]
  }

  /** A string without surrounding white space is left unchanged by `trim`. */
  lemma TrimUnchanged(s: string)
    requires s == "" || (!IsJsSpace(s[0]) && !IsJsSpace(s[|s| - 1]))
    ensures Trim(s) == s
  {
    if s != "" {
      assert LeadingSpaces(s) == 0;
      assert TrailingSpaces(s) == 0;
    }
  }

  /** The longest prefix of s without a line terminator: what the greedy
      regular-expression group `(.*)` captures. */
  function TakeLine(s: string): (r: string)
    ensures StartsWith(s, r)
    ensures forall k :: 0 <= k < |r| ==> !IsLineTerminator(r[k])
    ensures |r| < |s| ==> IsLineTerminator(s[|r|])
  {
    if |s| == 0 || IsLineTerminator(s[0]) then "" else [s[0]] + TakeLine(s[1..])
  }
}
