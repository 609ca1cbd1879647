/** The string operations the site's code uses, with the meaning JavaScript's
    `String.prototype` gives them: `startsWith`, `endsWith`, `includes`,
    `indexOf`, `toLowerCase`, `trim`, `split(sep)[k]` and `replace` of one
    character by another. */
module Strings {
  import opened Wrappers

  /** An optional string that JavaScript treats as true: present and not empty. */
  predicate Truthy(s: Option<string>) {
    s.Some? && s.value != ""
  }

  predicate StartsWith(s: string, p: string) {
    |p| <= |s| && s[..|p|] == p
  }

  predicate EndsWith(s: string, p: string) {
    |p| <= |s| && s[|s| - |p|..] == p
  }

  /** `p` occurs in `s` starting at index `i`. */
  predicate OccursAt(s: string, p: string, i: int) {
    0 <= i && i + |p| <= |s| && s[i..i + |p|] == p
  }

  /** `s.indexOf(p, from)`: the first index at or after `from` where `p` occurs. */
  function IndexOfFrom(s: string, p: string, from: nat): (r: Option<nat>)
    requires from <= |s|
    decreases |s| - from
    ensures r.Some? ==> from <= r.value && OccursAt(s, p, r.value)
    ensures r.Some? ==> forall j :: from <= j < r.value ==> !OccursAt(s, p, j)
    ensures r.None? ==> forall j :: from <= j ==> !OccursAt(s, p, j)
  {
    if OccursAt(s, p, from) then Some(from)
    else if from == |s| then None
    else IndexOfFrom(s, p, from + 1)
  }

  function IndexOf(s: string, p: string): Option<nat> {
    IndexOfFrom(s, p, 0)
  }

  /** `s.includes(p)`. */
  predicate Contains(s: string, p: string) {
    IndexOf(s, p).Some?
  }

  lemma ContainsAt(s: string, p: string, i: int)
    requires OccursAt(s, p, i)
    ensures Contains(s, p)
  {
  }

  /** An occurrence with none before it is the one `indexOf` finds. */
  lemma FirstOccurrence(s: string, p: string, i: nat)
    requires OccursAt(s, p, i)
    requires forall j :: 0 <= j < i ==> !OccursAt(s, p, j)
    ensures IndexOf(s, p) == Some(i)
  {
  }

  /** A text that lacks a character of `p` does not contain `p`. */
  lemma MissingChar(s: string, p: string, k: nat)
    requires k < |p|
    requires forall j :: 0 <= j < |s| ==> s[j] != p[k]
    ensures !Contains(s, p)
  {
    forall i | 0 <= i
      ensures !OccursAt(s, p, i)
    {
      if i + |p| <= |s| {
        assert s[i..i + |p|][k] == s[i + k] != p[k];
      }
    }
  }

  function LowerChar(c: char): char {
    if 'A' <= c <= 'Z' then (c as int + 32) as char else c
  }

  /** `s.toLowerCase()` on the ASCII letters; every other character is kept. */
  function ToLower(s: string): string {
    seq(|s|, i requires 0 <= i < |s| => LowerChar(s[i]))
  }

  /** The characters `trim()` removes: WhiteSpace and LineTerminator of ECMA-262. */
  predicate IsWhiteSpace(c: char) {
    || c == '\t' || c == '\n' || c == '\U{B}' || c == '\U{C}' || c == '\r' || c == ' '
    || c == '\U{A0}' || c == '\U{1680}' || ('\U{2000}' <= c <= '\U{200A}')
    || c == '\U{2028}' || c == '\U{2029}' || c == '\U{202F}' || c == '\U{205F}'
    || c == '\U{3000}' || c == '\U{FEFF}'
  }

  /** `s.trimStart()`: the longest suffix of `s` that does not start with white space. */
  function TrimStart(s: string): (r: string)
    ensures |r| <= |s| && r == s[|s| - |r|..]
    ensures forall i :: 0 <= i < |s| - |r| ==> IsWhiteSpace(s[i])
    ensures r == [] || !IsWhiteSpace(r[0])
  {
    if s != [] && IsWhiteSpace(s[0]) then TrimStart(s[1..]) else s
  }

  /** `s.trimEnd()`: the longest prefix of `s` that does not end with white space. */
  function TrimEnd(s: string): (r: string)
    ensures |r| <= |s| && r == s[..|r|]
    ensures forall i :: |r| <= i < |s| ==> IsWhiteSpace(s[i])
    ensures r == [] || !IsWhiteSpace(r[|r| - 1])
  {
    if s != [] && IsWhiteSpace(s[|s| - 1]) then TrimEnd(s[..|s| - 1]) else s
  }

  /** `s.trim()`. */
  function Trim(s: string): string {
    TrimEnd(TrimStart(s))
  }

  /** The longest prefix of `s` whose characters all satisfy `p`: what a greedy
      regular-expression repetition of a character class reads. */
  function TakeWhile(s: string, p: char -> bool): (r: string)
    ensures StartsWith(s, r)
    ensures forall i :: 0 <= i < |r| ==> p(r[i])
    ensures |r| == |s| || !p(s[|r|])
  {
    if s != [] && p(s[0]) then [s[0]] + TakeWhile(s[1..], p) else []
  }

  lemma {:induction false} TakeWhileOfRun(run: string, rest: string, p: char -> bool)
    requires forall k :: 0 <= k < |run| ==> p(run[k])
    requires rest == [] || !p(rest[0])
    ensures TakeWhile(run + rest, p) == run
  {
    if run != [] {
      assert (run + rest)[1..] == run[1..] + rest;
      TakeWhileOfRun(run[1..], rest, p);
    }
  }

  /** `s.split(sep)[0]`: the text before the first `sep`, or all of `s`. */
  function SplitFirst(s: string, sep: string): (r: string)
    requires sep != []
    ensures StartsWith(s, r)
    ensures r == s || OccursAt(s, sep, |r|)
    ensures forall j :: 0 <= j && j + |sep| <= |r| ==> !OccursAt(s, sep, j)
  {
    match IndexOf(s, sep)
    case Some(i) => s[..i]
    case None => s
  }

  /** `s.split(sep)[1]`: the text between the first and the second `sep`
      (or the end); `None` (JavaScript's `undefined`) when `sep` does not occur. */
  function SplitSecond(s: string, sep: string): Option<string>
    requires sep != []
  {
    match IndexOf(s, sep)
    case Some(i) => Some(SplitFirst(s[i + |sep|..], sep))
    case None => None
  }

  /** `s.replace(/x/g, y)` for single characters `x` and `y`. */
  function ReplaceAll(s: string, x: char, y: char): string {
    seq(|s|, i requires 0 <= i < |s| => if s[i] == x then y else s[i])
  }

  lemma ReplaceAllRemoves(s: string, x: char, y: char)
    requires x != y
    ensures x !in ReplaceAll(s, x, y)
  {
    var r := ReplaceAll(s, x, y);
    forall i | 0 <= i < |r|
      ensures r[i] != x
    {
    }
  }

  lemma ReplaceAllAbsent(s: string, x: char, y: char)
    requires x !in s
    ensures ReplaceAll(s, x, y) == s
  {
  }
}
