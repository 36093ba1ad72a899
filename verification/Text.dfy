/** The string operations the source uses: case folding (ASCII), stripping, searching, joining. */
module Text {
  function LowerChar(c: char): char {
    if 'A' <= c <= 'Z' then c - 'A' + 'a' else c
  }

  function Lower(s: string): (r: string)
    ensures |r| == |s| && forall i :: 0 <= i < |s| ==> r[i] == LowerChar(s[i])
  {
    seq(|s|, i requires 0 <= i < |s| => LowerChar(s[i]))
  }

  predicate IsSpace(c: char) {
    c == ' ' || '\t' <= c <= '\r' || '\U{1C}' <= c <= '\U{1F}' || c == '\U{85}' || c == '\U{A0}'
  }

  function StripLeft(s: string): (r: string)
    ensures r == "" || !IsSpace(r[0])
    ensures |r| <= |s|
  {
    if s != "" && IsSpace(s[0]) then StripLeft(s[1..]) else s
  }

  function StripRight(s: string): (r: string)
    ensures r == "" || !IsSpace(r[|r| - 1])
    ensures |r| <= |s| && (r != "" ==> r[0] == s[0])
  {
    if s != "" && IsSpace(s[|s| - 1]) then StripRight(s[..|s| - 1]) else s
  }

  function Strip(s: string): (r: string)
    ensures r == "" || (!IsSpace(r[0]) && !IsSpace(r[|r| - 1]))
    ensures |r| <= |s|
  {
    StripRight(StripLeft(s))
  }

  ghost predicate AllSpace(s: string) { forall i :: 0 <= i < |s| ==> IsSpace(s[i]) }

  lemma {:induction false} StripsLeft(s: string) returns (left: string)
    ensures AllSpace(left) && s == left + StripLeft(s)
  {
    left := "";
    if s != "" && IsSpace(s[0]) {
      left := StripsLeft(s[1..]);
      left := [s[0]] + left;
    }
  }

  lemma {:induction false} StripsRight(s: string) returns (right: string)
    ensures AllSpace(right) && s == StripRight(s) + right
  {
    right := "";
    if s != "" && IsSpace(s[|s| - 1]) {
      right := StripsRight(s[..|s| - 1]);
      right := right + [s[|s| - 1]];
    }
  }

  // Only white space is stripped.
  lemma StripIs(s: string) returns (left: string, right: string)
    ensures AllSpace(left) && AllSpace(right) && s == left + Strip(s) + right
  {
    left := StripsLeft(s);
    right := StripsRight(StripLeft(s));
  }

  // A string with no white space at either end.
  predicate IsStripped(s: string) {
    s == "" || (!IsSpace(s[0]) && !IsSpace(s[|s| - 1]))
  }

  lemma StripOfStripped(s: string)
    requires IsStripped(s)
    ensures Strip(s) == s
  {
  }

  predicate OccursAt(s: string, sub: string, i: int) {
    0 <= i && i + |sub| <= |s| && s[i..i + |sub|] == sub
  }

  /** str.find: the first occurrence at or after `from`, or -1. */
  function Find(s: string, sub: string, from: nat): (r: int)
    ensures r == -1 || (from <= r && OccursAt(s, sub, r))
    ensures forall i :: from <= i && (r == -1 || i < r) ==> !OccursAt(s, sub, i)
    decreases |s| - from
  {
    if from + |sub| > |s| then -1
    else if OccursAt(s, sub, from) then from
    else if from == |s| then -1
    else Find(s, sub, from + 1)
  }

  predicate EndsWith(s: string, t: string) {
    |t| <= |s| && s[|s| - |t|..] == t
  }

  /** The position of the first c in s, or |s|. */
  function IndexOf(s: string, c: char): (i: nat)
    ensures i <= |s| && c !in s[..i]
    ensures i < |s| ==> s[i] == c
    ensures i == |s| <==> c !in s
  {
    if s == "" || s[0] == c then 0 else 1 + IndexOf(s[1..], c)
  }

  // Cutting at the first separator is unambiguous: the left parts hold no separator.
  lemma CutUnique(p: string, x: string, q: string, y: string, c: char)
    requires c !in p && c !in q && p + [c] + x == q + [c] + y
    ensures p == q && x == y
  {
    var s, t := p + [c] + x, q + [c] + y;
    assert s[|p|] == c && forall i :: 0 <= i < |p| ==> s[i] == p[i];
    assert t[|q|] == c && forall i :: 0 <= i < |q| ==> t[i] == q[i];
    assert |p| == |q|;
    assert s[..|p|] == p && t[..|q|] == q && s[|p| + 1..] == x && t[|q| + 1..] == y;
  }

  // Cutting at the last separator, likewise.
  lemma CutLastUnique(x: string, p: string, y: string, q: string, c: char)
    requires c !in p && c !in q && x + [c] + p == y + [c] + q
    ensures x == y && p == q
  {
    var s, t := x + [c] + p, y + [c] + q;
    assert s[|x|] == c && forall i :: |x| < i < |s| ==> s[i] == p[i - |x| - 1];
    assert t[|y|] == c && forall i :: |y| < i < |t| ==> t[i] == q[i - |y| - 1];
    assert |x| == |y|;
    assert s[..|x|] == x && t[..|y|] == y && s[|x| + 1..] == p && t[|y| + 1..] == q;
  }
}
