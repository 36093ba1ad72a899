/** TF-VERIFY control messages (app/collection/verify.py): the search for \bTF-VERIFY-([A-Za-z0-9_-]{8,128})\b. */
module Verify {
  import opened Wrappers
  import opened Hashing

  const MARK := "TF-VERIFY-"

  predicate IsWord(c: char) { 'a' <= c <= 'z' || 'A' <= c <= 'Z' || '0' <= c <= '9' || c == '_' }

  predicate IsToken(c: char) { IsWord(c) || c == '-' }

  // \b
  predicate Boundary(s: string, i: nat)
    requires i <= |s|
  {
    (i > 0 && IsWord(s[i - 1])) != (i < |s| && IsWord(s[i]))
  }

  predicate MatchAt(s: string, i: nat, n: nat) {
    && 8 <= n <= 128
    && i + |MARK| + n <= |s|
    && s[i..i + |MARK|] == MARK
    && Boundary(s, i)
    && (forall k :: i + |MARK| <= k < i + |MARK| + n ==> IsToken(s[k]))
    && Boundary(s, i + |MARK| + n)
  }

  // The greedy repetition, backtracking: the longest match of at most n characters at i, or 0.
  function LongestAt(s: string, i: nat, n: nat): (r: nat)
    ensures r <= n && (r != 0 ==> MatchAt(s, i, r))
    ensures forall m :: r < m <= n ==> !MatchAt(s, i, m)
  {
    if n == 0 then 0
    else if MatchAt(s, i, n) then n
    else LongestAt(s, i, n - 1)
  }

  // re.search from i: the leftmost position with a match, and its length there.
  function Search(s: string, i: nat): (r: Option<(nat, nat)>)
    ensures r.None? ==> forall k, n :: i <= k ==> !MatchAt(s, k, n)
    ensures r.Some? ==> i <= r.value.0 && MatchAt(s, r.value.0, r.value.1)
    ensures r.Some? ==> forall k, n :: i <= k < r.value.0 ==> !MatchAt(s, k, n)
    ensures r.Some? ==> forall n :: r.value.1 < n ==> !MatchAt(s, r.value.0, n)
    decreases |s| - i
  {
    if i >= |s| then None
    else
      var n := LongestAt(s, i, 128);
      if n != 0 then Some((i, n)) else Search(s, i + 1)
  }

  function ParseVerifyNonce(text: Option<string>): (r: Option<string>)
    ensures r.Some? ==> 8 <= |r.value| <= 128 && forall c :: c in r.value ==> IsToken(c)
  {
    if text.None? || text.value == "" then None
    else
      match Search(text.value, 0)
      case None => None
      case Some((i, n)) => Some(text.value[i + |MARK|..i + |MARK| + n])
  }

  function NonceHash(nonce: string): Digest { Sha256(nonce) }

  // What the operator posts to confirm a test.
  function Message(nonce: string): string { MARK + nonce }

  // The posted message is read back as its nonce exactly when the nonce does not end in a hyphen.
  lemma MessageReadBackIff(nonce: string)
    requires 8 <= |nonce| <= 128 && forall c :: c in nonce ==> IsToken(c)
    ensures ParseVerifyNonce(Some(Message(nonce))) == Some(nonce) <==> nonce[|nonce| - 1] != '-'
  {
    var s := Message(nonce);
    assert s[..|MARK|] == MARK && s[|MARK|..] == nonce;
    assert s[0] == 'T' && s[|s| - 1] == nonce[|nonce| - 1];
    assert forall k :: |MARK| <= k < |s| ==> s[k] == nonce[k - |MARK|];
    assert IsToken(nonce[|nonce| - 1]);
    var found := Search(s, 0);
    assert s[|MARK|..|MARK| + |nonce|] == nonce;
    if nonce[|nonce| - 1] != '-' {
      assert s[0..0 + |MARK|] == MARK;
      assert MatchAt(s, 0, |nonce|);
      assert found.Some? && found.value == (0, |nonce|);
    } else {
      assert found.Some? ==> MatchAt(s, found.value.0, found.value.1);
      assert !MatchAt(s, 0, |nonce|);
    }
  }

  // ---------- nonces that end in a hyphen ----------

  // The mark, then n token characters of which the last is a hyphen.
  predicate HyphenAt(s: string, i: nat, n: nat) {
    && 8 <= n <= 128
    && i + |MARK| + n <= |s|
    && s[i..i + |MARK|] == MARK
    && Boundary(s, i)
    && (forall k :: i + |MARK| <= k < i + |MARK| + n ==> IsToken(s[k]))
    && s[i + |MARK| + n - 1] == '-'
  }

  // At least m word characters stand at p.
  predicate WordsAt(s: string, p: nat, m: nat) {
    p + m <= |s| && forall k :: p <= k < p + m ==> IsWord(s[k])
  }

  // Where the word characters from p end, if there are fewer than m.
  lemma WordsEnd(s: string, p: nat, m: nat) returns (j: nat)
    requires p < |s| && IsWord(s[p]) && !WordsAt(s, p, m)
    ensures p < j < p + m && WordsAt(s, p, j - p) && (j == |s| || !IsWord(s[j]))
  {
    j := p;
    while j < |s| && IsWord(s[j])
      invariant p <= j <= |s| && j < p + m && WordsAt(s, p, j - p)
      decreases |s| - j
    {
      assert WordsAt(s, p, j + 1 - p);
      j := j + 1;
    }
  }

  // It is the longest match exactly when word characters follow up to beyond the 128 the pattern takes.
  lemma LongestIff(s: string, i: nat, n: nat)
    requires HyphenAt(s, i, n)
    ensures MatchAt(s, i, n) && (forall m :: n < m ==> !MatchAt(s, i, m)) <==> WordsAt(s, i + |MARK| + n, 129 - n)
  {
    var p := i + |MARK| + n;
    if WordsAt(s, p, 129 - n) {
      assert IsWord(s[p]);
      forall m | n < m
        ensures !MatchAt(s, i, m)
      {
        if m <= 128 { assert IsWord(s[p + (m - n) - 1]) && IsWord(s[p + (m - n)]); }
      }
    } else if MatchAt(s, i, n) {
      assert p < |s| && IsWord(s[p]);
      var j := WordsEnd(s, p, 129 - n);
      assert IsWord(s[j - 1]);
      assert MatchAt(s, i, n + (j - p));
    }
  }

  // No match begins before i.
  ghost predicate FirstAt(s: string, i: nat) { forall k, m :: 0 <= k < i ==> !MatchAt(s, k, m) }

  ghost predicate EndsInHyphen(nonce: string) { nonce != "" && nonce[|nonce| - 1] == '-' }

  // The first match of the text, followed by word characters up to beyond the 128 the pattern takes.
  ghost predicate LongRunAt(text: string, i: nat, n: nat) {
    HyphenAt(text, i, n) && WordsAt(text, i + |MARK| + n, 129 - n) && FirstAt(text, i)
  }

  lemma HyphenNonceHasLongRun(text: string, nonce: string)
    requires ParseVerifyNonce(Some(text)) == Some(nonce) && EndsInHyphen(nonce)
    ensures exists i: nat, n: nat :: LongRunAt(text, i, n)
  {
    hide MatchAt, WordsAt, Boundary;
    var (i, n) := Search(text, 0).value;
    MatchIsHyphenAt(text, i, n);
    LongestIff(text, i, n);
    assert FirstAt(text, i);
    assert LongRunAt(text, i, n);
  }

  lemma MatchIsHyphenAt(s: string, i: nat, n: nat)
    requires MatchAt(s, i, n) && EndsInHyphen(s[i + |MARK|..i + |MARK| + n])
    ensures HyphenAt(s, i, n)
  {
    assert s[i + |MARK|..i + |MARK| + n][n - 1] == s[i + |MARK| + n - 1];
  }

  // A text yields a nonce that ends in a hyphen exactly when such a nonce, at the first match, is followed by word
  // characters up to beyond the 128 the pattern takes.
  lemma HyphenNonceIff(text: string)
    ensures (exists nonce :: ParseVerifyNonce(Some(text)) == Some(nonce) && EndsInHyphen(nonce))
       <==> exists i: nat, n: nat :: LongRunAt(text, i, n)
  {
    hide ParseVerifyNonce, HyphenAt, WordsAt, MatchAt;
    if nonce :| ParseVerifyNonce(Some(text)) == Some(nonce) && EndsInHyphen(nonce) {
      HyphenNonceHasLongRun(text, nonce);
    }
    if i: nat, n: nat :| LongRunAt(text, i, n) {
      LongestIff(text, i, n);
      FoundIs(text, i, n);
      HyphenAtEnds(text, i, n);
    }
  }

  lemma HyphenAtEnds(s: string, i: nat, n: nat)
    requires HyphenAt(s, i, n)
    ensures EndsInHyphen(s[i + |MARK|..i + |MARK| + n])
  {
  }

  lemma FoundIs(text: string, i: nat, n: nat)
    requires MatchAt(text, i, n) && (forall m :: n < m ==> !MatchAt(text, i, m)) && FirstAt(text, i)
    ensures ParseVerifyNonce(Some(text)) == Some(text[i + |MARK|..i + |MARK| + n])
  {
    var found := Search(text, 0);
    assert found == Some((i, n));
  }

  // So a nonce of 32 characters that ends in a hyphen is read back when 97 word characters follow it.
  lemma HyphenReadsBackBeforeWords(nonce: string, rest: string)
    requires 8 <= |nonce| <= 128 && (forall c :: c in nonce ==> IsToken(c)) && nonce[|nonce| - 1] == '-'
    requires WordsAt(rest, 0, 129 - |nonce|)
    ensures ParseVerifyNonce(Some(Message(nonce) + rest)) == Some(nonce)
  {
    var s, n := Message(nonce) + rest, |nonce|;
    assert s[..|MARK|] == MARK && s[|MARK|..|MARK| + n] == nonce && s[|MARK| + n..] == rest;
    assert s[0] == 'T';
    assert forall k :: |MARK| <= k < |MARK| + n ==> s[k] == nonce[k - |MARK|];
    assert forall k :: 0 <= k < |rest| ==> s[|MARK| + n + k] == rest[k];
    assert forall k :: |MARK| + n <= k < |s| ==> s[k] == rest[k - |MARK| - n];
    assert s[0..0 + |MARK|] == MARK;
    assert HyphenAt(s, 0, n);
    assert WordsAt(s, 0 + |MARK| + n, 129 - n);
    LongestIff(s, 0, n);
    FoundIs(s, 0, n);
  }
}
