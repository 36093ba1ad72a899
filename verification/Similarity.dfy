/**
 Edit distance and similarity ratio (app/brand/similarity.py).

 `DistAt(a, b, i, j)` is the textbook recursion for the distance between the
 i-prefix of a and the j-prefix of b.  The two-row programme is proved to
 compute it, and it is proved to be a metric and to be the length of a shortest
 chain of single-character edits.
 */
module Similarity {
  import opened Numbers

  function Mismatch(c: char, d: char): nat { if c == d then 0 else 1 }

  function DistAt(a: string, b: string, i: nat, j: nat): (d: nat)
    requires i <= |a| && j <= |b|
    ensures (i == 0 ==> d == j) && (j == 0 ==> d == i)
    decreases i + j
  {
    if i == 0 then j
    else if j == 0 then i
    else
      Min(Min(DistAt(a, b, i - 1, j) + 1, DistAt(a, b, i, j - 1) + 1),
          DistAt(a, b, i - 1, j - 1) + Mismatch(a[i - 1], b[j - 1]))
  }

  function Dist(a: string, b: string): nat { DistAt(a, b, |a|, |b|) }

  // The inner cell of the table, and what it says about the three cells before it.
  lemma Steps(a: string, b: string, i: nat, j: nat)
    requires 0 < i <= |a| && 0 < j <= |b|
    ensures DistAt(a, b, i, j)
         == Min(Min(DistAt(a, b, i - 1, j) + 1, DistAt(a, b, i, j - 1) + 1),
                DistAt(a, b, i - 1, j - 1) + Mismatch(a[i - 1], b[j - 1]))
  {
  }

  method Levenshtein(a: string, b: string) returns (d: int)
    ensures d == Dist(a, b)
  {
    hide DistAt;
    if a == b {
      ZeroIffEqual(a, b, |a|, |b|);
      return 0;
    }
    if a == "" { return |b|; }
    if b == "" { return |a|; }
    var prev: seq<int> := seq(|b| + 1, j => j);
    for i := 0 to |a|
      invariant |prev| == |b| + 1
      invariant forall j :: 0 <= j <= |b| ==> prev[j] == DistAt(a, b, i, j)
    {
      var cur := [i + 1];
      for j := 0 to |b|
        invariant |cur| == j + 1
        invariant forall k :: 0 <= k <= j ==> cur[k] == DistAt(a, b, i + 1, k)
      {
        Steps(a, b, i + 1, j + 1);
        cur := cur + [Min(Min(prev[j + 1] + 1, cur[j] + 1), prev[j] + Mismatch(a[i], b[j]))];
      }
      prev := cur;
    }
    return prev[|prev| - 1];
  }

  // ---------- metric ----------

  lemma {:induction false} BoundsAt(a: string, b: string, i: nat, j: nat)
    requires i <= |a| && j <= |b|
    ensures Max(i, j) - Min(i, j) <= DistAt(a, b, i, j) <= Max(i, j)
    decreases i + j
  {
    hide DistAt;
    if i != 0 && j != 0 {
      Steps(a, b, i, j);
      BoundsAt(a, b, i - 1, j);
      BoundsAt(a, b, i, j - 1);
      BoundsAt(a, b, i - 1, j - 1);
    }
  }

  lemma {:induction false} ZeroIffEqual(a: string, b: string, i: nat, j: nat)
    requires i <= |a| && j <= |b|
    ensures DistAt(a, b, i, j) == 0 <==> a[..i] == b[..j]
    decreases i + j
  {
    hide DistAt;
    if i != 0 && j != 0 {
      Steps(a, b, i, j);
      ZeroIffEqual(a, b, i - 1, j - 1);
      assert a[..i] == a[..i - 1] + [a[i - 1]] && b[..j] == b[..j - 1] + [b[j - 1]];
    }
  }

  lemma {:induction false} SymmetricAt(a: string, b: string, i: nat, j: nat)
    requires i <= |a| && j <= |b|
    ensures DistAt(a, b, i, j) == DistAt(b, a, j, i)
    decreases i + j
  {
    hide DistAt;
    if i != 0 && j != 0 {
      Steps(a, b, i, j);
      Steps(b, a, j, i);
      SymmetricAt(a, b, i - 1, j);
      SymmetricAt(a, b, i, j - 1);
      SymmetricAt(a, b, i - 1, j - 1);
    }
  }

  lemma {:induction false} TriangleAt(a: string, b: string, c: string, i: nat, j: nat, k: nat)
    requires i <= |a| && j <= |b| && k <= |c|
    ensures DistAt(a, c, i, k) <= DistAt(a, b, i, j) + DistAt(b, c, j, k)
    decreases i + j + k
  {
    hide DistAt;
    if i == 0 || j == 0 || k == 0 {
      BoundsAt(a, b, i, j);
      BoundsAt(b, c, j, k);
      BoundsAt(a, c, i, k);
    } else {
      Steps(a, b, i, j);
      Steps(b, c, j, k);
      Steps(a, c, i, k);
      if DistAt(a, b, i, j) == DistAt(a, b, i - 1, j) + 1 {
        TriangleAt(a, b, c, i - 1, j, k);
      } else if DistAt(b, c, j, k) == DistAt(b, c, j, k - 1) + 1 {
        TriangleAt(a, b, c, i, j, k - 1);
      } else if DistAt(a, b, i, j) == DistAt(a, b, i, j - 1) + 1 {
        if DistAt(b, c, j, k) == DistAt(b, c, j - 1, k) + 1 {
          TriangleAt(a, b, c, i, j - 1, k);
        } else {
          TriangleAt(a, b, c, i, j - 1, k - 1);
        }
      } else if DistAt(b, c, j, k) == DistAt(b, c, j - 1, k) + 1 {
        TriangleAt(a, b, c, i - 1, j - 1, k);
      } else {
        TriangleAt(a, b, c, i - 1, j - 1, k - 1);
      }
    }
  }

  // Zero exactly on equal strings, symmetric, triangle inequality, between the length gap and the longer length.
  lemma Metric(a: string, b: string, c: string)
    ensures Dist(a, b) == 0 <==> a == b
    ensures Dist(a, b) == Dist(b, a)
    ensures Dist(a, c) <= Dist(a, b) + Dist(b, c)
    ensures Max(|a|, |b|) - Min(|a|, |b|) <= Dist(a, b) <= Max(|a|, |b|)
  {
    ZeroIffEqual(a, b, |a|, |b|);
    assert a[..|a|] == a && b[..|b|] == b;
    SymmetricAt(a, b, |a|, |b|);
    TriangleAt(a, b, c, |a|, |b|, |c|);
    BoundsAt(a, b, |a|, |b|);
  }

  // ---------- common prefixes and suffixes ----------

  // The distance of two prefixes depends on nothing else.
  lemma {:induction false} PrefixesDecide(a: string, b: string, c: string, d: string, i: nat, j: nat)
    requires i <= |a| && j <= |b| && i <= |c| && j <= |d|
    requires (forall m :: 0 <= m < i ==> a[m] == c[m]) && forall m :: 0 <= m < j ==> b[m] == d[m]
    ensures DistAt(a, b, i, j) == DistAt(c, d, i, j)
    decreases i + j
  {
    hide DistAt;
    if i != 0 && j != 0 {
      Steps(a, b, i, j);
      Steps(c, d, i, j);
      PrefixesDecide(a, b, c, d, i - 1, j);
      PrefixesDecide(a, b, c, d, i, j - 1);
      PrefixesDecide(a, b, c, d, i - 1, j - 1);
    }
  }

  lemma {:induction false} OwnPrefix(a: string, i: nat, j: nat)
    requires i <= j <= |a|
    ensures DistAt(a, a, i, j) <= j - i
    decreases j
  {
    hide DistAt;
    if i == j {
      ZeroIffEqual(a, a, i, i);
    } else if i != 0 {
      Steps(a, a, i, j);
      OwnPrefix(a, i, j - 1);
    }
  }

  // Dropping the last character of one side moves the distance by at most one.
  lemma DropLast(a: string, b: string, i: nat, j: nat)
    requires i <= |a| && 0 < j <= |b|
    ensures DistAt(a, b, i, j - 1) <= DistAt(a, b, i, j) + 1
    ensures DistAt(b, a, j - 1, i) <= DistAt(b, a, j, i) + 1
  {
    OwnPrefix(b, j - 1, j);
    SymmetricAt(b, b, j - 1, j);
    TriangleAt(a, b, b, i, j, j - 1);
    TriangleAt(b, b, a, j - 1, j, i);
  }

  lemma {:induction false} SameTail(a: string, b: string, i: nat, j: nat, n: nat)
    requires i + n <= |a| && j + n <= |b|
    requires a[i..i + n] == b[j..j + n]
    ensures DistAt(a, b, i + n, j + n) == DistAt(a, b, i, j)
    decreases n
  {
    hide DistAt;
    if n != 0 {
      assert a[i..i + n - 1] == a[i..i + n][..n - 1] && b[j..j + n - 1] == b[j..j + n][..n - 1];
      assert a[i..i + n][n - 1] == b[j..j + n][n - 1];
      SameTail(a, b, i, j, n - 1);
      Steps(a, b, i + n, j + n);
      DropLast(a, b, i + n - 1, j + n);
      DropLast(b, a, j + n - 1, i + n);
    }
  }

  // Removing an equal suffix changes nothing.
  lemma SameSuffix(x: string, y: string, s: string)
    ensures Dist(x + s, y + s) == Dist(x, y)
  {
    SameTail(x + s, y + s, |x|, |y|, |s|);
    PrefixesDecide(x + s, y + s, x, y, |x|, |y|);
  }

  lemma {:induction false} SamePrefixAt(p: string, x: string, y: string, i: nat, j: nat)
    requires i <= |x| && j <= |y|
    ensures DistAt(p + x, p + y, |p| + i, |p| + j) <= DistAt(x, y, i, j)
    decreases i + j
  {
    hide DistAt;
    var px, py := p + x, p + y;
    if i == 0 || j == 0 {
      OwnPrefix(px, |p|, |p| + i);
      OwnPrefix(py, |p|, |p| + j);
      SymmetricAt(px, px, |p|, |p| + i);
      PrefixesDecide(px, px, px, py, |p| + i, |p|);
      PrefixesDecide(py, py, px, py, |p|, |p| + j);
    } else {
      assert px[|p| + i - 1] == x[i - 1] && py[|p| + j - 1] == y[j - 1];
      Steps(x, y, i, j);
      Steps(px, py, |p| + i, |p| + j);
      if DistAt(x, y, i, j) == DistAt(x, y, i - 1, j) + 1 {
        SamePrefixAt(p, x, y, i - 1, j);
      } else if DistAt(x, y, i, j) == DistAt(x, y, i, j - 1) + 1 {
        SamePrefixAt(p, x, y, i, j - 1);
      } else {
        SamePrefixAt(p, x, y, i - 1, j - 1);
      }
    }
  }

  // Replacing one factor by another costs at most the longer of the two.
  lemma FactorReplacement(p: string, x: string, y: string, s: string)
    ensures Dist(p + x + s, p + y + s) <= Max(|x|, |y|)
  {
    BoundsAt(x, y, |x|, |y|);
    SamePrefixAt(p, x, y, |x|, |y|);
    SameSuffix(p + x, p + y, s);
  }

  // ---------- Dist is the least number of single-character edits ----------

  // t is s with s[i..i+m] replaced by r, where at most one character goes and at most one comes.
  predicate EditAt(s: string, t: string, i: nat, m: nat, r: string) {
    i + m <= |s| && m <= 1 && |r| <= 1 && t == s[..i] + r + s[i + m..]
  }

  ghost predicate OneEdit(s: string, t: string) {
    exists i: nat, m: nat, r: string :: EditAt(s, t, i, m, r)
  }

  // A chain of strings from a to b, each obtained from the one before by one edit.
  ghost predicate EditChain(chain: seq<string>, a: string, b: string) {
    && |chain| > 0 && chain[0] == a && chain[|chain| - 1] == b
    && forall k :: 0 <= k < |chain| - 1 ==> OneEdit(chain[k], chain[k + 1])
  }

  lemma OneEditIsNear(s: string, t: string)
    requires OneEdit(s, t)
    ensures Dist(s, t) <= 1
  {
    var i: nat, m: nat, r :| EditAt(s, t, i, m, r);
    FactorReplacement(s[..i], s[i..i + m], r, s[i + m..]);
    assert s == s[..i] + s[i..i + m] + s[i + m..];
  }

  // No chain of edits is shorter than the distance ...
  lemma {:induction false} ChainAtLeastDist(chain: seq<string>, a: string, b: string)
    requires EditChain(chain, a, b)
    ensures Dist(a, b) <= |chain| - 1
    decreases |chain|
  {
    if |chain| == 1 {
      Metric(a, b, b);
    } else {
      var rest := chain[1..];
      forall k | 0 <= k < |rest| - 1
        ensures OneEdit(rest[k], rest[k + 1])
      {
        assert OneEdit(chain[k + 1], chain[k + 1 + 1]);
      }
      ChainAtLeastDist(rest, chain[1], b);
      assert OneEdit(chain[0], chain[0 + 1]);
      OneEditIsNear(a, chain[1]);
      Metric(a, chain[1], b);
    }
  }

  lemma OneEditThenSuffix(s: string, t: string, z: string)
    requires OneEdit(s, t)
    ensures OneEdit(s + z, t + z)
  {
    var i: nat, m: nat, r :| EditAt(s, t, i, m, r);
    var sz := s + z;
    assert sz[..i] == s[..i] && sz[i + m..] == s[i + m..] + z;
    assert t + z == s[..i] + r + (s[i + m..] + z);
    assert EditAt(sz, t + z, i, m, r);
  }

  function AppendAll(chain: seq<string>, z: string): (r: seq<string>)
    ensures |r| == |chain| && forall k :: 0 <= k < |r| ==> r[k] == chain[k] + z
  {
    seq(|chain|, k requires 0 <= k < |chain| => chain[k] + z)
  }

  lemma ChainThenSuffix(chain: seq<string>, a: string, b: string, z: string)
    requires EditChain(chain, a, b)
    ensures EditChain(AppendAll(chain, z), a + z, b + z)
  {
    var r := AppendAll(chain, z);
    forall k | 0 <= k < |r| - 1
      ensures OneEdit(r[k], r[k + 1])
    {
      OneEditThenSuffix(chain[k], chain[k + 1], z);
    }
  }

  lemma ExtendChain(chain: seq<string>, a: string, b: string, c: string)
    requires EditChain(chain, a, b) && OneEdit(b, c)
    ensures EditChain(chain + [c], a, c)
  {
  }

  lemma PrependChain(chain: seq<string>, a: string, b: string, c: string)
    requires OneEdit(a, b) && EditChain(chain, b, c)
    ensures EditChain([a] + chain, a, c)
  {
    var r := [a] + chain;
    forall k | 0 <= k < |r| - 1
      ensures OneEdit(r[k], r[k + 1])
    {
      if k > 0 {
        assert r[k] == chain[k - 1] && r[k + 1] == chain[k - 1 + 1];
      }
    }
  }

  lemma InsertLast(chain: seq<string>, a: string, v: string, d: char)
    requires EditChain(chain, a, v)
    ensures EditChain(chain + [v + [d]], a, v + [d])
  {
    assert EditAt(v, v + [d], |v|, 0, [d]);
    ExtendChain(chain, a, v, v + [d]);
  }

  lemma DeleteLast(chain: seq<string>, u: string, c: char, b: string)
    requires EditChain(chain, u, b)
    ensures EditChain([u + [c]] + chain, u + [c], b)
  {
    assert EditAt(u + [c], u, |u|, 1, "");
    PrependChain(chain, u + [c], u, b);
  }

  lemma KeepOrChangeLast(chain: seq<string>, u: string, c: char, v: string, d: char) returns (r: seq<string>)
    requires EditChain(chain, u, v)
    ensures EditChain(r, u + [c], v + [d]) && |r| == |chain| + Mismatch(c, d)
  {
    ChainThenSuffix(chain, u, v, [c]);
    r := AppendAll(chain, [c]);
    if c != d {
      assert EditAt(v + [c], v + [d], |v|, 1, [d]);
      ExtendChain(r, u + [c], v + [c], v + [d]);
      r := r + [v + [d]];
    }
  }

  lemma {:induction false} ShortestChainAt(a: string, b: string, i: nat, j: nat) returns (chain: seq<string>)
    requires i <= |a| && j <= |b|
    ensures EditChain(chain, a[..i], b[..j]) && |chain| - 1 == DistAt(a, b, i, j)
    decreases i + j
  {
    hide DistAt;
    if i != 0 && j != 0 {
      Steps(a, b, i, j);
    }
    if i == 0 && j == 0 {
      chain := [a[..i]];
    } else if j != 0 && DistAt(a, b, i, j) == DistAt(a, b, i, j - 1) + 1 {
      var c := ShortestChainAt(a, b, i, j - 1);
      InsertLast(c, a[..i], b[..j - 1], b[j - 1]);
      assert b[..j] == b[..j - 1] + [b[j - 1]];
      chain := c + [b[..j]];
    } else if i != 0 && DistAt(a, b, i, j) == DistAt(a, b, i - 1, j) + 1 {
      var c := ShortestChainAt(a, b, i - 1, j);
      DeleteLast(c, a[..i - 1], a[i - 1], b[..j]);
      assert a[..i] == a[..i - 1] + [a[i - 1]];
      chain := [a[..i]] + c;
    } else {
      var c := ShortestChainAt(a, b, i - 1, j - 1);
      assert b[..j] == b[..j - 1] + [b[j - 1]] && a[..i] == a[..i - 1] + [a[i - 1]];
      chain := KeepOrChangeLast(c, a[..i - 1], a[i - 1], b[..j - 1], b[j - 1]);
    }
  }

  // ... and some chain has exactly that length.
  lemma ShortestChain(a: string, b: string) returns (chain: seq<string>)
    ensures EditChain(chain, a, b) && |chain| - 1 == Dist(a, b)
  {
    chain := ShortestChainAt(a, b, |a|, |b|);
    assert a[..|a|] == a && b[..|b|] == b;
  }

  // ---------- ratio ----------

  /** The similarity score over the reals; `lower` stands for the language's case folding. */
  function Ratio(lower: string -> string, a: string, b: string): real {
    var x, y := lower(a), lower(b);
    if x == "" && y == "" then 1.0
    else 1.0 - Dist(x, y) as real / Max(|x|, |y|) as real
  }

  lemma RatioRange(lower: string -> string, a: string, b: string)
    ensures 0.0 <= Ratio(lower, a, b) <= 1.0
    ensures Ratio(lower, a, b) == 1.0 <==> lower(a) == lower(b)
    ensures Ratio(lower, a, b) == Ratio(lower, b, a)
  {
    var x, y := lower(a), lower(b);
    Metric(x, y, x);
    if x != "" || y != "" {
      DivRange(Dist(x, y) as real, Max(|x|, |y|) as real);
    }
  }

  function MapChars(f: char -> char, s: string): (r: string)
    ensures |r| == |s| && forall i :: 0 <= i < |s| ==> r[i] == f(s[i])
  {
    seq(|s|, i requires 0 <= i < |s| => f(s[i]))
  }

  // A character-wise map never moves strings apart.
  lemma {:induction false} MapShrinks(f: char -> char, a: string, b: string, i: nat, j: nat)
    requires i <= |a| && j <= |b|
    ensures DistAt(MapChars(f, a), MapChars(f, b), i, j) <= DistAt(a, b, i, j)
    decreases i + j
  {
    hide DistAt;
    if i != 0 && j != 0 {
      Steps(a, b, i, j);
      Steps(MapChars(f, a), MapChars(f, b), i, j);
      MapShrinks(f, a, b, i - 1, j);
      MapShrinks(f, a, b, i, j - 1);
      MapShrinks(f, a, b, i - 1, j - 1);
    }
  }

  lemma DivRange(d: real, m: real)
    requires 0.0 <= d <= m && m > 0.0
    ensures 0.0 <= d / m <= 1.0 && (d / m == 0.0 <==> d == 0.0)
  {
    var q := d / m;
    assert q * m == d;
    assert q > 1.0 ==> q * m > m;
    assert q < 0.0 ==> q * m < 0.0;
  }
}
