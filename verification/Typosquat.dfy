/** Look-alike domains (app/brand/typosquat.py): splitting a domain, and the slips of its label. */
module Typosquat {
  import opened Text
  import opened Wrappers
  import S = Similarity
  import opened Numbers

  const PRIORITY: seq<string> := ["com", "com.br", "app", "online", "shop"]

  // ---------- splitting ----------

  function Fqdn(stem: string, tld: string): string { stem + "." + tld }

  predicate HasTld(domain: string, tld: string) { EndsWith(domain, "." + tld) }

  // stem and tld are the domain cut at its longest listed TLD, else at the first dot.
  ghost predicate IsSplit(tlds: seq<string>, domain: string, stem: string, tld: string) {
    if exists t :: t in tlds && HasTld(domain, t) then
      && tld in tlds && domain == Fqdn(stem, tld)
      && forall t :: t in tlds && HasTld(domain, t) ==> |t| <= |tld|
    else if '.' in domain then
      '.' !in stem && domain == Fqdn(stem, tld)
    else
      stem == domain && tld == "com"
  }

  predicate LongestFirst(ts: seq<string>) {
    forall i, j :: 0 <= i < j < |ts| ==> |ts[i]| >= |ts[j]|
  }

  function InsertByLength(ts: seq<string>, t: string): (r: seq<string>)
    requires LongestFirst(ts)
    ensures LongestFirst(r) && |r| == |ts| + 1
    ensures forall x :: x in r <==> x == t || x in ts
  {
    if ts == [] then [t]
    else if |ts[|ts| - 1]| < |t| then
      var r := InsertByLength(ts[..|ts| - 1], t);
      assert forall k :: 0 <= k < |r| ==> r[k] in r;
      r + [ts[|ts| - 1]]
    else ts + [t]
  }

  // Longest first, equal lengths in the order given.
  method SortLongestFirst(ts: seq<string>) returns (r: seq<string>)
    ensures LongestFirst(r) && |r| == |ts|
    ensures forall x :: x in r <==> x in ts
  {
    r := [];
    for n := 0 to |ts|
      invariant LongestFirst(r) && |r| == n
      invariant forall x :: x in r <==> x in ts[..n]
    {
      r := InsertByLength(r, ts[n]);
      assert ts[..n + 1] == ts[..n] + [ts[n]];
    }
    assert ts[..|ts|] == ts;
  }

  // The loop over the sorted list: the longest listed TLD the domain ends in, if any.
  method LongestTld(domain: string, tlds: seq<string>) returns (r: Option<string>)
    ensures r.None? ==> forall t :: t in tlds ==> !HasTld(domain, t)
    ensures r.Some? ==> r.value in tlds && HasTld(domain, r.value)
    ensures r.Some? ==> forall t :: t in tlds && HasTld(domain, t) ==> |t| <= |r.value|
  {
    var sorted := SortLongestFirst(tlds);
    for n := 0 to |sorted|
      invariant forall i :: 0 <= i < n ==> !HasTld(domain, sorted[i])
    {
      if HasTld(domain, sorted[n]) {
        forall t | t in tlds && HasTld(domain, t)
          ensures |t| <= |sorted[n]|
        {
          var i :| 0 <= i < |sorted| && sorted[i] == t;
        }
        return Some(sorted[n]);
      }
    }
    forall t | t in tlds
      ensures !HasTld(domain, t)
    {
      var i :| 0 <= i < |sorted| && sorted[i] == t;
    }
    return None;
  }

  lemma TldSplits(domain: string, tld: string)
    requires HasTld(domain, tld)
    ensures domain == Fqdn(domain[..|domain| - |tld| - 1], tld)
  {
    var suffix := "." + tld;
    assert domain == domain[..|domain| - |suffix|] + domain[|domain| - |suffix|..];
    assert Fqdn(domain[..|domain| - |suffix|], tld) == domain[..|domain| - |suffix|] + suffix;
  }

  lemma FirstDotSplits(domain: string, dot: nat)
    requires dot < |domain| && domain[dot] == '.'
    ensures domain == Fqdn(domain[..dot], domain[dot + 1..])
  {
    var left, right := domain[..dot], domain[dot + 1..];
    assert domain == left + "." + right;
  }

  method SplitDomain(raw: string, tlds: seq<string>) returns (stem: string, tld: string)
    ensures IsSplit(tlds, Strip(Lower(raw)), stem, tld)
  {
    var domain := Strip(Lower(raw));
    var listed := LongestTld(domain, tlds);
    if listed.Some? {
      tld := listed.value;
      TldSplits(domain, tld);
      stem := domain[..|domain| - |tld| - 1];
    } else {
      var dot := IndexOf(domain, '.');
      if dot < |domain| {
        FirstDotSplits(domain, dot);
        stem, tld := domain[..dot], domain[dot + 1..];
      } else {
        stem, tld := domain, "com";
      }
    }
  }

  // ---------- one slip of the keyboard or the eye ----------

  // The substitution tables: visually similar factors, and the neighbours of each key.
  datatype Tables = Tables(homoglyphs: seq<(string, seq<string>)>, qwerty: map<char, string>) {
    function Neighbours(c: char): string { if c in qwerty then qwerty[c] else "" }
  }

  datatype Slip =
    | Homoglyph(entry: nat, at: nat, alt: nat)
    | Adjacent(at: nat, key: nat)
    | Omission(at: nat)
    | Duplication(at: nat)
    | Transposition(at: nat)

  predicate Possible(t: Tables, stem: string, slip: Slip) {
    match slip
    case Homoglyph(k, i, r) =>
      k < |t.homoglyphs| && OccursAt(stem, t.homoglyphs[k].0, i) && r < |t.homoglyphs[k].1|
    case Adjacent(i, j) => i < |stem| && j < |t.Neighbours(stem[i])|
    case Omission(i) => i < |stem|
    case Duplication(i) => i < |stem|
    case Transposition(i) => i + 1 < |stem|
  }

  function Apply(t: Tables, stem: string, slip: Slip): string
    requires Possible(t, stem, slip)
  {
    match slip
    case Homoglyph(k, i, r) =>
      stem[..i] + t.homoglyphs[k].1[r] + stem[i + |t.homoglyphs[k].0|..]
    case Adjacent(i, j) => stem[..i] + [t.Neighbours(stem[i])[j]] + stem[i + 1..]
    case Omission(i) => stem[..i] + stem[i + 1..]
    case Duplication(i) => stem[..i] + [stem[i]] + stem[i..]
    case Transposition(i) => stem[..i] + [stem[i + 1]] + [stem[i]] + stem[i + 2..]
  }

  ghost predicate IsSlip(t: Tables, stem: string, s: string) {
    exists slip :: Possible(t, stem, slip) && Apply(t, stem, slip) == s
  }

  // out holds slips only, and every slip that f selects.
  ghost predicate Covers(t: Tables, stem: string, out: set<string>, f: Slip -> bool) {
    && (forall s :: s in out ==> IsSlip(t, stem, s))
    && (forall p :: f(p) && Possible(t, stem, p) ==> Apply(t, stem, p) in out)
  }

  lemma CoversUnion(t: Tables, stem: string, o1: set<string>, f1: Slip -> bool,
                    o2: set<string>, f2: Slip -> bool, f: Slip -> bool)
    requires Covers(t, stem, o1, f1) && Covers(t, stem, o2, f2)
    requires forall p :: f(p) ==> f1(p) || f2(p)
    ensures Covers(t, stem, o1 + o2, f)
  {
  }

  // Possible slips q with f2(q) are those with f(q), and p.
  lemma CoversOneMore(t: Tables, stem: string, out: set<string>, f: Slip -> bool, p: Slip, f2: Slip -> bool)
    requires Covers(t, stem, out, f) && Possible(t, stem, p)
    requires forall q :: f2(q) && Possible(t, stem, q) ==> f(q) || q == p
    ensures Covers(t, stem, out + {Apply(t, stem, p)}, f2)
  {
  }

  // The loops of the source, kind by kind.
  method ReplaceAt(t: Tables, stem: string, k: nat, idx: nat) returns (out: set<string>)
    requires k < |t.homoglyphs| && OccursAt(stem, t.homoglyphs[k].0, idx)
    ensures Covers(t, stem, out, (p: Slip) => p.Homoglyph? && p.entry == k && p.at == idx)
  {
    var src, repls := t.homoglyphs[k].0, t.homoglyphs[k].1;
    out := {};
    for r := 0 to |repls|
      invariant Covers(t, stem, out, (p: Slip) => p.Homoglyph? && p.entry == k && p.at == idx && p.alt < r)
    {
      CoversOneMore(t, stem, out, (p: Slip) => p.Homoglyph? && p.entry == k && p.at == idx && p.alt < r,
                    Homoglyph(k, idx, r), (p: Slip) => p.Homoglyph? && p.entry == k && p.at == idx && p.alt < r + 1);
      out := out + {stem[..idx] + repls[r] + stem[idx + |src|..]};
    }
  }

  method ReplaceAll(t: Tables, stem: string, k: nat) returns (out: set<string>)
    requires k < |t.homoglyphs|
    ensures Covers(t, stem, out, (p: Slip) => p.Homoglyph? && p.entry == k)
  {
    var src := t.homoglyphs[k].0;
    out := {};
    var idx := Find(stem, src, 0);
    while idx != -1
      invariant idx == -1 || OccursAt(stem, src, idx)
      invariant Covers(t, stem, out, (p: Slip) => p.Homoglyph? && p.entry == k && (idx == -1 || p.at < idx))
      decreases if idx == -1 then 0 else |stem| - idx + 1
    {
      var here := ReplaceAt(t, stem, k, idx);
      var next := Find(stem, src, idx + 1);
      CoversUnion(t, stem, out, (p: Slip) => p.Homoglyph? && p.entry == k && p.at < idx,
                  here, (p: Slip) => p.Homoglyph? && p.entry == k && p.at == idx,
                  (p: Slip) => p.Homoglyph? && p.entry == k && p.at <= idx);
      out := out + here;
      idx := next;
    }
  }

  method HomoglyphSlips(t: Tables, stem: string) returns (out: set<string>)
    ensures Covers(t, stem, out, (p: Slip) => p.Homoglyph?)
  {
    out := {};
    for k := 0 to |t.homoglyphs|
      invariant Covers(t, stem, out, (p: Slip) => p.Homoglyph? && p.entry < k)
    {
      var entry := ReplaceAll(t, stem, k);
      CoversUnion(t, stem, out, (p: Slip) => p.Homoglyph? && p.entry < k,
                  entry, (p: Slip) => p.Homoglyph? && p.entry == k, (p: Slip) => p.Homoglyph? && p.entry < k + 1);
      out := out + entry;
    }
  }

  method AdjacentAt(t: Tables, stem: string, i: nat) returns (out: set<string>)
    requires i < |stem|
    ensures Covers(t, stem, out, (p: Slip) => p.Adjacent? && p.at == i)
  {
    var keys := t.Neighbours(stem[i]);
    out := {};
    for j := 0 to |keys|
      invariant Covers(t, stem, out, (p: Slip) => p.Adjacent? && p.at == i && p.key < j)
    {
      CoversOneMore(t, stem, out, (p: Slip) => p.Adjacent? && p.at == i && p.key < j,
                    Adjacent(i, j), (p: Slip) => p.Adjacent? && p.at == i && p.key < j + 1);
      out := out + {stem[..i] + [keys[j]] + stem[i + 1..]};
    }
  }

  method AdjacentSlips(t: Tables, stem: string) returns (out: set<string>)
    ensures Covers(t, stem, out, (p: Slip) => p.Adjacent?)
  {
    out := {};
    for i := 0 to |stem|
      invariant Covers(t, stem, out, (p: Slip) => p.Adjacent? && p.at < i)
    {
      var here := AdjacentAt(t, stem, i);
      CoversUnion(t, stem, out, (p: Slip) => p.Adjacent? && p.at < i,
                  here, (p: Slip) => p.Adjacent? && p.at == i, (p: Slip) => p.Adjacent? && p.at < i + 1);
      out := out + here;
    }
  }

  method OmissionSlips(t: Tables, stem: string) returns (out: set<string>)
    ensures Covers(t, stem, out, (p: Slip) => p.Omission?)
  {
    out := {};
    for i := 0 to |stem|
      invariant Covers(t, stem, out, (p: Slip) => p.Omission? && p.at < i)
    {
      CoversOneMore(t, stem, out, (p: Slip) => p.Omission? && p.at < i, Omission(i),
                    (p: Slip) => p.Omission? && p.at < i + 1);
      out := out + {stem[..i] + stem[i + 1..]};
    }
  }

  method DuplicationSlips(t: Tables, stem: string) returns (out: set<string>)
    ensures Covers(t, stem, out, (p: Slip) => p.Duplication?)
  {
    out := {};
    for i := 0 to |stem|
      invariant Covers(t, stem, out, (p: Slip) => p.Duplication? && p.at < i)
    {
      CoversOneMore(t, stem, out, (p: Slip) => p.Duplication? && p.at < i, Duplication(i),
                    (p: Slip) => p.Duplication? && p.at < i + 1);
      out := out + {stem[..i] + [stem[i]] + stem[i..]};
    }
  }

  method TranspositionSlips(t: Tables, stem: string) returns (out: set<string>)
    ensures Covers(t, stem, out, (p: Slip) => p.Transposition?)
  {
    out := {};
    for i := 0 to Max(|stem| - 1, 0)
      invariant Covers(t, stem, out, (p: Slip) => p.Transposition? && p.at < i)
    {
      CoversOneMore(t, stem, out, (p: Slip) => p.Transposition? && p.at < i, Transposition(i),
                    (p: Slip) => p.Transposition? && p.at < i + 1);
      out := out + {stem[..i] + [stem[i + 1]] + [stem[i]] + stem[i + 2..]};
    }
  }

  method CharSwaps(t: Tables, stem: string) returns (out: set<string>)
    ensures forall s :: s in out <==> IsSlip(t, stem, s)
  {
    var homoglyphs := HomoglyphSlips(t, stem);
    var adjacent := AdjacentSlips(t, stem);
    var omissions := OmissionSlips(t, stem);
    var duplications := DuplicationSlips(t, stem);
    var transpositions := TranspositionSlips(t, stem);
    out := homoglyphs + adjacent + omissions + duplications + transpositions;
    forall s | IsSlip(t, stem, s)
      ensures s in out
    {
      var p :| Possible(t, stem, p) && Apply(t, stem, p) == s;
    }
  }

  // ---------- what a slip looks like ----------

  // x becomes y: a look-alike, a neighbouring key, nothing, the character twice, or two characters the other way round.
  ghost predicate Swaps(t: Tables, x: string, y: string) {
    || (exists k :: 0 <= k < |t.homoglyphs| && t.homoglyphs[k].0 == x && y in t.homoglyphs[k].1)
    || (|x| == |y| == 1 && x[0] in t.qwerty && y[0] in t.qwerty[x[0]])
    || (|x| == 1 && (y == "" || y == x + x))
    || (|x| == 2 && y == [x[1], x[0]])
  }

  // The label with one factor swapped.
  ghost predicate SwapsAt(t: Tables, stem: string, s: string, a: string, x: string, b: string, y: string) {
    stem == a + x + b && s == a + y + b && Swaps(t, x, y)
  }

  lemma SlipSwaps(t: Tables, stem: string, p: Slip)
    requires Possible(t, stem, p)
    ensures exists a, x, b, y :: SwapsAt(t, stem, Apply(t, stem, p), a, x, b, y)
  {
    var i := p.at;
    match p
    case Homoglyph(k, _, r) =>
      var x := t.homoglyphs[k].0;
      assert stem == stem[..i] + x + stem[i + |x|..];
      assert SwapsAt(t, stem, Apply(t, stem, p), stem[..i], x, stem[i + |x|..], t.homoglyphs[k].1[r]);
    case Adjacent(_, j) =>
      assert stem == stem[..i] + [stem[i]] + stem[i + 1..];
      assert SwapsAt(t, stem, Apply(t, stem, p), stem[..i], [stem[i]], stem[i + 1..], [t.Neighbours(stem[i])[j]]);
    case Omission(_) =>
      assert stem == stem[..i] + [stem[i]] + stem[i + 1..] && stem[..i] + "" == stem[..i];
      assert SwapsAt(t, stem, Apply(t, stem, p), stem[..i], [stem[i]], stem[i + 1..], "");
    case Duplication(_) =>
      assert stem == stem[..i] + [stem[i]] + stem[i + 1..];
      assert stem[..i] + [stem[i]] + stem[i..] == stem[..i] + ([stem[i]] + [stem[i]]) + stem[i + 1..];
      assert SwapsAt(t, stem, Apply(t, stem, p), stem[..i], [stem[i]], stem[i + 1..], [stem[i]] + [stem[i]]);
    case Transposition(_) =>
      var x := [stem[i], stem[i + 1]];
      assert stem == stem[..i] + x + stem[i + 2..];
      assert stem[..i] + [stem[i + 1]] + [stem[i]] + stem[i + 2..] == stem[..i] + [x[1], x[0]] + stem[i + 2..];
      assert SwapsAt(t, stem, Apply(t, stem, p), stem[..i], x, stem[i + 2..], [x[1], x[0]]);
  }

  lemma SwapIsSlip(t: Tables, stem: string, s: string, a: string, x: string, b: string, y: string)
    requires SwapsAt(t, stem, s, a, x, b, y)
    ensures IsSlip(t, stem, s)
  {
    var i := |a|;
    assert stem[..i] == a && stem[i..i + |x|] == x && stem[i + |x|..] == b;
    if k :| 0 <= k < |t.homoglyphs| && t.homoglyphs[k].0 == x && y in t.homoglyphs[k].1 {
      var r :| 0 <= r < |t.homoglyphs[k].1| && t.homoglyphs[k].1[r] == y;
      assert Possible(t, stem, Homoglyph(k, i, r)) && Apply(t, stem, Homoglyph(k, i, r)) == s;
    } else if |x| == |y| == 1 && x[0] in t.qwerty && y[0] in t.qwerty[x[0]] {
      assert stem[i] == x[0] && y == [y[0]];
      var j :| 0 <= j < |t.qwerty[x[0]]| && t.qwerty[x[0]][j] == y[0];
      assert Possible(t, stem, Adjacent(i, j)) && Apply(t, stem, Adjacent(i, j)) == s;
    } else if |x| == 1 && y == "" {
      assert Possible(t, stem, Omission(i)) && Apply(t, stem, Omission(i)) == s;
    } else if |x| == 1 {
      assert stem[i] == x[0] && stem[i..] == x + b;
      assert Possible(t, stem, Duplication(i)) && Apply(t, stem, Duplication(i)) == s;
    } else {
      assert stem[i] == x[0] && stem[i + 1] == x[1];
      assert Possible(t, stem, Transposition(i)) && Apply(t, stem, Transposition(i)) == s;
    }
  }

  // A slip is the label with exactly one such factor swapped.
  lemma SlipIff(t: Tables, stem: string, s: string)
    ensures IsSlip(t, stem, s) <==> exists a, x, b, y :: SwapsAt(t, stem, s, a, x, b, y)
  {
    if IsSlip(t, stem, s) {
      var p :| Possible(t, stem, p) && Apply(t, stem, p) == s;
      SlipSwaps(t, stem, p);
    }
    if a, x, b, y :| SwapsAt(t, stem, s, a, x, b, y) {
      SwapIsSlip(t, stem, s, a, x, b, y);
    }
  }

  // ---------- distance of a slip ----------

  ghost predicate ShortTables(t: Tables) {
    forall k :: 0 <= k < |t.homoglyphs| ==>
      && 0 < |t.homoglyphs[k].0| <= 2
      && forall r :: 0 <= r < |t.homoglyphs[k].1| ==> |t.homoglyphs[k].1[r]| <= 2
  }

  // The factor a slip replaces, and what it puts there.
  function Removed(t: Tables, p: Slip): nat
    requires p.Homoglyph? ==> p.entry < |t.homoglyphs|
  {
    match p
    case Homoglyph(k, _, _) => |t.homoglyphs[k].0|
    case Adjacent(_, _) => 1
    case Omission(_) => 1
    case Duplication(_) => 0
    case Transposition(_) => 2
  }

  function Inserted(t: Tables, stem: string, p: Slip): string
    requires Possible(t, stem, p)
  {
    match p
    case Homoglyph(k, _, r) => t.homoglyphs[k].1[r]
    case Adjacent(i, j) => [t.Neighbours(stem[i])[j]]
    case Omission(_) => ""
    case Duplication(i) => [stem[i]]
    case Transposition(i) => [stem[i + 1]] + [stem[i]]
  }

  lemma SlipReplacesFactor(t: Tables, stem: string, p: Slip)
    requires Possible(t, stem, p)
    ensures p.at + Removed(t, p) <= |stem|
    ensures Apply(t, stem, p) == stem[..p.at] + Inserted(t, stem, p) + stem[p.at + Removed(t, p)..]
  {
    match p
    case Omission(i) => assert stem[..i] + "" == stem[..i];
    case Transposition(i) =>
      assert stem[..i] + [stem[i + 1]] + [stem[i]] == stem[..i] + ([stem[i + 1]] + [stem[i]]);
    case _ =>
  }

  lemma NearByFactor(stem: string, s: string, i: nat, m: nat, x: string, tail: string)
    requires i <= m <= |stem| && m - i <= 2 && |x| <= 2
    requires s == stem[..i] + x + stem[m..]
    ensures S.Dist(s + tail, stem + tail) <= 2
  {
    var y, rest := stem[i..m], stem[m..] + tail;
    S.FactorReplacement(stem[..i], x, y, rest);
    assert s + tail == stem[..i] + x + rest;
    assert stem + tail == stem[..i] + y + rest;
  }

  // A slipped stem stays within two edits, whatever follows it.
  lemma SlipIsNear(t: Tables, stem: string, s: string, tail: string)
    requires ShortTables(t) && IsSlip(t, stem, s)
    ensures S.Dist(s + tail, stem + tail) <= 2
  {
    var p :| Possible(t, stem, p) && Apply(t, stem, p) == s;
    SlipReplacesFactor(t, stem, p);
    NearByFactor(stem, s, p.at, p.at + Removed(t, p), Inserted(t, stem, p), tail);
  }
}
