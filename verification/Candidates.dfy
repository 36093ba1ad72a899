/** The candidate list (`generate` in app/brand/typosquat.py) and the scanner's filter (app/brand/scanner.py). */
module Candidates {
  import opened Text
  import opened Typosquat
  import opened Sequences
  import D = TyposquatData
  import S = Similarity
  import opened Numbers

  // ---------- valid stems ----------

  predicate Alnum(c: char) { 'a' <= c <= 'z' || '0' <= c <= '9' }

  // [a-z0-9][a-z0-9\-]{0,61}[a-z0-9]
  predicate ValidLabel(s: string) {
    && 2 <= |s| <= 63
    && Alnum(s[0]) && Alnum(s[|s| - 1])
    && forall i :: 0 <= i < |s| ==> Alnum(s[i]) || s[i] == '-'
  }

  // The code points of the pattern's character class.
  predicate InClass(c: char) { 97 <= c as int <= 122 || 48 <= c as int <= 57 }

  // The pattern read as a whole: a character, at most 61 characters or hyphens, and a character.
  ghost predicate Matches(s: string, first: char, middle: string, last: char) {
    && s == [first] + middle + [last] && |middle| <= 61 && InClass(first) && InClass(last)
    && forall i :: 0 <= i < |middle| ==> InClass(middle[i]) || middle[i] == '-'
  }

  lemma ValidLabelIff(s: string)
    ensures ValidLabel(s) <==> exists first, middle, last :: Matches(s, first, middle, last)
  {
    if ValidLabel(s) {
      var middle := s[1..|s| - 1];
      assert s == [s[0]] + middle + [s[|s| - 1]];
      assert forall i :: 0 <= i < |middle| ==> middle[i] == s[i + 1];
      assert Matches(s, s[0], middle, s[|s| - 1]);
    }
    if first, middle, last :| Matches(s, first, middle, last) {
      forall i | 0 <= i < |s|
        ensures Alnum(s[i]) || s[i] == '-'
      {
        if 0 < i < |s| - 1 { assert s[i] == middle[i - 1]; }
      }
    }
  }

  // ---------- sorted(labels) ----------

  // Code-point order on strings.
  predicate Less(a: string, b: string) {
    b != "" && (a == "" || a[0] < b[0] || (a[0] == b[0] && Less(a[1..], b[1..])))
  }

  lemma {:induction false} LessTotal(a: string, b: string)
    ensures a == b || Less(a, b) || Less(b, a)
    ensures !(Less(a, b) && Less(b, a)) && (a == b ==> !Less(a, b))
  {
    if a != "" && b != "" {
      LessTotal(a[1..], b[1..]);
      assert a == [a[0]] + a[1..] && b == [b[0]] + b[1..];
    }
  }

  lemma {:induction false} LessTransitive(a: string, b: string, c: string)
    requires Less(a, b) && Less(b, c)
    ensures Less(a, c)
  {
    if a != "" && a[0] == b[0] == c[0] {
      LessTransitive(a[1..], b[1..], c[1..]);
    }
  }

  predicate Ascending(s: seq<string>) {
    forall i, j :: 0 <= i < j < |s| ==> Less(s[i], s[j])
  }

  method Least(ss: set<string>) returns (m: string)
    requires ss != {}
    ensures m in ss && forall s :: s in ss && s != m ==> Less(m, s)
  {
    var rest := ss;
    m :| m in rest;
    rest := rest - {m};
    while rest != {}
      invariant m in ss && rest <= ss
      invariant forall s :: s in ss && s !in rest && s != m ==> Less(m, s)
    {
      var c :| c in rest;
      if Less(c, m) {
        forall s | s in ss && s !in rest && s != m
          ensures Less(c, s)
        {
          LessTransitive(c, m, s);
        }
        m := c;
      } else {
        LessTotal(c, m);
      }
      rest := rest - {c};
    }
  }

  method Sorted(ss: set<string>) returns (r: seq<string>)
    ensures Ascending(r) && forall s :: s in r <==> s in ss
  {
    r := [];
    var rest := ss;
    while rest != {}
      invariant rest <= ss && Ascending(r)
      invariant forall s :: s in r <==> s in ss && s !in rest
      invariant forall s, u :: s in r && u in rest ==> Less(s, u)
    {
      var m := Least(rest);
      r := r + [m];
      rest := rest - {m};
    }
  }

  // ---------- generate ----------

  // What the generator is configured with.
  datatype Config = Config(tlds: seq<string>, tables: Tables, lures: seq<string>)

  const CONFIG := Config(D.TLDS, D.TABLES, D.LURES)

  ghost predicate IsLured(lures: seq<string>, stem: string, s: string) {
    || s == stem + "-br"
    || exists i :: 0 <= i < |lures| && LureForm(stem, lures[i], s)
  }

  predicate LureForm(stem: string, lure: string, s: string) {
    s == stem + lure || s == lure + stem || s == stem + "-" + lure || s == lure + "-" + stem
  }

  // The stems that survive the validity filter.
  ghost predicate IsVariant(c: Config, stem: string, s: string) {
    (IsSlip(c.tables, stem, s) || IsLured(c.lures, stem, s)) && ValidLabel(s) && s != stem
  }

  method LuredStems(lures: seq<string>, stem: string) returns (out: set<string>)
    ensures forall s :: s in out <==> IsLured(lures, stem, s)
  {
    out := {stem + "-br"};
    for n := 0 to |lures|
      invariant forall s :: s in out <==> s == stem + "-br" || exists i :: 0 <= i < n && LureForm(stem, lures[i], s)
    {
      var lure := lures[n];
      ghost var before := out;
      out := out + {stem + lure, lure + stem, stem + "-" + lure, lure + "-" + stem};
      forall s
        ensures s in out <==> s == stem + "-br" || exists i :: 0 <= i < n + 1 && LureForm(stem, lures[i], s)
      {
        assert s in out <==> s in before || LureForm(stem, lures[n], s);
      }
    }
  }

  // All names in the order the nested loops visit them.
  function Grid(stems: seq<string>, tlds: seq<string>): seq<string> {
    if stems == [] then [] else Grid(stems[..|stems| - 1], tlds) + Column(stems[|stems| - 1], tlds)
  }

  function Column(stem: string, tlds: seq<string>): (r: seq<string>)
    ensures |r| == |tlds| && forall i :: 0 <= i < |r| ==> r[i] == Fqdn(stem, tlds[i])
  {
    seq(|tlds|, i requires 0 <= i < |tlds| => Fqdn(stem, tlds[i]))
  }

  lemma {:induction false} GridPrefix(stems: seq<string>, n: nat, tlds: seq<string>)
    requires n <= |stems|
    ensures Grid(stems[..n], tlds) <= Grid(stems, tlds)
    decreases |stems|
  {
    if n < |stems| {
      GridPrefix(stems[..|stems| - 1], n, tlds);
      assert stems[..|stems| - 1][..n] == stems[..n];
    } else {
      assert stems[..n] == stems;
    }
  }

  lemma {:induction false} GridHolds(stems: seq<string>, tlds: seq<string>, x: string)
    ensures x in Grid(stems, tlds) <==> exists s, t :: s in stems && t in tlds && x == Fqdn(s, t)
    decreases |stems|
  {
    if stems != [] {
      var n := |stems| - 1;
      GridHolds(stems[..n], tlds, x);
      var col := Column(stems[n], tlds);
      if x in col {
        var i :| 0 <= i < |col| && col[i] == x;
        assert stems[n] in stems && tlds[i] in tlds && x == Fqdn(stems[n], tlds[i]);
      }
      if s, t :| s in stems && t in tlds && x == Fqdn(s, t) {
        if s == stems[n] {
          var i :| 0 <= i < |tlds| && tlds[i] == t;
          assert col[i] == x;
        }
      }
    }
  }

  // The list is cut at max results, but only after appending.
  function Cut(all: seq<string>, max: int): seq<string> {
    if |all| <= Max(max, 1) then all else all[..Max(max, 1)]
  }

  // The inner loop: one stem against every TLD, stopping as soon as the list is full.
  method CollectStem(before: seq<string>, ghost done: seq<string>, stem: string, tlds: seq<string>, max: int)
    returns (candidates: seq<string>, full: bool, ghost upto: nat)
    requires before == FirstSeen(done) && (before == [] || |before| < max)
    ensures upto <= |tlds| && candidates == FirstSeen(done + Column(stem, tlds)[..upto])
    ensures if full then |candidates| == Max(max, 1) else upto == |tlds| && (candidates == [] || |candidates| < max)
  {
    hide FirstSeen;
    candidates, full, upto := before, false, 0;
    ghost var col := Column(stem, tlds);
    assert done + col[..0] == done;
    for m := 0 to |tlds|
      invariant upto == m && candidates == FirstSeen(done + col[..m])
      invariant candidates == [] || |candidates| < max
    {
      var fqdn := Fqdn(stem, tlds[m]);
      ghost var seen := done + col[..m];
      assert done + col[..m + 1] == seen + [fqdn];
      FirstSeenStep(seen, fqdn);
      if fqdn !in candidates {
        candidates := candidates + [fqdn];
      }
      upto := m + 1;
      if |candidates| >= max {
        return candidates, true, upto;
      }
    }
  }

  lemma CutAtPrefix(part: seq<string>, whole: seq<string>, max: int)
    requires part <= whole && |FirstSeen(part)| == Max(max, 1)
    ensures FirstSeen(part) == Cut(FirstSeen(whole), max)
  {
    assert whole == part + whole[|part|..];
    FirstSeenPrefix(part, whole[|part|..]);
  }

  lemma GridStep(stems: seq<string>, n: nat, tlds: seq<string>)
    requires n < |stems|
    ensures Grid(stems[..n + 1], tlds) == Grid(stems[..n], tlds) + Column(stems[n], tlds)
  {
    assert stems[..n + 1][..n] == stems[..n];
  }

  // A part of a column is enough when the list is full.
  lemma FullAt(stems: seq<string>, n: nat, tlds: seq<string>, upto: nat, max: int)
    requires n < |stems| && upto <= |tlds|
    requires |FirstSeen(Grid(stems[..n], tlds) + Column(stems[n], tlds)[..upto])| == Max(max, 1)
    ensures FirstSeen(Grid(stems[..n], tlds) + Column(stems[n], tlds)[..upto]) == Cut(FirstSeen(Grid(stems, tlds)), max)
  {
    var part := Grid(stems[..n], tlds) + Column(stems[n], tlds)[..upto];
    GridStep(stems, n, tlds);
    GridPrefix(stems, n + 1, tlds);
    var next := Grid(stems[..n + 1], tlds);
    assert part == next[..|part|];
    CutAtPrefix(part, Grid(stems, tlds), max);
  }

  method Collect(stems: seq<string>, tlds: seq<string>, max: int) returns (candidates: seq<string>)
    ensures candidates == Cut(FirstSeen(Grid(stems, tlds)), max)
  {
    candidates := [];
    assert FirstSeen(Grid(stems[..0], tlds)) == [];
    hide FirstSeen, Grid;
    for n := 0 to |stems|
      invariant candidates == FirstSeen(Grid(stems[..n], tlds))
      invariant candidates == [] || |candidates| < max
    {
      ghost var done, upto := Grid(stems[..n], tlds), 0;
      var full;
      candidates, full, upto := CollectStem(candidates, done, stems[n], tlds, max);
      if full {
        FullAt(stems, n, tlds, upto, max);
        return;
      }
      GridStep(stems, n, tlds);
      assert Column(stems[n], tlds)[..|tlds|] == Column(stems[n], tlds);
    }
    assert stems[..|stems|] == stems;
  }

  // The valid variants in ascending order, and the names built from them.
  ghost predicate IsStemList(c: Config, stem: string, stems: seq<string>) {
    Ascending(stems) && forall s :: s in stems <==> IsVariant(c, stem, s)
  }

  ghost predicate IsCandidateList(c: Config, stem: string, tld: string, max: int, list: seq<string>) {
    if stem == "" then list == []
    else exists stems :: IsStemList(c, stem, stems) && list == Cut(FirstSeen(Grid(stems, [tld] + PRIORITY)), max)
  }

  // The valid labels among slips and lured stems but for the stem itself, in order.
  method Variants(c: Config, stem: string) returns (stems: seq<string>)
    ensures IsStemList(c, stem, stems)
  {
    var swaps := CharSwaps(c.tables, stem);
    var lured := LuredStems(c.lures, stem);
    hide IsSlip, IsLured, ValidLabel;
    stems := Sorted(set s | s in swaps + lured && ValidLabel(s) && s != stem);
  }

  method Generate(c: Config, raw: string, max: int) returns (candidates: seq<string>)
    ensures exists stem, tld ::
      IsSplit(c.tlds, Strip(Lower(raw)), stem, tld) && IsCandidateList(c, stem, tld, max, candidates)
  {
    hide IsSplit, IsStemList, Cut, FirstSeen, Grid;
    var stem, tld := SplitDomain(raw, c.tlds);
    if stem == "" {
      candidates := [];
    } else {
      var sorted := Variants(c, stem);
      candidates := Collect(sorted, [tld] + PRIORITY, max);
    }
    assert IsCandidateList(c, stem, tld, max, candidates);
  }

  // ---------- what the list never holds ----------

  lemma SuffixOfFqdn(stem: string, tld: string)
    ensures HasTld(Fqdn(stem, tld), tld)
  {
  }

  lemma LongestCutIsUnique(a: string, s: string, b: string, t: string)
    requires Fqdn(a, s) == Fqdn(b, t) && '.' !in a && |t| >= |s|
    ensures a == b && s == t
  {
    var d := Fqdn(a, s);
    assert d[|b|] == '.' && d[..|a|] == a && d[..|b|] == b;
    assert forall i :: 0 <= i < |a| ==> d[i] == a[i];
    assert d[|a| + 1..] == s && d[|b| + 1..] == t;
  }

  lemma CandidateShape(stems: seq<string>, tlds: seq<string>, max: int, x: string)
    requires x in Cut(FirstSeen(Grid(stems, tlds)), max)
    ensures exists s, t :: s in stems && t in tlds && x == Fqdn(s, t)
  {
    GridHolds(stems, tlds, x);
  }

  // A split that leaves a dot is a cut of the domain.
  lemma SplitIsCut(tlds: seq<string>, domain: string, stem: string, tld: string)
    requires IsSplit(tlds, domain, stem, tld) && '.' in domain
    ensures domain == Fqdn(stem, tld)
  {
  }

  lemma OnlyOneCut(tlds: seq<string>, domain: string, stem: string, tld: string, s: string, t: string)
    requires IsSplit(tlds, domain, stem, tld) && '.' !in s && domain == Fqdn(s, t)
    requires t == tld || t in tlds
    ensures s == stem
  {
    assert domain[|s|] == '.';
    SplitIsCut(tlds, domain, stem, tld);
    SuffixOfFqdn(s, t);
    assert |tld| >= |t|;
    LongestCutIsUnique(s, t, stem, tld);
  }

  lemma DotFreeStemSplits(tlds: seq<string>, stem: string, tld: string)
    requires tld in tlds && '.' !in stem
    ensures IsSplit(tlds, Fqdn(stem, tld), stem, tld)
  {
    var domain := Fqdn(stem, tld);
    SuffixOfFqdn(stem, tld);
    forall t | t in tlds && HasTld(domain, t)
      ensures |t| <= |tld|
    {
      TldSplits(domain, t);
      if |t| > |tld| {
        LongestCutIsUnique(stem, tld, domain[..|domain| - |t| - 1], t);
      }
    }
  }

  lemma NoCutAmong(listed: seq<string>, domain: string, stem: string, tld: string,
                   stems: seq<string>, tlds: seq<string>, max: int)
    requires IsSplit(listed, domain, stem, tld)
    requires forall s :: s in stems ==> '.' !in s && s != stem
    requires forall t :: t in tlds ==> t == tld || t in listed
    ensures domain !in Cut(FirstSeen(Grid(stems, tlds)), max)
  {
    if domain in Cut(FirstSeen(Grid(stems, tlds)), max) {
      CandidateShape(stems, tlds, max, domain);
      var s, t :| s in stems && t in tlds && domain == Fqdn(s, t);
      OnlyOneCut(listed, domain, stem, tld, s, t);
      assert false;
    }
  }

  // The domain itself is never among its candidates.
  lemma NeverTheOriginal(c: Config, domain: string, stem: string, tld: string, max: int, list: seq<string>)
    requires forall t :: t in PRIORITY ==> t in c.tlds
    requires IsSplit(c.tlds, domain, stem, tld) && IsCandidateList(c, stem, tld, max, list)
    ensures domain !in list
  {
    if stem != "" {
      var stems :| IsStemList(c, stem, stems) && list == Cut(FirstSeen(Grid(stems, [tld] + PRIORITY)), max);
      forall s | s in stems
        ensures '.' !in s && s != stem
      {
        assert IsVariant(c, stem, s);
      }
      NoCutAmong(c.tlds, domain, stem, tld, stems, [tld] + PRIORITY, max);
    }
  }

  // The list has no duplicates, is never longer than allowed, and is complete when it is shorter.
  lemma CandidateList(stems: seq<string>, tlds: seq<string>, max: int)
    ensures var c := Cut(FirstSeen(Grid(stems, tlds)), max);
      && |c| <= Max(max, 1)
      && (forall i, j :: 0 <= i < j < |c| ==> c[i] != c[j])
      && (|c| < max ==> forall s, t :: s in stems && t in tlds ==> Fqdn(s, t) in c)
  {
    var c := Cut(FirstSeen(Grid(stems, tlds)), max);
    if |c| < max {
      forall s, t | s in stems && t in tlds
        ensures Fqdn(s, t) in c
      {
        GridHolds(stems, tlds, Fqdn(s, t));
      }
    }
  }

  // ---------- the scanner's filter ----------

  function RoundHalfEven(x: real): (r: int)
    ensures x.Floor <= r <= x.Floor + 1
  {
    var f := x.Floor;
    var d := x - f as real;
    if d < 0.5 || (d == 0.5 && f % 2 == 0) then f else f + 1
  }

  // The nearest integer, and of two equally near ones the even one.
  lemma RoundsToNearest(x: real, n: int)
    ensures n == RoundHalfEven(x) <==>
      && -0.5 <= x - n as real <= 0.5
      && (x - n as real == 0.5 || x - n as real == -0.5 ==> n % 2 == 0)
  {
    var f := x.Floor;
    assert f as real <= x < f as real + 1.0;
    if -0.5 <= x - n as real <= 0.5 { assert n == f || n == f + 1; }
  }

  function Score(domain: string, primary: string): int {
    RoundHalfEven(S.Ratio(Lower, domain, primary) * 100.0)
  }

  const THRESHOLD := 70

  predicate Dropped(resolves: bool, score: int) { !resolves && score < THRESHOLD }

  lemma LowerMaps(s: string)
    ensures Lower(s) == S.MapChars(LowerChar, s)
  {
  }

  lemma CloseIsHigh(d: nat, m: nat)
    requires d <= 2 && m >= 7
    ensures 1.0 - d as real / m as real >= 0.71
  {
    var q := d as real / m as real;
    assert q * m as real == d as real;
    assert q > 0.29 ==> q * m as real > 0.29 * 7.0;
  }

  lemma NearScoresHigh(x: string, y: string)
    requires S.Dist(x, y) <= 2 && |y| >= 7
    ensures Score(x, y) >= THRESHOLD
  {
    LowerMaps(x);
    LowerMaps(y);
    S.MapShrinks(LowerChar, x, y, |x|, |y|);
    var d, m := S.Dist(Lower(x), Lower(y)), Max(|x|, |y|);
    CloseIsHigh(d, m);
    assert S.Ratio(Lower, x, y) * 100.0 >= 71.0;
  }

  // Every slip put on the official TLD of a domain of seven characters or more is investigated.
  lemma SlipIsNeverDropped(c: Config, domain: string, stem: string, tld: string, s: string, resolves: bool)
    requires ShortTables(c.tables)
    requires IsSplit(c.tlds, domain, stem, tld) && '.' in domain && |domain| >= 7
    requires IsSlip(c.tables, stem, s)
    ensures !Dropped(resolves, Score(Fqdn(s, tld), domain))
  {
    SplitIsCut(c.tlds, domain, stem, tld);
    SlipAndTld(c.tables, stem, s, tld);
    NearScoresHigh(Fqdn(s, tld), domain);
  }

  lemma SlipAndTld(t: Tables, stem: string, s: string, tld: string)
    requires ShortTables(t) && IsSlip(t, stem, s)
    ensures S.Dist(Fqdn(s, tld), Fqdn(stem, tld)) <= 2
  {
    var tail := "." + tld;
    SlipIsNear(t, stem, s, tail);
    assert Fqdn(s, tld) == s + tail && Fqdn(stem, tld) == stem + tail;
  }

  // The source's own tables meet what these theorems ask of a configuration.
  lemma ConfigIsFit()
    ensures ShortTables(CONFIG.tables) && forall t :: t in PRIORITY ==> t in CONFIG.tlds
  {
    D.TablesAreShort();
    D.PriorityTldsAreListed();
  }

  // Two edits apart, the scanner looks at an unresolved name exactly from seven characters on.
  lemma TwoEditsAreDroppedIffShort(x: string, y: string)
    requires S.Dist(Lower(x), Lower(y)) == 2
    ensures Dropped(false, Score(x, y)) <==> Max(|x|, |y|) < 7
  {
    var m := Max(|x|, |y|);
    S.Metric(Lower(x), Lower(y), Lower(x));
    if m >= 7 {
      CloseIsHigh(2, m);
      assert S.Ratio(Lower, x, y) * 100.0 >= 71.0;
    } else {
      FarIsLow(m);
      assert S.Ratio(Lower, x, y) * 100.0 <= 67.0;
    }
  }

  lemma FarIsLow(m: nat)
    requires 2 <= m <= 6
    ensures 1.0 - 2.0 / m as real <= 0.67
  {
    var q := 2.0 / m as real;
    assert q * m as real == 2.0;
    assert q < 0.33 ==> q * m as real < 0.33 * 6.0;
  }

  lemma OneInFour(d: nat, m: nat)
    requires d <= 1 && m >= 4
    ensures 1.0 - d as real / m as real >= 0.75
  {
    var q := d as real / m as real;
    assert q * m as real == d as real;
    assert q > 0.25 ==> q * m as real > 0.25 * 4.0;
  }

  lemma OneEditScoresHigh(x: string, y: string)
    requires S.Dist(Lower(x), Lower(y)) <= 1 && Max(|x|, |y|) >= 4
    ensures Score(x, y) >= THRESHOLD
  {
    hide S.Dist;
    OneInFour(S.Dist(Lower(x), Lower(y)), Max(|x|, |y|));
    assert S.Ratio(Lower, x, y) * 100.0 >= 75.0;
  }

  // For every slip of every domain: on the official TLD it is dropped exactly when it does not resolve and, ignoring
  // case, is two edits away while both names have fewer than seven characters.
  lemma SlipIsDroppedIff(c: Config, domain: string, stem: string, tld: string, s: string, resolves: bool)
    requires ShortTables(c.tables) && IsSplit(c.tlds, domain, stem, tld) && '.' in domain && tld != ""
    requires IsSlip(c.tables, stem, s) && ValidLabel(s)
    ensures var name := Fqdn(s, tld);
      Dropped(resolves, Score(name, domain)) <==>
        !resolves && S.Dist(Lower(name), Lower(domain)) == 2 && Max(|name|, |domain|) < 7
  {
    hide IsSplit, IsSlip, ShortTables, Score, S.Dist;
    SplitIsCut(c.tlds, domain, stem, tld);
    SlipAndTld(c.tables, stem, s, tld);
    var name := Fqdn(s, tld);
    LowerShrinks(name, domain);
    if S.Dist(Lower(name), Lower(domain)) == 2 {
      TwoEditsAreDroppedIffShort(name, domain);
    } else {
      OneEditScoresHigh(name, domain);
    }
  }

  lemma LowerShrinks(x: string, y: string)
    ensures S.Dist(Lower(x), Lower(y)) <= S.Dist(x, y)
  {
    LowerMaps(x);
    LowerMaps(y);
    S.MapShrinks(LowerChar, x, y, |x|, |y|);
  }

  // Below seven characters there are such slips: swapping the two characters of a stem gives a valid label, and a name
  // that every complete candidate list holds and that is dropped.
  lemma ShortTranspositionIsDropped(g: Config, c: char, d: char, tld: string, max: int, list: seq<string>)
    requires Alnum(c) && Alnum(d) && c != d && tld in g.tlds && |tld| <= 3
    requires IsCandidateList(g, [c, d], tld, max, list) && |list| < max
    ensures IsSplit(g.tlds, Fqdn([c, d], tld), [c, d], tld)
    ensures IsSlip(g.tables, [c, d], [d, c]) && ValidLabel([d, c])
    ensures Fqdn([d, c], tld) in list && Dropped(false, Score(Fqdn([d, c], tld), Fqdn([c, d], tld)))
  {
    DotFreeStemSplits(g.tlds, [c, d], tld);
    TwoCharacterSlip(g.tables, c, d);
    TwoCharacterScore(c, d, tld);
    assert ValidLabel([d, c]) && [d, c][0] != [c, d][0];
    hide Score, IsSplit, IsSlip, IsCandidateList, ValidLabel;
    ListHoldsVariant(g, [c, d], tld, max, list, [d, c]);
  }

  // A list that was not cut holds every lure put before or after the stem, with or without a hyphen, and the stem with
  // "-br", where that is a valid label.
  lemma LuredNamesAreListed(g: Config, stem: string, tld: string, max: int, list: seq<string>, lure: string)
    requires IsCandidateList(g, stem, tld, max, list) && |list| < max && stem != "" && lure in g.lures && lure != ""
    ensures ValidLabel(stem + lure) ==> Fqdn(stem + lure, tld) in list
    ensures ValidLabel(lure + stem) ==> Fqdn(lure + stem, tld) in list
    ensures ValidLabel(stem + "-" + lure) ==> Fqdn(stem + "-" + lure, tld) in list
    ensures ValidLabel(lure + "-" + stem) ==> Fqdn(lure + "-" + stem, tld) in list
    ensures ValidLabel(stem + "-br") ==> Fqdn(stem + "-br", tld) in list
  {
    hide IsCandidateList, ValidLabel, IsSlip;
    var n :| 0 <= n < |g.lures| && g.lures[n] == lure;
    assert |stem + lure| > |stem| && |lure + stem| > |stem| && |stem + "-br"| > |stem|;
    assert |stem + "-" + lure| > |stem| && |lure + "-" + stem| > |stem|;
    forall s | s in {stem + lure, lure + stem, stem + "-" + lure, lure + "-" + stem, stem + "-br"} && ValidLabel(s)
      ensures Fqdn(s, tld) in list
    {
      assert s == stem + "-br" || LureForm(stem, g.lures[n], s);
      assert IsVariant(g, stem, s);
      ListHoldsVariant(g, stem, tld, max, list, s);
    }
  }

  // Every candidate is a valid label, other than the stem, on the official TLD or one that is popular with imitators:
  // a slip, or the stem with a lure or "-br".
  lemma CandidatesAreKnown(g: Config, stem: string, tld: string, max: int, list: seq<string>, x: string)
    requires IsCandidateList(g, stem, tld, max, list) && x in list
    ensures exists s, t :: Explains(g, stem, tld, x, s, t)
  {
    hide IsVariant, Cut, Grid;
    var tlds := [tld] + PRIORITY;
    var stems :| IsStemList(g, stem, stems) && list == Cut(FirstSeen(Grid(stems, tlds)), max);
    CandidateShape(stems, tlds, max, x);
    var s, t :| s in stems && t in tlds && x == Fqdn(s, t);
    assert IsVariant(g, stem, s);
    VariantIs(g, stem, s);
    assert Explains(g, stem, tld, x, s, t);
  }

  ghost predicate Explains(g: Config, stem: string, tld: string, x: string, s: string, t: string) {
    && x == Fqdn(s, t) && s != stem && ValidLabel(s)
    && t in [tld, "com", "com.br", "app", "online", "shop"]
    && (|| IsSlip(g.tables, stem, s) || s == stem + "-br"
        || exists lure :: lure in g.lures && s in {stem + lure, lure + stem, stem + "-" + lure, lure + "-" + stem})
  }

  lemma VariantIs(g: Config, stem: string, s: string)
    requires IsVariant(g, stem, s)
    ensures s != stem && ValidLabel(s)
    ensures || IsSlip(g.tables, stem, s) || s == stem + "-br"
            || exists lure :: lure in g.lures && s in {stem + lure, lure + stem, stem + "-" + lure, lure + "-" + stem}
  {
    hide IsSlip, ValidLabel;
  }

  // A list that was not cut holds every variant on the official TLD.
  lemma ListHoldsVariant(g: Config, stem: string, tld: string, max: int, list: seq<string>, s: string)
    requires IsCandidateList(g, stem, tld, max, list) && |list| < max && stem != "" && IsVariant(g, stem, s)
    ensures Fqdn(s, tld) in list
  {
    hide IsVariant, Cut, FirstSeen, Grid;
    var tlds := [tld] + PRIORITY;
    var stems :| IsStemList(g, stem, stems) && list == Cut(FirstSeen(Grid(stems, tlds)), max);
    CandidateList(stems, tlds, max);
    assert tlds[0] == tld;
  }

  lemma TwoCharacterSlip(t: Tables, c: char, d: char)
    ensures IsSlip(t, [c, d], [d, c])
  {
    assert Possible(t, [c, d], Transposition(0)) && Apply(t, [c, d], Transposition(0)) == [d, c];
  }

  lemma TwoCharacterScore(c: char, d: char, tld: string)
    requires LowerChar(c) == c && LowerChar(d) == d && c != d && |tld| <= 3
    ensures Dropped(false, Score(Fqdn([d, c], tld), Fqdn([c, d], tld)))
  {
    var x, y, tail := Fqdn([d, c], tld), Fqdn([c, d], tld), Lower("." + tld);
    assert Lower(x) == [d, c] + tail;
    assert Lower(y) == [c, d] + tail;
    SwappedDistance(c, d, tail);
    TwoEditsAreDroppedIffShort(x, y);
  }

  lemma SwappedDistance(c: char, d: char, tail: string)
    requires c != d
    ensures S.Dist([d, c] + tail, [c, d] + tail) == 2
  {
    S.SameSuffix([d, c], [c, d], tail);
    assert S.DistAt([d, c], [c, d], 1, 1) == 1;
    assert S.DistAt([d, c], [c, d], 2, 1) == 1 && S.DistAt([d, c], [c, d], 1, 2) == 1;
  }
}
