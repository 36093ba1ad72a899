/** When a stealer log may be cut before a URL line: exactly where no field is joined across the cut. */
module Joining {
  import opened Parsers

  // b begins with a URL line.
  predicate StartsBlock(b: seq<string>) {
    b != [] && Read(b[0]).Field? && Read(b[0]).kind == Url
  }

  // The blocks of the two parts, the lines of the second numbered from where it stands.
  predicate Separates(a: seq<string>, b: seq<string>) {
    Blocks(a + b) == Blocks(a) + Shift(Blocks(b), |a|)
  }

  function End(a: seq<string>): Scan { ScanLines(a, |a|) }

  // ---------- with line numbers ----------

  lemma UrlContinues(a: seq<string>, b: seq<string>)
    requires Idle(End(a)) && StartsBlock(b)
    ensures Continues(ScanLines(a + b, |a| + 1), Blocks(a), ScanLines(b, 1), |a|)
  {
    hide ScanLines, Read;
    ScanOfPrefix(a, b, |a|);
    ScanStart(b);
    ScanNextOf(a, b, 0);
    ScanNext(b, 0);
  }

  lemma IdleSeparates(a: seq<string>, b: seq<string>)
    requires Idle(End(a)) && StartsBlock(b)
    ensures Separates(a, b)
  {
    hide ScanLines, Read, Step, Shift;
    UrlContinues(a, b);
    ScanOfSuffix(a, b, Blocks(a), 1, |b|);
    StepContinues(ScanLines(a + b, |a + b|), Blocks(a), ScanLines(b, |b|), |a|, b[0], 0);
  }

  // A field that was read has the number of a line; before the first there is none.
  lemma {:induction false} LineIsWithin(a: seq<string>, n: nat)
    requires n <= |a|
    ensures var s := ScanLines(a, n); s.line <= n && (s.line == 0 ==> s.cur == EMPTY)
    decreases n
  {
    hide ScanLines, Read;
    ScanStart(a);
    if n > 0 {
      LineIsWithin(a, n - 1);
      ScanNext(a, n - 1);
    }
  }

  // Lines that read as the given fields exist.
  lemma LinesOf() returns (url: string, login: string, password: string)
    ensures Read(url) == Field(Url, "u") && Read(login) == Field(Login, "l") && Read(password) == Field(Password, "p")
  {
    UsualBlockLabels();
    assert Printable("u") && Printable("l") && Printable("p");
    hide Read, IsLabel, Printable, OneLine;
    LineReads("URL", "u", Url);
    LineReads("Login", "l", Login);
    LineReads("Password", "p", Password);
    url, login, password := Line("URL", "u"), Line("Login", "l"), Line("Password", "p");
  }

  lemma BlockSteps(s: Scan, b: seq<string>, i: nat)
    requires !Complete(s.cur) && |b| == 3
    requires Read(b[0]) == Field(Url, "u") && Read(b[1]) == Field(Login, "l") && Read(b[2]) == Field(Password, "p")
    ensures var t := Step(Step(Step(s, b[0], i), b[1], i + 1), b[2], i + 2);
      t == Scan(s.meta, Block("u", "l", "p"), if s.line != 0 then s.line else i + 1, s.blocks)
  {
    hide Read;
  }

  lemma BlockAfter(a: seq<string>, b: seq<string>)
    requires !Complete(End(a).cur) && |b| == 3
    requires Read(b[0]) == Field(Url, "u") && Read(b[1]) == Field(Login, "l") && Read(b[2]) == Field(Password, "p")
    ensures var s := End(a);
      Blocks(a + b) == s.blocks + [Found(Block("u", "l", "p"), if s.line != 0 then s.line else |a| + 1)]
  {
    hide ScanLines, Read, Step;
    ScanOfPrefix(a, b, |a|);
    ScanNextOf(a, b, 0);
    ScanNextOf(a, b, 1);
    ScanNextOf(a, b, 2);
    BlockSteps(End(a), b, |a|);
  }

  // A whole block after an unfinished one keeps the unfinished one's line number.
  lemma UnfinishedKeepsItsLine(a: seq<string>, b: seq<string>)
    requires !Idle(End(a)) && |b| == 3
    requires Read(b[0]) == Field(Url, "u") && Read(b[1]) == Field(Login, "l") && Read(b[2]) == Field(Password, "p")
    ensures !Separates(a, b)
  {
    hide ScanLines, Read, Step, Shift;
    LineIsWithin(a, |a|);
    var s := End(a);
    assert !Complete(s.cur) && 0 < s.line <= |a|;
    ScanStart([]);
    BlockAfter(a, b);
    BlockAfter([], b);
    assert [] + b == b;
    var found := Found(Block("u", "l", "p"), 1);
    assert Blocks(b) == [found] && Blocks(a) == s.blocks;
    assert (s.blocks + Shift([found], |a|))[|s.blocks|].line == |a| + 1;
    assert Blocks(a + b)[|s.blocks|].line == s.line;
  }

  // A log may be cut before every URL line that follows a exactly when the scan of a has ended in a complete
  // block or in none.
  lemma UrlSeparatesIff(a: seq<string>)
    ensures (forall b :: StartsBlock(b) ==> Separates(a, b)) <==> Idle(End(a))
  {
    hide Separates, ScanLines, Idle, Read;
    if Idle(End(a)) {
      forall b | StartsBlock(b)
        ensures Separates(a, b)
      {
        IdleSeparates(a, b);
      }
    } else {
      var url, login, password := LinesOf();
      UnfinishedKeepsItsLine(a, [url, login, password]);
      assert StartsBlock([url, login, password]);
    }
  }

  // ---------- the fields alone ----------

  function Contents(fs: seq<Found>): (r: seq<Block>)
    ensures |r| == |fs| && forall k :: 0 <= k < |fs| ==> r[k] == fs[k].block
  {
    seq(|fs|, k requires 0 <= k < |fs| => fs[k].block)
  }

  predicate KeepsApart(a: seq<string>, b: seq<string>) {
    Contents(Blocks(a + b)) == Contents(Blocks(a)) + Contents(Blocks(b))
  }

  // No login or password waits for its other half.
  predicate NothingPending(s: Scan) { Complete(s.cur) || (s.cur.login == "" && s.cur.password == "") }

  // s has found `before`, and since then the blocks that t found.
  predicate SameFields(s: Scan, before: seq<Block>, t: Scan) {
    s.cur == t.cur && Contents(s.blocks) == before + Contents(t.blocks)
  }

  lemma ContentsAppend(fs: seq<Found>, f: Found)
    ensures Contents(fs + [f]) == Contents(fs) + [f.block]
  {
  }

  lemma StepKeepsFields(s: Scan, before: seq<Block>, t: Scan, raw: string, i: nat, j: nat)
    requires SameFields(s, before, t)
    ensures SameFields(Step(s, raw, i), before, Step(t, raw, j))
    ensures Contents(Flushed(s)) == before + Contents(Flushed(t))
  {
    hide Read, Contents;
    ContentsAppend(s.blocks, Found(s.cur, s.line));
    ContentsAppend(t.blocks, Found(t.cur, t.line));
    assert (before + Contents(t.blocks)) + [t.cur] == before + (Contents(t.blocks) + [t.cur]);
  }

  lemma UrlKeepsFields(a: seq<string>, b: seq<string>)
    requires NothingPending(End(a)) && StartsBlock(b)
    ensures SameFields(ScanLines(a + b, |a| + 1), Contents(Blocks(a)), ScanLines(b, 1))
  {
    hide ScanLines, Read;
    ScanOfPrefix(a, b, |a|);
    ScanStart(b);
    ScanNextOf(a, b, 0);
    ScanNext(b, 0);
    assert Contents(Blocks(a)) + Contents([]) == Contents(Blocks(a));
  }

  lemma {:induction false} SuffixKeepsFields(a: seq<string>, b: seq<string>, n: nat)
    requires NothingPending(End(a)) && StartsBlock(b) && 1 <= n <= |b|
    ensures SameFields(ScanLines(a + b, |a| + n), Contents(Blocks(a)), ScanLines(b, n))
    decreases n
  {
    hide ScanLines, Step, SameFields, Read;
    if n == 1 {
      UrlKeepsFields(a, b);
    } else {
      SuffixKeepsFields(a, b, n - 1);
      StepKeepsFields(ScanLines(a + b, |a| + n - 1), Contents(Blocks(a)), ScanLines(b, n - 1), b[n - 1], |a| + n - 1,
          n - 1);
      ScanNextOf(a, b, n - 1);
      ScanNext(b, n - 1);
    }
  }

  // A waiting login is completed by the next password; a waiting password by the next login.
  lemma PendingIsJoined(a: seq<string>, url: string, login: string, password: string)
    requires !NothingPending(End(a))
    requires Read(url) == Field(Url, "u") && Read(login) == Field(Login, "l") && Read(password) == Field(Password, "p")
    ensures !KeepsApart(a, [url, if End(a).cur.login != "" then password else login])
  {
    hide ScanLines, Read;
    var s := End(a);
    var b := [url, if s.cur.login != "" then password else login];
    ScanOfPrefix(a, b, |a|);
    ScanNextOf(a, b, 0);
    ScanNextOf(a, b, 1);
    ScanStart(b);
    ScanNext(b, 0);
    ScanNext(b, 1);
    assert |Blocks(b)| == 0 && |Blocks(a)| == |s.blocks| && |Blocks(a + b)| == |s.blocks| + 1;
  }

  // No login, password or url crosses any cut before a URL line exactly when, at the cut, no login waits for a
  // password and no password for a login.
  lemma FieldsKeepApartIff(a: seq<string>)
    ensures (forall b :: StartsBlock(b) ==> KeepsApart(a, b)) <==> NothingPending(End(a))
  {
    hide KeepsApart, ScanLines, NothingPending, Read;
    if NothingPending(End(a)) {
      forall b | StartsBlock(b)
        ensures KeepsApart(a, b)
      {
        NothingPendingKeepsApart(a, b);
      }
    } else {
      var url, login, password := LinesOf();
      PendingIsJoined(a, url, login, password);
      assert StartsBlock([url, if End(a).cur.login != "" then password else login]);
    }
  }

  lemma NothingPendingKeepsApart(a: seq<string>, b: seq<string>)
    requires NothingPending(End(a)) && StartsBlock(b)
    ensures KeepsApart(a, b)
  {
    hide ScanLines, Step, Read, Contents;
    SuffixKeepsFields(a, b, |b|);
    StepKeepsFields(ScanLines(a + b, |a + b|), Contents(Blocks(a)), ScanLines(b, |b|), b[0], 0, 0);
  }
}
