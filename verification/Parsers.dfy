/** The stealer-log and combolist parsers of app/exposure_ingest.py. */
module Parsers {
  import opened Wrappers
  import opened Hashing
  import opened Text

  // norm() and _norm(): stripped and lower-cased.
  function Norm(s: string): string { Lower(Strip(s)) }

  // ---------- str.splitlines ----------

  predicate IsBreak(c: char) {
    '\n' <= c <= '\r' || '\U{1C}' <= c <= '\U{1E}' || c == '\U{85}' || '\U{2028}' <= c <= '\U{2029}'
  }

  predicate OneLine(s: string) { forall i :: 0 <= i < |s| ==> !IsBreak(s[i]) }

  predicate AllOneLine(lines: seq<string>) { forall k :: 0 <= k < |lines| ==> OneLine(lines[k]) }

  // The position of the first line break, or |s|.
  function BreakAt(s: string): (i: nat)
    ensures i <= |s| && OneLine(s[..i]) && (i < |s| ==> IsBreak(s[i]))
  {
    if s == "" || IsBreak(s[0]) then 0
    else
      var i := BreakAt(s[1..]);
      assert s[..1 + i] == [s[0]] + s[1..][..i];
      1 + i
  }

  function SplitLines(s: string): (lines: seq<string>)
    ensures AllOneLine(lines)
  {
    if s == "" then []
    else
      var i := BreakAt(s);
      if i == |s| then [s]
      else if s[i] == '\r' && i + 1 < |s| && s[i + 1] == '\n' then [s[..i]] + SplitLines(s[i + 2..])
      else [s[..i]] + SplitLines(s[i + 1..])
  }

  function Unlines(lines: seq<string>): string {
    if lines == [] then "" else lines[0] + "\n" + Unlines(lines[1..])
  }

  lemma {:induction false} BreakAfter(l: string, rest: string)
    requires OneLine(l)
    ensures BreakAt(l + "\n" + rest) == |l|
  {
    var s := l + "\n" + rest;
    assert s[|l|] == '\n';
    if l != "" {
      BreakAfter(l[1..], rest);
      assert s[1..] == l[1..] + "\n" + rest;
      assert s[0] == l[0];
    }
  }

  lemma SplitFirst(l: string, rest: string)
    requires OneLine(l)
    ensures SplitLines(l + "\n" + rest) == [l] + SplitLines(rest)
  {
    hide BreakAt;
    BreakAfter(l, rest);
    var s := l + "\n" + rest;
    assert s[|l|] == '\n' && s[..|l|] == l && s[|l| + 1..] == rest;
  }

  lemma {:induction false} SplitUnlines(lines: seq<string>)
    requires AllOneLine(lines)
    ensures SplitLines(Unlines(lines)) == lines
  {
    hide SplitLines, OneLine;
    if lines == [] {
      SplitNothing();
    } else {
      SplitUnlines(lines[1..]);
      SplitFirst(lines[0], Unlines(lines[1..]));
    }
  }

  lemma SplitNothing()
    ensures SplitLines("") == []
  {
  }

  // ---------- reading one line ----------

  datatype Kind = Family | Machine | Date | Url | Login | Password | Other

  function KeyKind(key: string): Kind {
    if key in ["build", "stealer", "software"] then Family
    else if key in ["machineid", "machine id", "hwid", "pc"] then Machine
    else if key in ["date", "log date", "install date"] then Date
    else if key in ["url", "host", "soft"] then Url
    else if key in ["login", "username", "user", "email", "user name"] then Login
    else if key in ["password", "pass", "passwd"] then Password
    else Other
  }

  datatype Reading = Blank | Ignored | Field(kind: Kind, val: string)

  function Read(raw: string): Reading {
    var line := Strip(raw);
    var i := IndexOf(line, ':');
    if line == "" then Blank
    else if i == |line| then Ignored
    else Field(KeyKind(Norm(line[..i])), Strip(line[i + 1..]))
  }

  // ---------- the scan ----------

  datatype Meta = Meta(family: string, machine: string, date: string)
  datatype Block = Block(url: string, login: string, password: string)
  datatype Found = Found(block: Block, line: nat)

  // Missing values are empty: the source tests them for truth only.
  datatype Scan = Scan(meta: Meta, cur: Block, line: nat, blocks: seq<Found>)

  const EMPTY := Block("", "", "")
  const START := Scan(Meta("", "", ""), EMPTY, 0, [])

  predicate Complete(b: Block) { b.login != "" && b.password != "" }

  function Flushed(s: Scan): seq<Found> {
    if Complete(s.cur) then s.blocks + [Found(s.cur, s.line)] else s.blocks
  }

  function Or(x: string, y: string): string { if x != "" then x else y }

  // Line i (counted from 0) updates the scan.
  function Step(s: Scan, raw: string, i: nat): Scan {
    var at := if s.line != 0 then s.line else i + 1;
    match Read(raw)
    case Blank => Scan(s.meta, EMPTY, 0, Flushed(s))
    case Ignored => s
    case Field(kind, v) =>
      match kind
      case Family => s.(meta := s.meta.(family := Or(s.meta.family, Lower(v))))
      case Machine => s.(meta := s.meta.(machine := Or(s.meta.machine, v)))
      case Date => s.(meta := s.meta.(date := Or(s.meta.date, v)))
      case Url =>
        if Complete(s.cur) then Scan(s.meta, Block(v, "", ""), i + 1, Flushed(s))
        else s.(cur := s.cur.(url := v), line := at)
      case Login => s.(cur := s.cur.(login := v), line := at)
      case Password => s.(cur := s.cur.(password := v), line := at)
      case Other => s
  }

  // The scan after the first n lines.
  function ScanLines(lines: seq<string>, n: nat): Scan
    requires n <= |lines|
  {
    if n == 0 then START else Step(ScanLines(lines, n - 1), lines[n - 1], n - 1)
  }

  lemma ScanNext(lines: seq<string>, n: nat)
    requires n < |lines|
    ensures ScanLines(lines, n + 1) == Step(ScanLines(lines, n), lines[n], n)
  {
    hide Step;
  }

  lemma ScanStart(lines: seq<string>)
    ensures ScanLines(lines, 0) == START
  {
  }

  function Blocks(lines: seq<string>): seq<Found> { Flushed(ScanLines(lines, |lines|)) }

  // ---------- records ----------

  datatype Record =
    | Error(line: nat)
    | Credential(email: string, password: string, url: string, family: string, date: string, machine: Option<Digest>,
        line: nat)

  function MachineHash(machine: string): Option<Digest> {
    if machine == "" then None else Some(Sha256("mid:" + Norm(machine)))
  }

  function RecordOf(f: Found, m: Meta): Record {
    if '@' !in f.block.login then Error(f.line)
    else Credential(Norm(f.block.login), f.block.password, f.block.url, m.family, m.date, MachineHash(m.machine),
        f.line)
  }

  function RecordsOf(fs: seq<Found>, m: Meta): (r: seq<Record>)
    ensures |r| == |fs| && forall k :: 0 <= k < |fs| ==> r[k] == RecordOf(fs[k], m)
  {
    seq(|fs|, k requires 0 <= k < |fs| => RecordOf(fs[k], m))
  }

  function Parsed(lines: seq<string>): seq<Record> {
    RecordsOf(Blocks(lines), ScanLines(lines, |lines|).meta)
  }

  method ParseStealerLog(text: string) returns (records: seq<Record>)
    ensures records == Parsed(SplitLines(text))
  {
    hide ScanLines, Read, Norm;
    var lines := SplitLines(text);
    ScanStart(lines);
    var meta, cur, curLine: nat, blocks := Meta("", "", ""), EMPTY, 0, [];
    for i := 0 to |lines|
      invariant Scan(meta, cur, curLine, blocks) == ScanLines(lines, i)
    {
      ScanNext(lines, i);
      var reading := Read(lines[i]);
      if reading.Blank? {
        if Complete(cur) { blocks := blocks + [Found(cur, curLine)]; }
        cur, curLine := EMPTY, 0;
      } else if reading.Field? {
        var v := reading.val;
        match reading.kind
        case Family => meta := meta.(family := Or(meta.family, Lower(v)));
        case Machine => meta := meta.(machine := Or(meta.machine, v));
        case Date => meta := meta.(date := Or(meta.date, v));
        case Url =>
          if Complete(cur) {
            blocks := blocks + [Found(cur, curLine)];
            cur, curLine := EMPTY, 0;
          }
          cur, curLine := cur.(url := v), if curLine != 0 then curLine else i + 1;
        case Login => cur, curLine := cur.(login := v), if curLine != 0 then curLine else i + 1;
        case Password => cur, curLine := cur.(password := v), if curLine != 0 then curLine else i + 1;
        case Other =>
      }
    }
    if Complete(cur) { blocks := blocks + [Found(cur, curLine)]; }
    records := [];
    for k := 0 to |blocks|
      invariant records == RecordsOf(blocks, meta)[..k]
    {
      records := records + [RecordOf(blocks[k], meta)];
    }
  }

  // ---------- a blank line keeps what is before and after it apart ----------

  function Shift(fs: seq<Found>, d: nat): (r: seq<Found>)
    ensures |r| == |fs| && forall k :: 0 <= k < |fs| ==> r[k] == Found(fs[k].block, fs[k].line + d)
  {
    seq(|fs|, k requires 0 <= k < |fs| => Found(fs[k].block, fs[k].line + d))
  }

  // s has found `before`, and since then what t found, d lines further down.
  predicate Continues(s: Scan, before: seq<Found>, t: Scan, d: nat) {
    && s.cur == t.cur
    && s.line == (if t.line == 0 then 0 else t.line + d)
    && s.blocks == before + Shift(t.blocks, d)
    && (t.line == 0 ==> t.cur == EMPTY)
  }

  lemma StepContinues(s: Scan, before: seq<Found>, t: Scan, d: nat, raw: string, i: nat)
    requires Continues(s, before, t, d)
    ensures Continues(Step(s, raw, d + i), before, Step(t, raw, i), d)
    ensures Flushed(s) == before + Shift(Flushed(t), d)
  {
    hide Read;
    if Complete(t.cur) {
      assert Shift(t.blocks + [Found(t.cur, t.line)], d) == Shift(t.blocks, d) + [Found(t.cur, t.line + d)];
    }
  }

  lemma {:induction false} ScanOfPrefix(a: seq<string>, b: seq<string>, n: nat)
    requires n <= |a|
    ensures ScanLines(a + b, n) == ScanLines(a, n)
    decreases n
  {
    hide Step;
    if n > 0 {
      ScanOfPrefix(a, b, n - 1);
      assert (a + b)[n - 1] == a[n - 1];
    }
  }

  lemma {:induction false} ScanOfSuffix(a: seq<string>, b: seq<string>, before: seq<Found>, m: nat, n: nat)
    requires m <= n <= |b| && Continues(ScanLines(a + b, |a| + m), before, ScanLines(b, m), |a|)
    ensures Continues(ScanLines(a + b, |a| + n), before, ScanLines(b, n), |a|)
    decreases n
  {
    hide ScanLines, Step, Continues;
    if m < n {
      ScanOfSuffix(a, b, before, m, n - 1);
      StepContinues(ScanLines(a + b, |a| + n - 1), before, ScanLines(b, n - 1), |a|, b[n - 1], n - 1);
      ScanNextOf(a, b, n - 1);
      ScanNext(b, n - 1);
    }
  }

  lemma ScanNextOf(a: seq<string>, b: seq<string>, k: nat)
    requires k < |b|
    ensures ScanLines(a + b, |a| + k + 1) == Step(ScanLines(a + b, |a| + k), b[k], |a| + k)
  {
    hide ScanLines, Step;
    ScanNext(a + b, |a| + k);
    assert (a + b)[|a| + k] == b[k];
  }

  // However malformed either side: no login, password or url crosses a blank line, none is lost.
  lemma BlankIsolates(a: seq<string>, blank: string, b: seq<string>)
    requires Read(blank).Blank?
    ensures Blocks(a + [blank] + b) == Blocks(a) + Shift(Blocks(b), |a| + 1)
  {
    hide ScanLines, Read, Step, Shift;
    var c := a + [blank];
    AfterBlank(a, blank);
    ScanOfPrefix(c, b, |c|);
    ScanStart(b);
    ScanOfSuffix(c, b, Blocks(a), 0, |b|);
    StepContinues(ScanLines(c + b, |c + b|), Blocks(a), ScanLines(b, |b|), |c|, blank, 0);
  }

  lemma AfterBlank(a: seq<string>, blank: string)
    requires Read(blank).Blank?
    ensures Continues(ScanLines(a + [blank], |a| + 1), Blocks(a), START, |a| + 1)
  {
    hide ScanLines, Read;
    var c := a + [blank];
    ScanOfPrefix(a, [blank], |a|);
    ScanNext(c, |a|);
    assert c[|a|] == blank;
  }

  // ---------- the round trip ----------

  // The lines show the block, then any number of blank lines.
  ghost predicate Shows(ls: seq<string>, b: Block) {
    && |ls| >= 3 && Complete(b)
    && Read(ls[0]) == Field(Url, b.url) && Read(ls[1]) == Field(Login, b.login)
        && Read(ls[2]) == Field(Password, b.password)
    && forall k :: 3 <= k < |ls| ==> Read(ls[k]).Blank?
  }

  ghost predicate IsHeader(lines: seq<string>) {
    forall k :: 0 <= k < |lines| ==> var r := Read(lines[k]); !r.Field? || r.kind !in {Url, Login, Password}
  }

  function Concat(parts: seq<seq<string>>): seq<string> {
    if parts == [] then [] else Concat(parts[..|parts| - 1]) + parts[|parts| - 1]
  }

  // Block k with the number of its first line.
  function Expected(head: nat, parts: seq<seq<string>>, blocks: seq<Block>): (r: seq<Found>)
    requires |parts| == |blocks|
    ensures |r| == |blocks| && forall k :: 0 <= k < |blocks| ==> r[k].block == blocks[k]
  {
    if parts == [] then []
    else
      var n := |parts| - 1;
      Expected(head, parts[..n], blocks[..n]) + [Found(blocks[n], head + |Concat(parts[..n])| + 1)]
  }

  predicate Idle(s: Scan) { if Complete(s.cur) then true else s.cur == EMPTY && s.line == 0 }

  lemma {:induction false} ScanHeader(lines: seq<string>, n: nat)
    requires IsHeader(lines) && n <= |lines|
    ensures var s := ScanLines(lines, n); Idle(s) && s.cur == EMPTY && s.line == 0 && s.blocks == [] && Flushed(s) == []
    decreases n
  {
    hide ScanLines, Read;
    ScanStart(lines);
    if n > 0 {
      ScanHeader(lines, n - 1);
      ScanNext(lines, n - 1);
    }
  }

  lemma {:induction false} ScanBlanks(lines: seq<string>, n: nat, m: nat)
    requires n <= m <= |lines| && Idle(ScanLines(lines, n)) && forall k :: n <= k < m ==> Read(lines[k]).Blank?
    ensures var s, t := ScanLines(lines, n), ScanLines(lines, m);
      Idle(t) && Flushed(t) == Flushed(s) && t.meta == s.meta
    decreases m
  {
    hide ScanLines, Read;
    if m > n {
      ScanBlanks(lines, n, m - 1);
      ScanNext(lines, m - 1);
    }
  }

  lemma ScanBlock(lines: seq<string>, n: nat, b: Block)
    requires n + 3 <= |lines| && Shows(lines[n..], b) && Idle(ScanLines(lines, n))
    ensures var s, t := ScanLines(lines, n), ScanLines(lines, |lines|);
      Idle(t) && Flushed(t) == Flushed(s) + [Found(b, n + 1)] && t.meta == s.meta
  {
    hide Read, ScanLines;
    ScanNext(lines, n);
    ScanNext(lines, n + 1);
    ScanNext(lines, n + 2);
    var ls := lines[n..];
    var s := ScanLines(lines, n);
    assert ls[0] == lines[n] && ls[1] == lines[n + 1] && ls[2] == lines[n + 2];
    assert ScanLines(lines, n + 1) == Scan(s.meta, Block(b.url, "", ""), n + 1, Flushed(s));
    assert ScanLines(lines, n + 2) == Scan(s.meta, Block(b.url, b.login, ""), n + 1, Flushed(s));
    assert ScanLines(lines, n + 3) == Scan(s.meta, b, n + 1, Flushed(s));
    forall k | n + 3 <= k < |lines|
      ensures Read(lines[k]).Blank?
    {
      assert lines[k] == ls[k - n];
    }
    ScanBlanks(lines, n + 3, |lines|);
  }

  lemma ScanPart(most: seq<string>, part: seq<string>, b: Block)
    requires Shows(part, b) && Idle(ScanLines(most, |most|))
    ensures var lines := most + part;
      var s, t := ScanLines(most, |most|), ScanLines(lines, |lines|);
      Idle(t) && Flushed(t) == Flushed(s) + [Found(b, |most| + 1)] && t.meta == s.meta
  {
    ShowsIsLong(part, b);
    hide Shows, ScanLines, Idle, Flushed;
    ScanOfPrefix(most, part, |most|);
    assert (most + part)[|most|..] == part;
    ScanBlock(most + part, |most|, b);
  }

  lemma ShowsIsLong(ls: seq<string>, b: Block)
    requires Shows(ls, b)
    ensures |ls| >= 3
  {
  }

  lemma {:induction false} ScanParts(header: seq<string>, parts: seq<seq<string>>, blocks: seq<Block>)
    requires IsHeader(header) && |parts| == |blocks| && forall k :: 0 <= k < |parts| ==> Shows(parts[k], blocks[k])
    ensures var lines := header + Concat(parts);
      var t := ScanLines(lines, |lines|);
      && Idle(t) && Flushed(t) == Expected(|header|, parts, blocks) && t.meta == ScanLines(header, |header|).meta
    decreases |parts|
  {
    hide Shows, ScanLines, IsHeader, Flushed, Idle;
    if parts == [] {
      ScanHeader(header, |header|);
      assert header + Concat(parts) == header;
    } else {
      var n := |parts| - 1;
      ScanParts(header, parts[..n], blocks[..n]);
      assert Shows(parts[n], blocks[n]);
      ScanPart(header + Concat(parts[..n]), parts[n], blocks[n]);
      assert header + Concat(parts) == header + Concat(parts[..n]) + parts[n];
    }
  }

  // The record carries the block's own login, password and url, and the metadata m.
  ghost predicate Matches(r: Record, b: Block, m: Meta) {
    && r.Credential?
    && r.email == Norm(b.login) && r.password == b.password && r.url == b.url
    && r.family == m.family && r.date == m.date && r.machine == MachineHash(m.machine)
  }

  // Lines that show blocks of email logins are parsed to exactly those blocks, in order, each with the header's
  // metadata.
  lemma BlocksReadBack(header: seq<string>, parts: seq<seq<string>>, blocks: seq<Block>)
    requires IsHeader(header) && |parts| == |blocks| && forall k :: 0 <= k < |parts| ==> Shows(parts[k], blocks[k])
    requires forall k :: 0 <= k < |blocks| ==> '@' in blocks[k].login
    ensures var records := Parsed(header + Concat(parts));
      var m := ScanLines(header, |header|).meta;
      |records| == |blocks| && forall k :: 0 <= k < |blocks| ==> Matches(records[k], blocks[k], m)
  {
    hide Shows, IsHeader, ScanLines, Norm, Idle, Concat;
    ScanParts(header, parts, blocks);
  }

  // ---------- printing ----------

  function Line(name: string, val: string): string { name + ":" + (" " + val) }

  ghost predicate Printable(s: string) { IsStripped(s) && OneLine(s) }

  ghost predicate IsLabel(name: string, kind: Kind) {
    name != "" && Printable(name) && ':' !in name && KeyKind(Lower(name)) == kind
  }

  lemma StripLine(name: string, val: string)
    requires name != "" && IsStripped(name) && IsStripped(val)
    ensures Strip(Line(name, val)) == if val == "" then name + ":" else Line(name, val)
  {
    var line := Line(name, val);
    assert line[0] == name[0];
    if val == "" {
      var peeled := name + ":";
      assert line[..|line| - 1] == peeled && line[|line| - 1] == ' ';
      assert peeled[0] == name[0] && peeled[|peeled| - 1] == ':';
      assert StripRight(line) == StripRight(peeled) == peeled;
    } else {
      assert line[|line| - 1] == val[|val| - 1];
    }
  }

  lemma CutAt(name: string, rest: string)
    requires ':' !in name
    ensures var s := name + ":" + rest; IndexOf(s, ':') == |name| && s[..|name|] == name && s[|name| + 1..] == rest
  {
    var s := name + ":" + rest;
    assert s[..|name|] == name && s[|name|] == ':';
    assert forall k :: 0 <= k < |name| ==> s[k] == name[k] && name[k] in name;
  }

  lemma ReadField(raw: string, name: string, rest: string)
    requires Strip(raw) == name + ":" + rest && ':' !in name
    ensures Read(raw) == Field(KeyKind(Norm(name)), Strip(rest))
  {
    hide Strip, IndexOf, Norm, KeyKind;
    CutAt(name, rest);
  }

  // A label and a value are read back from their line, also an empty value.
  lemma LineReads(name: string, val: string, kind: Kind)
    requires IsLabel(name, kind) && Printable(val)
    ensures Read(Line(name, val)) == Field(kind, val) && OneLine(Line(name, val))
  {
    hide KeyKind, Read, Strip, Lower;
    StripLine(name, val);
    StripOfStripped(name);
    StripSpace(val);
    var rest := if val == "" then "" else " " + val;
    assert name + ":" + "" == name + ":";
    ReadField(Line(name, val), name, rest);
  }

  lemma StripSpace(val: string)
    requires IsStripped(val)
    ensures Strip(" " + val) == val && Strip("") == ""
  {
    assert (" " + val)[1..] == val;
    if val != "" { assert StripLeft(val) == val; }
  }

  datatype Labels = Labels(family: string, machine: string, date: string, url: string, login: string, password: string)

  ghost predicate LabelsFit(l: Labels) {
    && IsLabel(l.family, Family) && IsLabel(l.machine, Machine) && IsLabel(l.date, Date)
    && IsLabel(l.url, Url) && IsLabel(l.login, Login) && IsLabel(l.password, Password)
  }

  lemma LabelFits(name: string, key: string, kind: Kind)
    requires name != "" && IsStripped(name) && ':' !in name && OneLine(name) && Lower(name) == key
        && KeyKind(key) == kind
    ensures IsLabel(name, kind)
  {
    hide KeyKind;
  }

  lemma HeaderKeys()
    ensures KeyKind("build") == Family && KeyKind("machineid") == Machine && KeyKind("date") == Date
  {
  }

  lemma BlockKeys()
    ensures KeyKind("url") == Url && KeyKind("login") == Login && KeyKind("password") == Password
  {
  }

  lemma UsualHeaderLabels()
    ensures IsLabel("Build", Family) && IsLabel("MachineID", Machine) && IsLabel("Date", Date)
  {
    hide KeyKind, IsLabel;
    HeaderKeys();
    LabelFits("Build", "build", Family);
    LabelFits("MachineID", "machineid", Machine);
    LabelFits("Date", "date", Date);
  }

  lemma UsualBlockLabels()
    ensures IsLabel("URL", Url) && IsLabel("Login", Login) && IsLabel("Password", Password)
  {
    hide KeyKind, IsLabel;
    BlockKeys();
    LabelFits("URL", "url", Url);
    LabelFits("Login", "login", Login);
    LabelFits("Password", "password", Password);
  }

  lemma UsualLabelsFit()
    ensures LabelsFit(Labels("Build", "MachineID", "Date", "URL", "Login", "Password"))
  {
    hide IsLabel;
    UsualHeaderLabels();
    UsualBlockLabels();
  }

  function PrintHeader(l: Labels, m: Meta): seq<string> {
    [Line(l.family, m.family), Line(l.machine, m.machine), Line(l.date, m.date)]
  }

  function PrintBlock(l: Labels, b: Block, gap: nat): seq<string> {
    [Line(l.url, b.url), Line(l.login, b.login), Line(l.password, b.password)] + seq(gap, _ => "")
  }

  ghost predicate WellFormed(b: Block) {
    Complete(b) && '@' in b.login && Printable(b.url) && Printable(b.login) && Printable(b.password)
  }

  lemma HeaderLines(h: seq<string>, m: Meta)
    requires |h| == 3 && Read(h[0]) == Field(Family, m.family) && Read(h[1]) == Field(Machine, m.machine)
        && Read(h[2]) == Field(Date, m.date)
    ensures IsHeader(h) && ScanLines(h, 3).meta == Meta(Lower(m.family), m.machine, m.date)
  {
    hide ScanLines, Read, Lower;
    ScanStart(h);
    ScanNext(h, 0);
    ScanNext(h, 1);
    ScanNext(h, 2);
  }

  lemma HeaderReads(l: Labels, m: Meta)
    requires LabelsFit(l) && Printable(m.family) && Printable(m.machine) && Printable(m.date)
    ensures var h := PrintHeader(l, m);
      && IsHeader(h) && AllOneLine(h)
      && ScanLines(h, |h|).meta == Meta(Lower(m.family), m.machine, m.date)
  {
    hide Read, Line, Printable, IsLabel, OneLine, ScanLines, Lower, IsHeader;
    LineReads(l.family, m.family, Family);
    LineReads(l.machine, m.machine, Machine);
    LineReads(l.date, m.date, Date);
    HeaderLines(PrintHeader(l, m), m);
  }

  lemma EmptyLine()
    ensures Read("").Blank? && OneLine("")
  {
  }

  lemma BlockReads(l: Labels, b: Block, gap: nat)
    requires LabelsFit(l) && WellFormed(b)
    ensures var ls := PrintBlock(l, b, gap); Shows(ls, b) && AllOneLine(ls)
  {
    hide Read, Line, Printable, IsLabel, OneLine;
    LineReads(l.url, b.url, Url);
    LineReads(l.login, b.login, Login);
    LineReads(l.password, b.password, Password);
    EmptyLine();
  }

  lemma {:induction false} ConcatOneLine(parts: seq<seq<string>>)
    requires forall k :: 0 <= k < |parts| ==> AllOneLine(parts[k])
    ensures AllOneLine(Concat(parts))
    decreases |parts|
  {
    hide OneLine;
    if parts != [] { ConcatOneLine(parts[..|parts| - 1]); }
  }

  function PrintLog(l: Labels, m: Meta, blocks: seq<Block>, gaps: seq<nat>): string
    requires |blocks| == |gaps|
  {
    Unlines(PrintHeader(l, m) + Concat(PrintBlocks(l, blocks, gaps)))
  }

  function PrintBlocks(l: Labels, blocks: seq<Block>, gaps: seq<nat>): seq<seq<string>>
    requires |blocks| == |gaps|
  {
    seq(|blocks|, k requires 0 <= k < |blocks| => PrintBlock(l, blocks[k], gaps[k]))
  }

  lemma PartsShow(l: Labels, blocks: seq<Block>, gaps: seq<nat>)
    requires LabelsFit(l) && |blocks| == |gaps| && forall k :: 0 <= k < |blocks| ==> WellFormed(blocks[k])
    ensures var parts := PrintBlocks(l, blocks, gaps);
      && |parts| == |blocks|
      && (forall k :: 0 <= k < |blocks| ==> Shows(parts[k], blocks[k]))
      && (forall k :: 0 <= k < |blocks| ==> AllOneLine(parts[k]))
  {
    hide Shows, PrintBlock, AllOneLine, LabelsFit, WellFormed;
    var parts := PrintBlocks(l, blocks, gaps);
    forall k | 0 <= k < |blocks|
      ensures Shows(parts[k], blocks[k]) && AllOneLine(parts[k])
    {
      BlockReads(l, blocks[k], gaps[k]);
    }
  }

  lemma PrintedLogSplits(l: Labels, m: Meta, blocks: seq<Block>, gaps: seq<nat>)
    requires LabelsFit(l) && Printable(m.family) && Printable(m.machine) && Printable(m.date)
    requires |blocks| == |gaps| && forall k :: 0 <= k < |blocks| ==> WellFormed(blocks[k])
    ensures SplitLines(PrintLog(l, m, blocks, gaps)) == PrintHeader(l, m) + Concat(PrintBlocks(l, blocks, gaps))
  {
    hide Concat, OneLine, PrintHeader, PrintBlocks, LabelsFit, WellFormed, SplitLines, Unlines, Printable, ScanLines,
        IsHeader;
    HeaderReads(l, m);
    PartsShow(l, blocks, gaps);
    ConcatOneLine(PrintBlocks(l, blocks, gaps));
    SplitUnlines(PrintHeader(l, m) + Concat(PrintBlocks(l, blocks, gaps)));
  }

  // The text of any header and any well-formed blocks, with any number of blank lines after each,
  // is parsed to exactly those blocks in order, each with the header's metadata.
  lemma PrintedLogReadsBack(l: Labels, m: Meta, blocks: seq<Block>, gaps: seq<nat>)
    requires LabelsFit(l) && Printable(m.family) && Printable(m.machine) && Printable(m.date)
    requires |blocks| == |gaps| && forall k :: 0 <= k < |blocks| ==> WellFormed(blocks[k])
    ensures var records := Parsed(SplitLines(PrintLog(l, m, blocks, gaps)));
      && |records| == |blocks|
      && forall k :: 0 <= k < |blocks| ==> Matches(records[k], blocks[k], Meta(Lower(m.family), m.machine, m.date))
  {
    PrintedLogSplits(l, m, blocks, gaps);
    HeaderReads(l, m);
    PartsShow(l, blocks, gaps);
    hide Shows, IsHeader, ScanLines, Concat, Parsed, PrintHeader, PrintBlocks, PrintLog, LabelsFit, Lower, SplitLines,
        Printable, Matches;
    hide AllOneLine;
    BlocksReadBack(PrintHeader(l, m), PrintBlocks(l, blocks, gaps), blocks);
  }

  // ---------- combolists ----------

  datatype Combo = Skipped | Malformed | Pair(email: string, password: string)

  function CutLine(line: string): Combo {
    var i := IndexOf(line, if ':' in line then ':' else ';');
    if i == |line| || '@' !in line[..i] then Malformed else Pair(Norm(line[..i]), line[i + 1..])
  }

  function ReadCombo(raw: string): Combo {
    var line := Strip(raw);
    if line == "" || line[0] == '#' then Skipped else CutLine(line)
  }

  lemma ReadIsCut(s: string)
    requires s != "" && IsStripped(s) && s[0] != '#'
    ensures ReadCombo(s) == CutLine(s)
  {
    hide CutLine, Strip;
    StripOfStripped(s);
  }

  lemma {:induction false} IndexIs(s: string, c: char, n: nat)
    requires n < |s| && s[n] == c && forall k :: 0 <= k < n ==> s[k] != c
    ensures IndexOf(s, c) == n
  {
    if n > 0 { IndexIs(s[1..], c, n - 1); }
  }

  // s is an email and a password around the separator at n.
  ghost predicate ComboLine(s: string, n: nat) {
    && n < |s| && IsStripped(s) && s[0] != '#' && (s[n] == ':' || s[n] == ';')
    && '@' in s[..n] && forall k :: 0 <= k < n ==> s[k] != ':' && s[k] != ';'
  }

  // email:password reads back for every password, email;password unless the password holds a colon.
  lemma ComboReadsBack(s: string, n: nat)
    requires ComboLine(s, n) && (s[n] == ':' || ':' !in s[n + 1..])
    ensures ReadCombo(s) == Pair(Norm(s[..n]), s[n + 1..])
  {
    hide Norm, IsStripped, ReadCombo, IndexOf;
    ReadIsCut(s);
    if s[n] == ';' {
      assert forall k :: n < k < |s| ==> s[k] == s[n + 1..][k - n - 1];
      assert ':' !in s;
    }
    IndexIs(s, s[n], n);
  }

  // Its first colon is then taken for the separator, and what it follows is lost from the password.
  lemma ColonInPasswordMisreads(s: string, n: nat, m: nat)
    requires ComboLine(s, n) && n < m < |s| && s[n] == ';' && s[m] == ':' && forall k :: n < k < m ==> s[k] != ':'
    ensures ReadCombo(s) == Pair(Norm(s[..m]), s[m + 1..])
  {
    hide Norm, IsStripped, ReadCombo, IndexOf;
    ReadIsCut(s);
    IndexIs(s, ':', m);
    assert s[..n] == s[..m][..n];
    assert ':' in s;
  }

  // email;password or email:password reads back exactly when the separator is a colon or the password holds none.
  lemma ComboReadsBackIff(s: string, n: nat)
    requires ComboLine(s, n)
    ensures ReadCombo(s) == Pair(Norm(s[..n]), s[n + 1..]) <==> s[n] == ':' || ':' !in s[n + 1..]
  {
    hide Norm, IsStripped, ReadCombo;
    if s[n] == ':' || ':' !in s[n + 1..] {
      ComboReadsBack(s, n);
    } else {
      var m := FirstColon(s, n + 1);
      ColonInPasswordMisreads(s, n, m);
    }
  }

  lemma FirstColon(s: string, from: nat) returns (m: nat)
    requires from <= |s| && ':' in s[from..]
    ensures from <= m < |s| && s[m] == ':' && forall k :: from <= k < m ==> s[k] != ':'
  {
    m := from + IndexOf(s[from..], ':');
    assert forall k :: from <= k < m ==> s[k] == s[from..][..m - from][k - from];
  }
}
