/**
 Promotion of an analysed event to a finding and a case
 (app/collection/intelligence_analysis.py), each analysis transaction one step.
 */
module Promotion {
  import opened Wrappers
  import opened Hashing
  import opened Tables
  import opened Sequences
  import opened Text
  import opened Numbers
  import Decimal
  import Q = LeaseQueue

  const MAX_EVENT_IDS := 50

  datatype FindingStatus = New | Triaging | Confirmed | Mitigated | Closed | FalsePositive | Duplicate

  datatype Finding = Finding(tenant: nat, key: Digest, risk: int, status: FindingStatus,
                             eventIds: seq<nat>, eventCount: nat, caseId: Option<nat>)

  // `finding` is the exposure_finding_id of the case's snapshot.
  datatype Case = Case(tenant: nat, finding: nat, promoted: bool, eventCount: nat)

  datatype Db = Db(events: seq<Event>, findings: seq<Finding>, cases: seq<Case>)

  // What the classifier and correlator return, as far as promotion reads it; `family` is the correlation
  // family or, for want of one, the threat category.
  datatype Classified = Classified(createFinding: bool, createCase: bool, target: Option<string>, family: string,
                           score: int, decision: string)

  // ---------- binding the target, clamping the score ----------

  function Clamp(score: int): (r: int)
    ensures 0 <= r <= 100 && (0 <= score <= 100 ==> r == score)
    ensures (score < 0 ==> r == 0) && (score > 100 ==> r == 100)
  {
    if score < 0 then 0 else if score > 100 then 100 else score
  }

  // A target outside the host's catalogue is dropped, and with it the promotion.
  function Bind(r: Classified, catalogue: set<string>): (b: Classified)
    ensures b.target.Some? ==> b.target.value in catalogue
    ensures r.target == None || r.target.value in catalogue ==> b == r.(score := b.score)
    ensures r.target != None && r.target.value !in catalogue ==> b.target == None && !b.createFinding && !b.createCase
    ensures b.family == r.family && b.decision == r.decision && b.score == Clamp(r.score)
  {
    var s := r.(score := Clamp(r.score));
    if s.target.Some? && s.target.value !in catalogue then
      s.(target := None, createFinding := false, createCase := false)
    else s
  }

  // ---------- the correlation key ----------

  function Time(e: Event): int { if e.occurredAt.Some? then e.occurredAt.value else e.createdAt }

  // The day stands for its ISO date.
  function Day(e: Event): int { Time(e) / 86400 }

  function RefOf(target: Option<string>): string {
    if target.Some? && target.value != "" then target.value else "unmatched"
  }

  function FamilyOf(r: Classified): string { if r.family != "" then r.family else "none" }

  function KeyMaterial(tenant: nat, ref: string, family: string, day: int): string {
    "intelligence-v1" + "|" + (Decimal.Str(tenant) + "|" + (ref + "|" + (family + "|" + Decimal.Str(day))))
  }

  function DedupKey(e: Event, r: Classified): Digest {
    Sha256(KeyMaterial(e.tenant, RefOf(r.target), FamilyOf(r), Day(e)))
  }

  // The key tells tenant, target, family and day apart, whatever the family is called.
  lemma KeyInjective(t1: nat, r1: string, f1: string, d1: int, t2: nat, r2: string, f2: string, d2: int)
    requires '|' !in r1 && '|' !in r2
    ensures KeyMaterial(t1, r1, f1, d1) == KeyMaterial(t2, r2, f2, d2) <==> (t1, r1, f1, d1) == (t2, r2, f2, d2)
  {
    if KeyMaterial(t1, r1, f1, d1) == KeyMaterial(t2, r2, f2, d2) {
      var d, e := Decimal.Str(d1), Decimal.Str(d2);
      var c1, c2 := f1 + "|" + d, f2 + "|" + e;
      var b1, b2 := r1 + "|" + c1, r2 + "|" + c2;
      var a1, a2 := Decimal.Str(t1) + "|" + b1, Decimal.Str(t2) + "|" + b2;
      CutUnique("intelligence-v1", a1, "intelligence-v1", a2, '|');
      CutUnique(Decimal.Str(t1), b1, Decimal.Str(t2), b2, '|');
      CutUnique(r1, c1, r2, c2, '|');
      CutLastUnique(f1, d, f2, e, '|');
      Decimal.StrInjective(t1, t2);
      Decimal.StrInjective(d1, d2);
    }
  }

  // How the key names a target and a family, and the UTC day of an event: days begin 86400 seconds apart.
  ghost predicate Named(target: Option<string>, name: string) {
    name == if target == None || target == Some("") then "unmatched" else target.value
  }

  ghost predicate OnDay(e: Event, day: int) {
    var at := if e.occurredAt == None then e.createdAt else e.occurredAt.value;
    86400 * day <= at < 86400 * (day + 1)
  }

  // The tenants, the targets (absent and empty both unmatched), the families (empty as none) and the days agree.
  ghost predicate SameCorrelation(e: Event, r: Classified, f: Event, q: Classified) {
    && e.tenant == f.tenant
    && (exists name :: Named(r.target, name) && Named(q.target, name))
    && (r.family == q.family || {r.family, q.family} == {"", "none"})
    && (exists day :: OnDay(e, day) && OnDay(f, day))
  }

  lemma DayIs(e: Event, day: int)
    ensures OnDay(e, day) <==> Day(e) == day
  {
  }

  // Two results have one correlation key exactly when tenant, target, family and day agree.
  lemma DedupKeyIff(e: Event, r: Classified, f: Event, q: Classified)
    requires r.target.Some? ==> '|' !in r.target.value
    requires q.target.Some? ==> '|' !in q.target.value
    ensures DedupKey(e, r) == DedupKey(f, q) <==> SameCorrelation(e, r, f, q)
  {
    hide KeyMaterial, Day, OnDay;
    KeyInjective(e.tenant, RefOf(r.target), FamilyOf(r), Day(e), f.tenant, RefOf(q.target), FamilyOf(q), Day(f));
    DayIs(e, Day(e));
    DayIs(f, Day(e));
    assert Named(r.target, RefOf(r.target)) && Named(q.target, RefOf(q.target));
    if SameCorrelation(e, r, f, q) {
      var day :| OnDay(e, day) && OnDay(f, day);
      DayIs(e, day);
      DayIs(f, day);
    }
    FamiliesAgree(r, q);
  }

  lemma FamiliesAgree(r: Classified, q: Classified)
    ensures FamilyOf(r) == FamilyOf(q) <==> r.family == q.family || {r.family, q.family} == {"", "none"}
  {
    var pair := {r.family, q.family};
    assert r.family in pair && q.family in pair;
  }

  // ---------- the detail's event ids ----------

  function LastIds(ids: seq<nat>): seq<nat> {
    if |ids| <= MAX_EVENT_IDS then ids else ids[|ids| - MAX_EVENT_IDS..]
  }

  function DetailIds(previous: seq<nat>, event: nat): seq<nat> { LastIds(FirstSeen(previous + [event])) }

  // ---------- context ----------

  datatype Window = Window(seconds: nat, maxEvents: nat)

  predicate InWindow(events: seq<Event>, e: nat, w: Window, j: nat)
    requires e < |events|
  {
    && j < e && events[j].tenant == events[e].tenant && events[j].source == events[e].source
    && !events[j].purged && !events[j].isControl
    && events[j].state != Control && events[j].state != Rejected && events[j].state != DeadLetter
    && Time(events[e]) - w.seconds <= Time(events[j]) <= Time(events[e])
  }

  // ids in ascending order of (time, id); i comes last among the ids.
  function InsertByTime(events: seq<Event>, ids: seq<nat>, i: nat): (r: seq<nat>)
    requires i < |events| && forall k :: 0 <= k < |ids| ==> ids[k] < |events|
    ensures forall x :: x in r <==> x in ids || x == i
    ensures i !in ids && Distinct(ids) ==> Distinct(r)
    ensures forall k :: 0 <= k < |r| ==> r[k] < |events|
  {
    if ids == [] || Time(events[ids[|ids| - 1]]) <= Time(events[i]) then ids + [i]
    else
      var n := |ids| - 1;
      var r := InsertByTime(events, ids[..n], i);
      assert ids == ids[..n] + [ids[n]];
      assert Distinct(ids) ==> ids[n] !in ids[..n];
      assert Distinct(ids) ==> Distinct(ids[..n]);
      r + [ids[n]]
  }

  function WindowIds(events: seq<Event>, e: nat, w: Window, n: nat): (r: seq<nat>)
    requires n <= e < |events|
    ensures Distinct(r) && forall j: nat :: j in r <==> j < n && InWindow(events, e, w, j)
    ensures forall k :: 0 <= k < |r| ==> r[k] < |events|
  {
    if n == 0 then []
    else
      var r := WindowIds(events, e, w, n - 1);
      if InWindow(events, e, w, n - 1) then InsertByTime(events, r, n - 1) else r
  }

  // The latest maxEvents of the window, oldest first.
  function RecentContext(events: seq<Event>, e: nat, w: Window): (r: seq<nat>)
    requires e < |events|
    ensures Distinct(r) && |r| <= w.maxEvents && forall j :: j in r ==> InWindow(events, e, w, j)
  {
    var all := WindowIds(events, e, w, e);
    var r := if |all| <= w.maxEvents then all else all[|all| - w.maxEvents..];
    assert forall j :: j in r ==> j in all;
    r
  }

  // Earlier in time, or at the same time with the smaller id.
  predicate Earlier(events: seq<Event>, i: nat, j: nat)
    requires i < |events| && j < |events|
  {
    var t := if events[i].occurredAt == None then events[i].createdAt else events[i].occurredAt.value;
    var u := if events[j].occurredAt == None then events[j].createdAt else events[j].occurredAt.value;
    t < u || (t == u && i < j)
  }

  ghost predicate OldestFirst(events: seq<Event>, ids: seq<nat>) {
    && (forall k :: 0 <= k < |ids| ==> ids[k] < |events|)
    && (forall k, l :: 0 <= k < l < |ids| ==> Earlier(events, ids[k], ids[l]))
  }

  // What may be context of event e: an earlier row of its tenant and source, neither purged nor control, rejected or
  // dead-lettered, no later than e and no older than the window.
  predicate IsContext(events: seq<Event>, e: nat, seconds: nat, j: nat)
    requires e < |events|
  {
    && j < e && events[j].tenant == events[e].tenant && events[j].source == events[e].source
    && !events[j].purged && !events[j].isControl
    && events[j].state in {Normalized, Analyzing, Analyzed, Failed}
    && var t := if events[j].occurredAt == None then events[j].createdAt else events[j].occurredAt.value;
    var u := if events[e].occurredAt == None then events[e].createdAt else events[e].occurredAt.value;
    u - seconds <= t <= u
  }

  lemma {:induction false} InsertKeepsOrder(events: seq<Event>, ids: seq<nat>, i: nat)
    requires i < |events| && OldestFirst(events, ids) && forall k :: 0 <= k < |ids| ==> ids[k] < i
    ensures OldestFirst(events, InsertByTime(events, ids, i))
    decreases |ids|
  {
    if ids != [] {
      var n := |ids| - 1;
      if Time(events[ids[n]]) <= Time(events[i]) {
        assert forall k :: 0 <= k < n ==> Earlier(events, ids[k], ids[n]);
      } else {
        InsertKeepsOrder(events, ids[..n], i);
        var r := InsertByTime(events, ids[..n], i);
        assert forall k :: 0 <= k < |r| ==> r[k] in r;
        assert forall x :: x in ids[..n] ==> Earlier(events, x, ids[n]);
      }
    }
  }

  lemma {:induction false} WindowOrder(events: seq<Event>, e: nat, w: Window, n: nat)
    requires n <= e < |events|
    ensures OldestFirst(events, WindowIds(events, e, w, n))
    decreases n
  {
    hide InsertByTime, InWindow;
    if n > 0 {
      WindowOrder(events, e, w, n - 1);
      var r := WindowIds(events, e, w, n - 1);
      assert forall k :: 0 <= k < |r| ==> r[k] in r;
      if InWindow(events, e, w, n - 1) { InsertKeepsOrder(events, r, n - 1); }
    }
  }

  lemma WindowIsContext(events: seq<Event>, e: nat, w: Window, j: nat)
    requires e < |events|
    ensures InWindow(events, e, w, j) <==> IsContext(events, e, w.seconds, j)
  {
  }

  // The last of the ids, all of which are in order.
  lemma LastAreLatest(events: seq<Event>, all: seq<nat>, d: nat, j: nat)
    requires OldestFirst(events, all) && d <= |all| && j in all
    ensures OldestFirst(events, all[d..])
    ensures j !in all[d..] ==>
      d > 0 && forall x :: x in all[d..] ==> j < |events| && x < |events| && Earlier(events, j, x)
  {
    var r := all[d..];
    var k :| 0 <= k < |all| && all[k] == j;
    assert forall l :: 0 <= l < |r| ==> r[l] == all[d + l];
    assert k >= d ==> r[k - d] == j;
  }

  lemma LastInOrder(events: seq<Event>, all: seq<nat>, d: nat)
    requires OldestFirst(events, all) && d <= |all|
    ensures OldestFirst(events, all[d..])
  {
    var r := all[d..];
    assert forall l :: 0 <= l < |r| ==> r[l] == all[d + l];
  }

  // The context is the latest of what may be, oldest first, up to the number allowed.
  lemma ContextIsLatest(events: seq<Event>, e: nat, w: Window)
    requires e < |events|
    ensures var r := RecentContext(events, e, w);
      && OldestFirst(events, r)
      && (forall j: nat :: j in r ==> IsContext(events, e, w.seconds, j))
      && (forall j: nat :: IsContext(events, e, w.seconds, j) && j !in r ==>
            |r| == w.maxEvents && forall x :: x in r ==> x < |events| && Earlier(events, j, x))
  {
    WindowOrder(events, e, w, e);
    hide WindowIds, InWindow, IsContext, Earlier, OldestFirst;
    var all, r := WindowIds(events, e, w, e), RecentContext(events, e, w);
    var d := |all| - |r|;
    assert r == all[d..];
    LastInOrder(events, all, d);
    forall j: nat
      ensures InWindow(events, e, w, j) <==> IsContext(events, e, w.seconds, j)
    {
      WindowIsContext(events, e, w, j);
    }
    forall j: nat | IsContext(events, e, w.seconds, j) && j !in r
      ensures |r| == w.maxEvents && forall x :: x in r ==> x < |events| && Earlier(events, j, x)
    {
      IsContextIsEarlier(events, e, w.seconds, j);
      LastAreLatest(events, all, d, j);
    }
  }

  lemma IsContextIsEarlier(events: seq<Event>, e: nat, seconds: nat, j: nat)
    requires e < |events| && IsContext(events, e, seconds, j)
    ensures j < e
  {
  }

  const LINKABLE: set<string> := {"monitored_target_mention", "claimed_access", "credential_market_activity"}

  predicate Linkable(row: Event, target: string, finding: nat, c: Option<nat>) {
    && row.analysis.Some? && row.analysis.value.decision in LINKABLE && row.analysis.value.target == Some(target)
    && (row.finding.None? || row.finding.value == finding)
    && (c.Some? ==> row.caseId.None? || row.caseId == c)
  }

  function LinkedRow(row: Event, finding: nat, c: Option<nat>): Event
    requires row.analysis.Some?
  {
    row.(finding := Some(finding), caseId := c, analysis := Some(row.analysis.value.(fromContext := true)))
  }

  predicate Links(r: Classified) { r.family == "credential_exposure" && r.target.Some? && r.target.value != "" }

  // Rows and linked ids after the first n context events.
  function Link(events: seq<Event>, ctx: seq<nat>, n: nat, r: Classified, finding: nat, c: Option<nat>)
    : (p: (seq<Event>, seq<nat>))
    requires n <= |ctx| && forall k :: 0 <= k < |ctx| ==> ctx[k] < |events|
    ensures |p.0| == |events|
  {
    if n == 0 || !Links(r) then (events, [])
    else
      var (rows, linked) := Link(events, ctx, n - 1, r, finding, c);
      var i := ctx[n - 1];
      if Linkable(rows[i], r.target.value, finding, c) then (rows[i := LinkedRow(rows[i], finding, c)], linked + [i])
      else (rows, linked)
  }

  // ---------- promotion ----------

  function FindFinding(fs: seq<Finding>, tenant: nat, key: Digest, n: nat): (r: Option<nat>)
    requires n <= |fs|
    ensures r.Some? ==> r.value < n && fs[r.value].tenant == tenant && fs[r.value].key == key
    ensures r.None? ==> forall i :: 0 <= i < n ==> fs[i].tenant != tenant || fs[i].key != key
  {
    if n == 0 then None
    else if fs[n - 1].tenant == tenant && fs[n - 1].key == key then Some(n - 1)
    else FindFinding(fs, tenant, key, n - 1)
  }

  // The first case, by id, whose snapshot names the finding.
  function FindCase(cs: seq<Case>, tenant: nat, finding: nat, n: nat): (r: Option<nat>)
    requires n <= |cs|
    ensures r.Some? ==> n <= |cs| && r.value < |cs| && cs[r.value].tenant == tenant && cs[r.value].finding == finding
    ensures r.None? ==> forall i :: |cs| - n <= i < |cs| ==> cs[i].tenant != tenant || cs[i].finding != finding
    ensures r.Some? ==> forall i :: |cs| - n <= i < r.value ==> cs[i].tenant != tenant || cs[i].finding != finding
  {
    if n == 0 then None
    else
      var i := |cs| - n;
      if cs[i].tenant == tenant && cs[i].finding == finding then Some(i) else FindCase(cs, tenant, finding, n - 1)
  }

  // The finding found or created, before its detail is rebuilt.
  function Upsert(fs: seq<Finding>, tenant: nat, key: Digest, score: int): (p: (seq<Finding>, nat))
    ensures p.1 < |p.0| && p.0[p.1].tenant == tenant && p.0[p.1].key == key
  {
    match FindFinding(fs, tenant, key, |fs|)
    case None => (fs + [Finding(tenant, key, score, New, [], 0, None)], |fs|)
    case Some(i) =>
      var f := fs[i];
      (fs[i := f.(risk := Max(f.risk, score), status := if f.status == Duplicate then New else f.status)], i)
  }

  function WithDetail(f: Finding, ids: seq<nat>, c: Option<nat>): Finding {
    f.(eventIds := ids, eventCount := |ids|, caseId := c)
  }

  function OpenCase(cs: seq<Case>, tenant: nat, finding: nat, create: bool): (p: (seq<Case>, Option<nat>))
    ensures p.1.Some? ==> p.1.value < |p.0| && p.0[p.1.value].tenant == tenant && p.0[p.1.value].finding == finding
  {
    var found := FindCase(cs, tenant, finding, |cs|);
    if create && found.None? then (cs + [Case(tenant, finding, true, 0)], Some(|cs|)) else (cs, found)
  }

  function Promote(db: Db, e: nat, r: Classified, ctx: seq<nat>): (p: (Db, Option<nat>, Option<nat>))
    requires e < |db.events| && forall k :: 0 <= k < |ctx| ==> ctx[k] < |db.events|
    ensures |p.0.events| == |db.events|
  {
    if !r.createFinding then (db, None, None)
    else
      var tenant := db.events[e].tenant;
      var (fs, f) := Upsert(db.findings, tenant, DedupKey(db.events[e], r), r.score);
      var ids := DetailIds(fs[f].eventIds, e);
      var (cs, c) := OpenCase(db.cases, tenant, f, r.createCase);
      var (rows, linked) := Link(db.events, ctx, |ctx|, r, f, c);
      var ids2 := DetailIds(ids + linked, e);
      var cs2 := if c.Some? then cs[c.value := cs[c.value].(eventCount := |ids2|)] else cs;
      (Db(rows[e := rows[e].(finding := Some(f), caseId := c)], fs[f := WithDetail(fs[f], ids2, c)], cs2), Some(f), c)
  }

  // ---------- the analysis transaction ----------

  const WORKER := "intelligence-analysis"

  datatype Outcome = NotReady | RolledBack | Done(finding: Option<nat>, caseId: Option<nat>)

  function Completed(row: Event, r: Classified): Event {
    row.(state := Analyzed, analysis := Some(Analysis(r.decision, r.target, false)), lockedBy := None, lockedAt := None)
  }

  // Taking up, promoting and completing event e: all of it, or (`raises`) none of it.
  function AnalyseOnce(db: Db, e: nat, now: int, g: Q.Settings, raw: Classified, catalogue: set<string>, w: Window,
      raises: bool)
    : (p: (Db, Outcome))
  {
    if e >= |db.events| || !Q.Ready(db.events[e], now, g) then (db, NotReady)
    else if raises then (db, RolledBack)
    else
      var leased := db.(events := db.events[e := Q.Leased(db.events[e], WORKER, now)]);
      var r := Bind(raw, catalogue);
      var (after, f, c) := Promote(leased, e, r, RecentContext(leased.events, e, w));
      (after.(events := after.events[e := Completed(after.events[e], r)]), Done(f, c))
  }

  class Intelligence {
    var events: seq<Event>
    var findings: seq<Finding>
    var cases: seq<Case>

    ghost function Abs(): Db reads this { Db(events, findings, cases) }

    constructor (db: Db)
      ensures Abs() == db
    {
      events, findings, cases := db.events, db.findings, db.cases;
    }

    method FindCaseForExposure(tenant: nat, finding: nat) returns (r: Option<nat>)
      ensures r == FindCase(cases, tenant, finding, |cases|)
    {
      for i := 0 to |cases|
        invariant FindCase(cases, tenant, finding, |cases|) == FindCase(cases, tenant, finding, |cases| - i)
      {
        if cases[i].tenant == tenant && cases[i].finding == finding { return Some(i); }
      }
      return None;
    }

    method LinkContextEvents(ctx: seq<nat>, r: Classified, finding: nat, c: Option<nat>) returns (linked: seq<nat>)
      requires forall k :: 0 <= k < |ctx| ==> ctx[k] < |events|
      modifies this`events
      ensures (events, linked) == Link(old(events), ctx, |ctx|, r, finding, c)
    {
      linked := [];
      if !Links(r) { return; }
      for n := 0 to |ctx|
        invariant (events, linked) == Link(old(events), ctx, n, r, finding, c)
      {
        var i := ctx[n];
        if Linkable(events[i], r.target.value, finding, c) {
          events := events[i := LinkedRow(events[i], finding, c)];
          linked := linked + [i];
        }
      }
    }

    method PromoteEvent(e: nat, r: Classified, ctx: seq<nat>) returns (finding: Option<nat>, caseId: Option<nat>)
      requires e < |events| && forall k :: 0 <= k < |ctx| ==> ctx[k] < |events|
      modifies this
      ensures (Abs(), finding, caseId) == Promote(old(Abs()), e, r, ctx)
    {
      if !r.createFinding { return None, None; }
      hide Link, FindCase, FindFinding, DetailIds;
      var tenant, key := events[e].tenant, DedupKey(events[e], r);
      var found := FindFinding(findings, tenant, key, |findings|);
      var f: nat;
      if found.None? {
        f := |findings|;
        findings := findings + [Finding(tenant, key, r.score, New, [], 0, None)];
      } else {
        f := found.value;
        var old_ := findings[f];
        findings := findings[f := old_.(risk := Max(old_.risk, r.score),
                                        status := if old_.status == Duplicate then New else old_.status)];
      }
      assert (findings, f) == Upsert(old(findings), tenant, key, r.score);
      var ids := DetailIds(findings[f].eventIds, e);
      var c := FindCaseForExposure(tenant, f);
      if r.createCase && c.None? {
        c := Some(|cases|);
        cases := cases + [Case(tenant, f, true, 0)];
      }
      assert (cases, c) == OpenCase(old(cases), tenant, f, r.createCase);
      var linked := LinkContextEvents(ctx, r, f, c);
      var ids2 := DetailIds(ids + linked, e);
      findings := findings[f := WithDetail(findings[f], ids2, c)];
      if c.Some? {
        cases := cases[c.value := cases[c.value].(eventCount := |ids2|)];
      }
      events := events[e := events[e].(finding := Some(f), caseId := c)];
      return Some(f), c;
    }

    method AnalyzeEvent(e: nat, now: int, g: Q.Settings, raw: Classified, catalogue: set<string>, w: Window,
        raises: bool)
      returns (out: Outcome)
      modifies this
      ensures (Abs(), out) == AnalyseOnce(old(Abs()), e, now, g, raw, catalogue, w, raises)
    {
      if e >= |events| || !Q.Ready(events[e], now, g) { return NotReady; }
      if raises { return RolledBack; }
      hide Promote, RecentContext;
      events := events[e := Q.Leased(events[e], WORKER, now)];
      var ctx := RecentContext(events, e, w);
      var r := Bind(raw, catalogue);
      assert forall k :: 0 <= k < |ctx| ==> ctx[k] in ctx;
      var f, c := PromoteEvent(e, r, ctx);
      events := events[e := Completed(events[e], r)];
      return Done(f, c);
    }
  }
}
