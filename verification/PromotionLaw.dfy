/** What one analysis transaction does to its event, the context, the finding and the case. */
module PromotionLaw {
  import opened Wrappers
  import opened Hashing
  import opened Tables
  import opened Sequences
  import opened Promotion
  import Q = LeaseQueue

  // ---------- linking the context ----------

  // A row of the context goes with the promotion: credential exposure of a named target, the row analysed as
  // naming that very target, and of no other finding and no other case.
  predicate MayLink(row: Event, r: Classified, f: nat, c: Option<nat>) {
    && r.family == "credential_exposure" && r.target != None && r.target != Some("")
    && row.analysis != None && row.analysis.value.target == r.target
    && (|| row.analysis.value.decision == "monitored_target_mention"
        || row.analysis.value.decision == "claimed_access"
        || row.analysis.value.decision == "credential_market_activity")
    && (row.finding == None || row.finding == Some(f))
    && (c == None || row.caseId == None || row.caseId == c)
  }

  lemma MayLinkIs(row: Event, r: Classified, f: nat, c: Option<nat>)
    ensures MayLink(row, r, f, c) <==> Links(r) && Linkable(row, r.target.value, f, c)
  {
  }

  // A row before and after the linking.
  predicate LinkedAs(row: Event, was: Event, linked: bool, f: nat, c: Option<nat>) {
    if linked then
      && was.analysis.Some?
      && row == was.(finding := Some(f), caseId := c, analysis := Some(was.analysis.value.(fromContext := true)))
    else row == was
  }

  // Exactly those rows of the context are linked, each once and in the context's order, and no other row changes.
  lemma {:induction false} LinkIff(es: seq<Event>, ctx: seq<nat>, n: nat, r: Classified, f: nat, c: Option<nat>)
    requires n <= |ctx| && (forall k :: 0 <= k < |ctx| ==> ctx[k] < |es|) && Distinct(ctx)
    ensures var (rows, linked) := Link(es, ctx, n, r, f, c);
      && (forall i: nat :: i in linked <==> i in ctx[..n] && i < |es| && MayLink(es[i], r, f, c))
      && (forall i :: 0 <= i < |es| ==> LinkedAs(rows[i], es[i], i in linked, f, c))
      && (OldestFirst(es, ctx) ==> OldestFirst(es, linked))
    decreases n
  {
    hide MayLink, Links, Earlier;
    if n > 0 {
      LinkIff(es, ctx, n - 1, r, f, c);
      var (rows, linked) := Link(es, ctx, n - 1, r, f, c);
      var i := ctx[n - 1];
      assert ctx[..n] == ctx[..n - 1] + [i];
      assert i !in ctx[..n - 1];
      assert rows[i] == es[i];
      assert i !in linked;
      MayLinkIs(es[i], r, f, c);
      OneMoreLinked(es, rows, linked, i, f, c);
      if OldestFirst(es, ctx) { LaterIsLast(es, ctx, n, linked); }
    }
    if !Links(r) {
      NothingLinks(es, r, f, c);
      assert Link(es, ctx, n, r, f, c) == (es, []);
    }
  }

  lemma OneMoreLinked(es: seq<Event>, rows: seq<Event>, linked: seq<nat>, i: nat, f: nat, c: Option<nat>)
    requires |rows| == |es| && i < |es| && i !in linked
    requires forall j :: 0 <= j < |es| ==> LinkedAs(rows[j], es[j], j in linked, f, c)
    ensures rows[i].analysis.Some? ==>
      forall j :: 0 <= j < |es| ==>
        LinkedAs(rows[i := LinkedRow(rows[i], f, c)][j], es[j], j in linked + [i], f, c)
  {
    if rows[i].analysis.Some? {
      forall j | 0 <= j < |es|
        ensures LinkedAs(rows[i := LinkedRow(rows[i], f, c)][j], es[j], j in linked + [i], f, c)
      {
        assert LinkedAs(rows[j], es[j], j in linked, f, c);
        assert j in linked + [i] <==> j in linked || j == i;
      }
    }
  }

  lemma NothingLinks(es: seq<Event>, r: Classified, f: nat, c: Option<nat>)
    requires !Links(r)
    ensures forall i :: 0 <= i < |es| ==> !MayLink(es[i], r, f, c)
  {
  }

  lemma LaterIsLast(es: seq<Event>, ctx: seq<nat>, n: nat, linked: seq<nat>)
    requires 0 < n <= |ctx| && OldestFirst(es, ctx) && OldestFirst(es, linked)
    requires forall i: nat :: i in linked ==> i in ctx[..n - 1]
    ensures OldestFirst(es, linked + [ctx[n - 1]])
  {
    hide Earlier;
    forall k | 0 <= k < |linked|
      ensures Earlier(es, linked[k], ctx[n - 1])
    {
      assert linked[k] in linked;
      assert linked[k] in ctx[..n - 1];
    }
  }

  // ---------- the finding ----------

  ghost predicate Names(f: Finding, e: Event, r: Classified) { f.tenant == e.tenant && f.key == DedupKey(e, r) }

  ghost predicate Known(fs: seq<Finding>, e: Event, r: Classified) { exists i :: 0 <= i < |fs| && Names(fs[i], e, r) }

  // A promotion raises the finding that its key names, or creates it; a duplicate is opened again.  No other finding
  // changes.
  lemma FindingIs(db: Db, e: nat, r: Classified, ctx: seq<nat>)
    requires e < |db.events| && r.createFinding && forall k :: 0 <= k < |ctx| ==> ctx[k] < |db.events|
    ensures var (after, found, c) := Promote(db, e, r, ctx);
      && found.Some? && found.value < |after.findings| && Names(after.findings[found.value], db.events[e], r)
      && (forall i :: 0 <= i < |db.findings| && i != found.value ==>
            i < |after.findings| && after.findings[i] == db.findings[i])
      && var f := after.findings[found.value];
      && f.caseId == c && f.eventCount == |f.eventIds|
      && if Known(db.findings, db.events[e], r) then
           && |after.findings| == |db.findings|
           && var was := db.findings[found.value];
           && f.risk >= was.risk && f.risk >= r.score && (f.risk == was.risk || f.risk == r.score)
           && f.status == if was.status == Duplicate then New else was.status
         else
           && |after.findings| == |db.findings| + 1 && found.value == |db.findings|
           && f.risk == r.score && f.status == New
  {
    hide Link, DetailIds, FindFinding, FindCase, DedupKey, OpenCase;
    assert FindFinding(db.findings, db.events[e].tenant, DedupKey(db.events[e], r), |db.findings|).Some?
      ==> Known(db.findings, db.events[e], r);
  }

  // ---------- the case ----------

  predicate IsCaseOf(c: Case, tenant: nat, f: nat) { c.tenant == tenant && c.finding == f }

  ghost predicate HasCase(cs: seq<Case>, tenant: nat, f: nat) {
    exists i :: 0 <= i < |cs| && IsCaseOf(cs[i], tenant, f)
  }

  // The case of a promotion is the finding's first one, or one opened for it when the result asks for a case.  It
  // counts the listed events; no other case changes.
  lemma CaseIs(db: Db, e: nat, r: Classified, ctx: seq<nat>)
    requires e < |db.events| && r.createFinding && forall k :: 0 <= k < |ctx| ==> ctx[k] < |db.events|
    ensures var (after, f, c) := Promote(db, e, r, ctx);
      var tenant := db.events[e].tenant;
      && f.Some? && f.value < |after.findings|
      && (c.Some? <==> r.createCase || HasCase(db.cases, tenant, f.value))
      && |after.cases| == |db.cases| + (if r.createCase && !HasCase(db.cases, tenant, f.value) then 1 else 0)
      && (forall i :: 0 <= i < |db.cases| && Some(i) != c ==> after.cases[i] == db.cases[i])
      && (c.Some? ==>
            var known := HasCase(db.cases, tenant, f.value);
            var was := if known then db.cases[c.value] else Case(tenant, f.value, true, 0);
            && c.value < |after.cases| && IsCaseOf(was, tenant, f.value)
            && after.cases[c.value] == was.(eventCount := |after.findings[f.value].eventIds|)
            && forall i :: 0 <= i < c.value ==> !IsCaseOf(db.cases[i], tenant, f.value))
  {
    hide Link, DetailIds, FindFinding, DedupKey, Upsert, FindCase;
    var tenant := db.events[e].tenant;
    var f := Promote(db, e, r, ctx).1.value;
    var found := FindCase(db.cases, tenant, f, |db.cases|);
    assert found.Some? ==> IsCaseOf(db.cases[found.value], tenant, f);
  }

  // ---------- the events ----------

  // After a promotion: the linked rows, and the promoted one with its finding and case.
  lemma PromotedEvents(db: Db, e: nat, r: Classified, ctx: seq<nat>)
    requires e < |db.events| && r.createFinding && forall k :: 0 <= k < |ctx| ==> ctx[k] < |db.events|
    ensures var (after, f, c) := Promote(db, e, r, ctx);
      && f.Some?
      && var rows := Link(db.events, ctx, |ctx|, r, f.value, c).0;
      after.events == rows[e := rows[e].(finding := f, caseId := c)]
  {
    hide Link, DetailIds, FindFinding, FindCase, DedupKey, OpenCase;
  }

  // What the linking makes of row i.
  lemma LinkedRowIs(es: seq<Event>, ctx: seq<nat>, r: Classified, f: nat, c: Option<nat>, i: nat)
    requires (forall k :: 0 <= k < |ctx| ==> ctx[k] < |es|) && Distinct(ctx) && i < |es|
    ensures var rows := Link(es, ctx, |ctx|, r, f, c).0;
      && LinkedAs(rows[i], es[i], i in ctx && MayLink(es[i], r, f, c), f, c)
      && (i !in ctx ==> rows[i] == es[i])
  {
    hide Link, MayLink;
    LinkIff(es, ctx, |ctx|, r, f, c);
    assert ctx[..|ctx|] == ctx;
  }

  // ---------- the transaction ----------

  predicate Due(e: Event, now: int, g: Q.Settings) {
    && !e.isControl && !e.purged && e.attempts < g.maxAttempts
    && (|| e.state == Normalized
        || (e.state == Failed && (e.nextAttempt == None || e.nextAttempt.value <= now))
        || (e.state == Analyzing && (e.lockedAt == None || now - e.lockedAt.value > g.ttl)))
  }

  predicate Approved(r: Classified, catalogue: set<string>) { r.target == None || r.target.value in catalogue }

  // The tables while the event is leased.
  function Taken(db: Db, e: nat, now: int): Db
    requires e < |db.events|
  {
    var row := db.events[e].(state := Analyzing, lockedBy := Some("intelligence-analysis"), lockedAt := Some(now));
    db.(events := db.events[e := row])
  }

  // The row after its analysis: analysed, released, and with the promotion's finding and case, if there was one.
  predicate AnalysedAs(row: Event, was: Event, raw: Classified, approved: bool, f: Option<nat>, c: Option<nat>) {
    row == was.(state := Analyzed, lockedBy := None, lockedAt := None,
                analysis := Some(Analysis(raw.decision, if approved then raw.target else None, false)),
                finding := if f.Some? then f else was.finding, caseId := if f.Some? then c else was.caseId)
  }

  // A call analyses a due event or does nothing; an exception undoes it.  The event is promoted exactly when the
  // result asks for it and names no target or an approved one.
  lemma AnalysisIs(db: Db, e: nat, now: int, g: Q.Settings, raw: Classified, catalogue: set<string>, w: Window,
                   raises: bool)
    ensures var (after, out) := AnalyseOnce(db, e, now, g, raw, catalogue, w, raises);
      var due := e < |db.events| && Due(db.events[e], now, g);
      && (out == NotReady <==> !due) && (out == RolledBack <==> due && raises)
      && (out.Done? ==>
            && |after.events| == |db.events|
            && (out.finding.Some? <==> raw.createFinding && Approved(raw, catalogue))
            && AnalysedAs(after.events[e], db.events[e], raw, Approved(raw, catalogue), out.finding, out.caseId))
      && (!out.Done? ==> after == db)
      && (out.Done? && out.finding.None? ==>
            after == db.(events := db.events[e := after.events[e]]) && out.caseId == None)
  {
    hide RecentContext, Promote, MayLink, LinkedAs, Link;
    if e < |db.events| && Due(db.events[e], now, g) && !raises {
      var r, ctx := Bind(raw, catalogue), RecentContext(Taken(db, e, now).events, e, w);
      ContextIsEarlier(Taken(db, e, now).events, e, w);
      if r.createFinding {
        PromotedEvents(Taken(db, e, now), e, r, ctx);
        var (_, f, c) := Promote(Taken(db, e, now), e, r, ctx);
        LinkedRowIs(Taken(db, e, now).events, ctx, r, f.value, c, e);
      } else {
        NoPromotion(Taken(db, e, now), e, r, ctx);
      }
    }
  }

  // What a promotion changes beside its event: the finding and the case of the promotion of the leased event, as
  // `FindingIs` and `CaseIs` say, and the linked rows of the event's context.
  lemma AnalysisPromotes(db: Db, e: nat, now: int, g: Q.Settings, raw: Classified, catalogue: set<string>, w: Window)
    requires e < |db.events| && Due(db.events[e], now, g) && raw.createFinding && Approved(raw, catalogue)
    ensures var (after, out) := AnalyseOnce(db, e, now, g, raw, catalogue, w, false);
      var taken, r := Taken(db, e, now), raw.(score := Clamp(raw.score));
      var ctx := RecentContext(taken.events, e, w);
      && (forall k :: 0 <= k < |ctx| ==> ctx[k] < |db.events|)
      && var promoted := Promote(taken, e, r, ctx);
      && after.findings == promoted.0.findings && after.cases == promoted.0.cases
      && out == Done(promoted.1, promoted.2) && out.finding.Some? && |after.events| == |db.events|
      && forall i :: 0 <= i < |db.events| && i != e ==>
           LinkedAs(after.events[i], db.events[i], i in ctx && MayLink(db.events[i], r, out.finding.value, out.caseId),
                    out.finding.value, out.caseId)
  {
    hide RecentContext, Promote, MayLink, LinkedAs, Link;
    var taken, r := Taken(db, e, now), Bind(raw, catalogue);
    ContextIsEarlier(taken.events, e, w);
    var ctx := RecentContext(taken.events, e, w);
    PromotedEvents(taken, e, r, ctx);
    var (_, f, c) := Promote(taken, e, r, ctx);
    forall i | 0 <= i < |db.events| && i != e
      ensures var row := Link(taken.events, ctx, |ctx|, r, f.value, c).0[i];
        LinkedAs(row, db.events[i], i in ctx && MayLink(db.events[i], r, f.value, c), f.value, c)
    {
      LinkedRowIs(taken.events, ctx, r, f.value, c, i);
    }
  }

  lemma NoPromotion(db: Db, e: nat, r: Classified, ctx: seq<nat>)
    requires e < |db.events| && !r.createFinding && forall k :: 0 <= k < |ctx| ==> ctx[k] < |db.events|
    ensures Promote(db, e, r, ctx) == (db, None, None)
  {
  }

  lemma ContextIsEarlier(es: seq<Event>, e: nat, w: Window)
    requires e < |es|
    ensures var ctx := RecentContext(es, e, w);
      Distinct(ctx) && e !in ctx && forall k :: 0 <= k < |ctx| ==> ctx[k] < |es|
  {
    var ctx := RecentContext(es, e, w);
    assert forall k :: 0 <= k < |ctx| ==> ctx[k] in ctx;
  }
}
