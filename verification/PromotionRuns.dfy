/** What every run of analysis transactions keeps true of findings, cases and their events. */
module PromotionRuns {
  import opened Wrappers
  import opened Hashing
  import opened Tables
  import opened Sequences
  import opened Promotion
  import opened Numbers
  import Q = LeaseQueue

  // ---------- the event ids of a finding ----------

  lemma LastIdsOf(ids: seq<nat>)
    requires Distinct(ids)
    ensures Distinct(LastIds(ids)) && |LastIds(ids)| <= MAX_EVENT_IDS
    ensures forall p :: 0 <= p < |ids| ==> (ids[p] in LastIds(ids) <==> p >= |ids| - MAX_EVENT_IDS)
  {
    var last := LastIds(ids);
    var d := |ids| - |last|;
    assert forall k :: 0 <= k < |last| ==> last[k] == ids[d + k];
    forall p | 0 <= p < |ids|
      ensures ids[p] in last <==> p >= d
    {
      if p >= d {
        assert last[p - d] == ids[p];
      }
    }
  }

  lemma DetailIdsAreBounded(previous: seq<nat>, e: nat)
    ensures Distinct(DetailIds(previous, e)) && |DetailIds(previous, e)| <= MAX_EVENT_IDS
  {
    LastIdsOf(FirstSeen(previous + [e]));
  }

  // The first rebuild: the event joins at the end, or keeps its place.
  lemma FirstRebuild(previous: seq<nat>, e: nat)
    requires Distinct(previous) && |previous| <= MAX_EVENT_IDS
    ensures e in DetailIds(previous, e)
    ensures e in previous ==> DetailIds(previous, e) == previous
    ensures e !in previous ==> DetailIds(previous, e)[|DetailIds(previous, e)| - 1] == e
  {
    FirstSeenOfDistinct(previous);
    FirstSeenStep(previous, e);
    LastIdsOf(FirstSeen(previous + [e]));
  }

  // The second rebuild keeps the id at position p exactly when the new linked ids leave room for it.
  lemma SecondRebuild(ids: seq<nat>, linked: seq<nat>, e: nat, p: nat)
    requires Distinct(ids) && Distinct(linked) && p < |ids| && ids[p] == e
    ensures e in DetailIds(ids + linked, e) <==> p >= |ids| + CountNew(ids, linked) - MAX_EVENT_IDS
  {
    var all := FirstSeen(ids + linked);
    FirstSeenPrefix(ids, linked);
    FirstSeenOfDistinct(ids);
    FirstSeenLength(ids, linked);
    FirstSeenStep(ids + linked, e);
    assert all[p] == ids[p] == e;
    LastIdsOf(all);
  }

  // Both rebuilds together: an event new to its finding is listed exactly when at most 49 other ids were new with it.
  lemma NewEventIsListedIff(previous: seq<nat>, linked: seq<nat>, e: nat)
    requires Distinct(previous) && |previous| <= MAX_EVENT_IDS && e !in previous && Distinct(linked)
    ensures var ids := DetailIds(previous, e);
      e in DetailIds(ids + linked, e) <==> CountNew(ids, linked) <= 49
  {
    var ids := DetailIds(previous, e);
    FirstRebuild(previous, e);
    DetailIdsAreBounded(previous, e);
    SecondRebuild(ids, linked, e, |ids| - 1);
  }

  // ---------- runs ----------

  // The scores promoted into each finding, in order.
  datatype State = State(db: Db, scores: seq<seq<int>>)

  datatype Step =
    | Analyse(e: nat, now: int, raw: Classified, catalogue: set<string>, window: Window, raises: bool)
    | Arrive(tenant: nat, source: nat, key: Option<Digest>, control: bool, occurredAt: Option<int>, createdAt: int)
    | OpenManually(finding: nat)
    | SetStatus(finding: nat, status: FindingStatus)
    | Purge(e: nat)

  function Score(scores: seq<seq<int>>, f: nat, score: int): seq<seq<int>> {
    if f < |scores| then scores[f := scores[f] + [score]] else scores + [[score]]
  }

  function Exec(s: State, step: Step, g: Q.Settings): State {
    match step
    case Analyse(e, now, raw, catalogue, w, raises) =>
      var (db, out) := AnalyseOnce(s.db, e, now, g, raw, catalogue, w, raises);
      State(db, if out.Done? && out.finding.Some? then Score(s.scores, out.finding.value, Clamp(raw.score))
          else s.scores)
    case Arrive(tenant, source, key, control, occurred, created) =>
      var e := NewEvent(tenant, source, key, if control then Control else Normalized, occurred, created);
      s.(db := s.db.(events := s.db.events + [e]))
    case OpenManually(f) =>
      if f < |s.db.findings| then
        s.(db := s.db.(cases := s.db.cases + [Case(s.db.findings[f].tenant, f, false, 0)]))
      else s
    case SetStatus(f, status) =>
      if f < |s.db.findings| then
        s.(db := s.db.(findings := s.db.findings[f := s.db.findings[f].(status := status)]))
      else s
    case Purge(e) =>
      if e < |s.db.events| then
        s.(db := s.db.(events := s.db.events[e := s.db.events[e].(purged := true, analysis := None)]))
      else s
  }

  function Run(s: State, steps: seq<Step>, g: Q.Settings): State {
    if steps == [] then s else Exec(Run(s, steps[..|steps| - 1], g), steps[|steps| - 1], g)
  }

  // ---------- invariants ----------

  // At most one finding per tenant and correlation key.
  ghost predicate OneFindingPerKey(fs: seq<Finding>) {
    forall i, j :: 0 <= i < j < |fs| ==> fs[i].tenant != fs[j].tenant || fs[i].key != fs[j].key
  }

  // Every case shares its finding's tenant; promotion opened at most one per finding, before any other.
  ghost predicate CasesFit(cs: seq<Case>, fs: seq<Finding>) {
    && (forall i :: 0 <= i < |cs| ==> cs[i].finding < |fs| && cs[i].tenant == fs[cs[i].finding].tenant)
    && (forall i, j :: 0 <= i < j < |cs| && cs[i].finding == cs[j].finding ==> !cs[j].promoted)
  }

  // An event's case names the event's finding, and all three share a tenant; control events have none of it.
  ghost predicate EventFits(e: Event, fs: seq<Finding>, cs: seq<Case>) {
    && (e.finding.Some? ==> e.finding.value < |fs| && fs[e.finding.value].tenant == e.tenant)
    && (e.caseId.Some? ==>
          && e.finding.Some? && e.caseId.value < |cs|
          && cs[e.caseId.value].finding == e.finding.value && cs[e.caseId.value].tenant == e.tenant)
    && (e.isControl ==> e.analysis.None? && e.finding.None? && e.caseId.None?)
  }

  ghost predicate EventsFit(es: seq<Event>, fs: seq<Finding>, cs: seq<Case>) {
    forall i :: 0 <= i < |es| ==> EventFits(es[i], fs, cs)
  }

  ghost predicate IdsFit(f: Finding) {
    Distinct(f.eventIds) && |f.eventIds| <= MAX_EVENT_IDS && f.eventCount == |f.eventIds|
  }

  ghost predicate IsMax(risk: int, scores: seq<int>) {
    risk in scores && forall k :: 0 <= k < |scores| ==> scores[k] <= risk
  }

  ghost predicate FindingsFit(fs: seq<Finding>, scores: seq<seq<int>>) {
    |scores| == |fs| && forall i :: 0 <= i < |fs| ==> IdsFit(fs[i]) && IsMax(fs[i].risk, scores[i])
  }

  ghost predicate Inv(s: State) {
    && OneFindingPerKey(s.db.findings)
    && CasesFit(s.db.cases, s.db.findings)
    && EventsFit(s.db.events, s.db.findings, s.db.cases)
    && FindingsFit(s.db.findings, s.scores)
  }

  // ---------- preservation, piece by piece ----------

  // The finding of a key, raised or new: nothing else moves.
  lemma UpsertKeeps(fs: seq<Finding>, tenant: nat, key: Digest, score: int)
    requires OneFindingPerKey(fs)
    ensures var (after, f) := Upsert(fs, tenant, key, score);
      && OneFindingPerKey(after) && |fs| <= |after| <= |fs| + 1 && (f == |fs| <==> |after| == |fs| + 1)
      && (forall i :: 0 <= i < |fs| ==> after[i].tenant == fs[i].tenant && after[i].key == fs[i].key)
      && (forall i :: 0 <= i < |fs| && i != f ==> after[i] == fs[i])
      && after[f].risk == (if f < |fs| then Max(fs[f].risk, score) else score)
      && after[f].eventIds == (if f < |fs| then fs[f].eventIds else [])
  {
  }

  lemma LargerIsMax(risk: int, scores: seq<int>, score: int)
    requires IsMax(risk, scores)
    ensures IsMax(Max(risk, score), scores + [score])
  {
    assert forall k :: 0 <= k < |scores| ==> (scores + [score])[k] == scores[k];
    assert (scores + [score])[|scores|] == score;
    var i :| 0 <= i < |scores| && scores[i] == risk;
    assert (scores + [score])[i] == risk;
  }

  lemma PromotedFindingsFit(fs: seq<Finding>, scores: seq<seq<int>>, tenant: nat, key: Digest, score: int,
                            ids: seq<nat>, c: Option<nat>)
    requires OneFindingPerKey(fs) && FindingsFit(fs, scores) && Distinct(ids) && |ids| <= MAX_EVENT_IDS
    ensures var (up, f) := Upsert(fs, tenant, key, score);
      var after := up[f := WithDetail(up[f], ids, c)];
      && OneFindingPerKey(after) && FindingsFit(after, Score(scores, f, score))
      && |fs| <= |after| && (forall i :: 0 <= i < |fs| ==> after[i].tenant == fs[i].tenant)
      && after[f].tenant == tenant
  {
    hide Upsert;
    UpsertKeeps(fs, tenant, key, score);
    var (up, f) := Upsert(fs, tenant, key, score);
    if f < |fs| {
      LargerIsMax(fs[f].risk, scores[f], score);
    } else {
      assert IsMax(score, [score]);
    }
  }

  // A case is opened only for a finding that has none.
  lemma OpenCaseKeeps(cs: seq<Case>, fs: seq<Finding>, tenant: nat, f: nat, create: bool)
    requires CasesFit(cs, fs) && f < |fs| && fs[f].tenant == tenant
    ensures var (after, c) := OpenCase(cs, tenant, f, create);
      && CasesFit(after, fs)
      && |cs| <= |after| && (forall i :: 0 <= i < |cs| ==> after[i] == cs[i])
      && (c.None? ==> after == cs && forall i :: 0 <= i < |cs| ==> cs[i].finding != f)
      && (create ==> c.Some?)
  {
    var found := FindCase(cs, tenant, f, |cs|);
    assert found.None? ==> forall i :: 0 <= i < |cs| ==> cs[i].tenant == tenant || cs[i].finding != f;
  }

  // Linking touches rows of the context only, and leaves every row fitting.
  lemma {:induction false} LinkKeeps(es: seq<Event>, ctx: seq<nat>, n: nat, r: Classified, f: nat, c: Option<nat>,
                                     fs: seq<Finding>, cs: seq<Case>, tenant: nat)
    requires n <= |ctx| && forall k :: 0 <= k < |ctx| ==> ctx[k] < |es|
    requires EventsFit(es, fs, cs) && f < |fs| && fs[f].tenant == tenant
    requires c.Some? ==> c.value < |cs| && cs[c.value].finding == f && cs[c.value].tenant == tenant
    requires forall k :: 0 <= k < |ctx| ==> es[ctx[k]].tenant == tenant && !es[ctx[k]].isControl
    ensures var (rows, linked) := Link(es, ctx, n, r, f, c);
      && EventsFit(rows, fs, cs)
      && (forall i :: 0 <= i < |es| ==> rows[i].tenant == es[i].tenant && rows[i].isControl == es[i].isControl)
    decreases n
  {
    if n > 0 && Links(r) {
      LinkKeeps(es, ctx, n - 1, r, f, c, fs, cs, tenant);
      var (rows, linked) := Link(es, ctx, n - 1, r, f, c);
      var i := ctx[n - 1];
      if Linkable(rows[i], r.target.value, f, c) {
        assert EventFits(LinkedRow(rows[i], f, c), fs, cs);
      }
    }
  }

  // The linked ids are context ids, each once.
  lemma {:induction false} LinkedIds(es: seq<Event>, ctx: seq<nat>, n: nat, r: Classified, f: nat, c: Option<nat>)
    requires n <= |ctx| && (forall k :: 0 <= k < |ctx| ==> ctx[k] < |es|) && Distinct(ctx)
    ensures var linked := Link(es, ctx, n, r, f, c).1;
      Distinct(linked) && forall x :: x in linked ==> x in ctx[..n]
    decreases n
  {
    if n > 0 && Links(r) {
      LinkedIds(es, ctx, n - 1, r, f, c);
      var linked := Link(es, ctx, n - 1, r, f, c).1;
      assert ctx[..n] == ctx[..n - 1] + [ctx[n - 1]];
      assert ctx[n - 1] !in linked;
      assert Distinct(linked + [ctx[n - 1]]);
    }
  }

  lemma EventsFitMore(es: seq<Event>, fs: seq<Finding>, cs: seq<Case>, fs2: seq<Finding>, cs2: seq<Case>)
    requires EventsFit(es, fs, cs)
    requires |fs| <= |fs2| && forall i :: 0 <= i < |fs| ==> fs2[i].tenant == fs[i].tenant
    requires |cs| <= |cs2|
    requires forall i :: 0 <= i < |cs| ==> cs2[i].finding == cs[i].finding && cs2[i].tenant == cs[i].tenant
    ensures EventsFit(es, fs2, cs2)
  {
    forall i | 0 <= i < |es|
      ensures EventFits(es[i], fs2, cs2)
    {
      assert EventFits(es[i], fs, cs);
    }
  }

  lemma CasesFitMore(cs: seq<Case>, fs: seq<Finding>, fs2: seq<Finding>, c: Option<nat>, n: nat)
    requires CasesFit(cs, fs) && (c.Some? ==> c.value < |cs|)
    requires |fs| <= |fs2| && forall i :: 0 <= i < |fs| ==> fs2[i].tenant == fs[i].tenant
    ensures CasesFit(if c.Some? then cs[c.value := cs[c.value].(eventCount := n)] else cs, fs2)
  {
  }

  ghost predicate ContextFits(es: seq<Event>, e: nat, ctx: seq<nat>)
    requires e < |es|
  {
    forall k :: 0 <= k < |ctx| ==> ctx[k] < |es| && es[ctx[k]].tenant == es[e].tenant && !es[ctx[k]].isControl
  }

  // The events after linking and marking the promoted one.
  lemma PromotedEventsFit(es: seq<Event>, e: nat, r: Classified, ctx: seq<nat>, f: nat, c: Option<nat>,
                          fs: seq<Finding>, cs: seq<Case>)
    requires EventsFit(es, fs, cs) && e < |es| && !es[e].isControl && ContextFits(es, e, ctx)
    requires f < |fs| && fs[f].tenant == es[e].tenant
    requires c.Some? ==> c.value < |cs| && cs[c.value].finding == f && cs[c.value].tenant == es[e].tenant
    ensures var rows := Link(es, ctx, |ctx|, r, f, c).0;
      EventsFit(rows[e := rows[e].(finding := Some(f), caseId := c)], fs, cs) && !rows[e].isControl
  {
    hide Link;
    LinkKeeps(es, ctx, |ctx|, r, f, c, fs, cs, es[e].tenant);
    var rows := Link(es, ctx, |ctx|, r, f, c).0;
    assert EventFits(rows[e], fs, cs);
    assert EventFits(rows[e].(finding := Some(f), caseId := c), fs, cs);
  }

  // The cases after promotion: one more at most, the chosen one refreshed.
  function CasesAfter(cs: seq<Case>, c: Option<nat>, n: nat): seq<Case>
    requires c.Some? ==> c.value < |cs|
  {
    if c.Some? then cs[c.value := cs[c.value].(eventCount := n)] else cs
  }

  lemma PromotedCasesFit(cs: seq<Case>, fs: seq<Finding>, fs2: seq<Finding>, tenant: nat, f: nat, create: bool, n: nat)
    requires CasesFit(cs, fs) && |fs| <= |fs2| && forall i :: 0 <= i < |fs| ==> fs2[i].tenant == fs[i].tenant
    requires f < |fs2| && fs2[f].tenant == tenant
    ensures var (more, c) := OpenCase(cs, tenant, f, create);
      var after := CasesAfter(more, c, n);
      && CasesFit(after, fs2) && |cs| <= |after|
      && (forall i :: 0 <= i < |cs| ==> after[i].finding == cs[i].finding && after[i].tenant == cs[i].tenant)
      && (c.Some? ==> c.value < |after| && after[c.value].finding == f && after[c.value].tenant == tenant)
  {
    hide OpenCase;
    CasesFitMore(cs, fs, fs2, None, 0);
    OpenCaseKeeps(cs, fs2, tenant, f, create);
    var (more, c) := OpenCase(cs, tenant, f, create);
    CasesFitMore(more, fs2, fs2, c, n);
  }

  lemma PromoteKeeps(db: Db, scores: seq<seq<int>>, e: nat, r: Classified, ctx: seq<nat>)
    requires Inv(State(db, scores)) && e < |db.events| && !db.events[e].isControl && ContextFits(db.events, e, ctx)
    ensures var (after, f, c) := Promote(db, e, r, ctx);
      Inv(State(after, if f.Some? then Score(scores, f.value, r.score) else scores)) && !after.events[e].isControl
  {
    if r.createFinding {
      hide Upsert, OpenCase, Link, DetailIds, FindCase, FindFinding;
      hide EventFits, ContextFits, OneFindingPerKey, IdsFit, IsMax, DedupKey, Score, CasesFit, EventsFit, FindingsFit;
      var tenant, key := db.events[e].tenant, DedupKey(db.events[e], r);
      var (up, f) := Upsert(db.findings, tenant, key, r.score);
      var (cs, c) := OpenCase(db.cases, tenant, f, r.createCase);
      var linked := Link(db.events, ctx, |ctx|, r, f, c).1;
      var ids := DetailIds(up[f].eventIds, e) + linked;
      var ids2 := DetailIds(ids, e);
      DetailIdsAreBounded(ids, e);
      PromotedFindingsFit(db.findings, scores, tenant, key, r.score, ids2, c);
      var fs := up[f := WithDetail(up[f], ids2, c)];
      PromotedCasesFit(db.cases, db.findings, fs, tenant, f, r.createCase, |ids2|);
      var cs2 := CasesAfter(cs, c, |ids2|);
      EventsFitMore(db.events, db.findings, db.cases, fs, cs2);
      PromotedEventsFit(db.events, e, r, ctx, f, c, fs, cs2);
    }
  }

  // The list a promotion leaves: the previous one through both rebuilds.
  lemma PromotedList(db: Db, e: nat, r: Classified, ctx: seq<nat>)
    requires e < |db.events| && r.createFinding && forall k :: 0 <= k < |ctx| ==> ctx[k] < |db.events|
    ensures var (after, f, c) := Promote(db, e, r, ctx);
      && f.Some? && f.value < |after.findings|
      && f.value == Upsert(db.findings, db.events[e].tenant, DedupKey(db.events[e], r), r.score).1
      && var previous := if f.value < |db.findings| then db.findings[f.value].eventIds else [];
      var ids := DetailIds(previous, e) + Link(db.events, ctx, |ctx|, r, f.value, c).1;
      && after.findings[f.value].eventIds == DetailIds(ids, e)
      && after.findings[f.value].eventCount == |DetailIds(ids, e)|
  {
    hide Link, DetailIds, FindFinding, FindCase, DedupKey, OpenCase;
  }

  // A promoted event that its finding did not list yet ends up listed exactly when at most 49
  // of the linked context events were new as well.
  lemma PromotedEventIsListedIff(db: Db, e: nat, r: Classified, ctx: seq<nat>)
    requires e < |db.events| && r.createFinding && Distinct(ctx) && forall k :: 0 <= k < |ctx| ==> ctx[k] < |db.events|
    requires forall i :: 0 <= i < |db.findings| ==> IdsFit(db.findings[i])
    requires var f := Upsert(db.findings, db.events[e].tenant, DedupKey(db.events[e], r), r.score).1;
      f < |db.findings| ==> e !in db.findings[f].eventIds
    ensures var (after, f, c) := Promote(db, e, r, ctx);
      var linked := Link(db.events, ctx, |ctx|, r, f.value, c).1;
      var previous := if f.value < |db.findings| then db.findings[f.value].eventIds else [];
      && IdsFit(after.findings[f.value])
      && (e in after.findings[f.value].eventIds <==> CountNew(DetailIds(previous, e), linked) <= 49)
      && (|linked| <= 49 ==> e in after.findings[f.value].eventIds)
  {
    hide Link, DetailIds, DedupKey, CountNew, Promote, Upsert;
    PromotedList(db, e, r, ctx);
    var (_, f, c) := Promote(db, e, r, ctx);
    var linked := Link(db.events, ctx, |ctx|, r, f.value, c).1;
    LinkedIds(db.events, ctx, |ctx|, r, f.value, c);
    var previous := if f.value < |db.findings| then db.findings[f.value].eventIds else [];
    NewEventIsListedIff(previous, linked, e);
    DetailIdsAreBounded(DetailIds(previous, e) + linked, e);
  }

  lemma EventEdited(db: Db, scores: seq<seq<int>>, e: nat, row: Event)
    requires Inv(State(db, scores)) && e < |db.events| && EventFits(row, db.findings, db.cases)
    ensures Inv(State(db.(events := db.events[e := row]), scores))
  {
  }

  lemma ContextFitsOf(es: seq<Event>, e: nat, w: Window)
    requires e < |es|
    ensures ContextFits(es, e, RecentContext(es, e, w))
  {
    var ctx := RecentContext(es, e, w);
    assert forall k :: 0 <= k < |ctx| ==> ctx[k] in ctx;
  }

  lemma AnalyseKeeps(s: State, step: Step, g: Q.Settings)
    requires Inv(s) && step.Analyse?
    ensures Inv(Exec(s, step, g))
  {
    hide Promote, RecentContext, Bind;
    var e := step.e;
    if e < |s.db.events| && Q.Ready(s.db.events[e], step.now, g) && !step.raises {
      assert EventFits(s.db.events[e], s.db.findings, s.db.cases);
      var leased := s.db.(events := s.db.events[e := Q.Leased(s.db.events[e], WORKER, step.now)]);
      EventEdited(s.db, s.scores, e, Q.Leased(s.db.events[e], WORKER, step.now));
      var r := Bind(step.raw, step.catalogue);
      BoundScore(step.raw, step.catalogue);
      var ctx := RecentContext(leased.events, e, step.window);
      ContextFitsOf(leased.events, e, step.window);
      PromoteKeeps(leased, s.scores, e, r, ctx);
      var (after, f, c) := Promote(leased, e, r, ctx);
      var scores := if f.Some? then Score(s.scores, f.value, r.score) else s.scores;
      assert EventFits(after.events[e], after.findings, after.cases);
      EventEdited(after, scores, e, Completed(after.events[e], r));
    }
  }

  lemma BoundScore(raw: Classified, catalogue: set<string>)
    ensures Bind(raw, catalogue).score == Clamp(raw.score)
  {
  }

  lemma OtherStepsKeep(s: State, step: Step, g: Q.Settings)
    requires Inv(s) && !step.Analyse?
    ensures Inv(Exec(s, step, g))
  {
    var t := Exec(s, step, g);
    match step
    case Purge(e) =>
      if e < |s.db.events| {
        assert EventFits(s.db.events[e], s.db.findings, s.db.cases);
        EventEdited(s.db, s.scores, e, s.db.events[e].(purged := true, analysis := None));
      }
    case _ => EventsFitMore(s.db.events, s.db.findings, s.db.cases, t.db.findings, t.db.cases);
  }

  lemma EmptyFits()
    ensures Inv(State(Db([], [], []), []))
  {
  }

  // Over every run: one finding per tenant and key, one promoted case per finding, events, cases and
  // findings consistent within one tenant, risk the maximum promoted score, bounded duplicate-free event ids.
  lemma {:induction false} PromotionInvariant(s: State, steps: seq<Step>, g: Q.Settings)
    requires Inv(s)
    ensures Inv(Run(s, steps, g))
    decreases |steps|
  {
    if steps != [] {
      PromotionInvariant(s, steps[..|steps| - 1], g);
      var mid, step := Run(s, steps[..|steps| - 1], g), steps[|steps| - 1];
      if step.Analyse? {
        AnalyseKeeps(mid, step, g);
      } else {
        OtherStepsKeep(mid, step, g);
      }
    }
  }

  // ---------- which events share a finding ----------

  // Findings are never removed, and keep tenant and key.
  ghost predicate Kept(fs: seq<Finding>, gs: seq<Finding>) {
    |fs| <= |gs| && forall i :: 0 <= i < |fs| ==> gs[i].tenant == fs[i].tenant && gs[i].key == fs[i].key
  }

  lemma PromoteNames(db: Db, e: nat, r: Classified, ctx: seq<nat>)
    requires e < |db.events| && r.createFinding && forall k :: 0 <= k < |ctx| ==> ctx[k] < |db.events|
    ensures var (after, f, c) := Promote(db, e, r, ctx);
      && Kept(db.findings, after.findings) && f.Some? && f.value < |after.findings|
      && after.findings[f.value].tenant == db.events[e].tenant
      && after.findings[f.value].key == DedupKey(db.events[e], r)
  {
    hide Link, DetailIds, FindFinding, FindCase, DedupKey, OpenCase;
  }

  // The step analyses an event and promotes it.
  ghost predicate Promotes(s: State, step: Step, g: Q.Settings) {
    && step.Analyse?
    && var out := AnalyseOnce(s.db, step.e, step.now, g, step.raw, step.catalogue, step.window, step.raises).1;
    out.Done? && out.finding.Some?
  }

  ghost function PromotedTo(s: State, step: Step, g: Q.Settings): nat
    requires Promotes(s, step, g)
  {
    AnalyseOnce(s.db, step.e, step.now, g, step.raw, step.catalogue, step.window, step.raises).1.finding.value
  }

  lemma AnalyseNames(s: State, step: Step, g: Q.Settings)
    requires step.Analyse?
    ensures Kept(s.db.findings, Exec(s, step, g).db.findings)
    ensures Promotes(s, step, g) ==>
      var fs, f := Exec(s, step, g).db.findings, PromotedTo(s, step, g);
      && step.e < |s.db.events| && f < |fs| && fs[f].tenant == s.db.events[step.e].tenant
      && fs[f].key == DedupKey(s.db.events[step.e], Bind(step.raw, step.catalogue))
  {
    hide Promote, RecentContext, Bind, KeyMaterial;
    var e := step.e;
    if e < |s.db.events| && Q.Ready(s.db.events[e], step.now, g) && !step.raises {
      var leased := s.db.(events := s.db.events[e := Q.Leased(s.db.events[e], WORKER, step.now)]);
      var r := Bind(step.raw, step.catalogue);
      var ctx := RecentContext(leased.events, e, step.window);
      assert forall k :: 0 <= k < |ctx| ==> ctx[k] in ctx;
      if r.createFinding {
        PromoteNames(leased, e, r, ctx);
      } else {
        PromoteNothing(leased, e, r, ctx);
      }
    }
  }

  lemma PromoteNothing(db: Db, e: nat, r: Classified, ctx: seq<nat>)
    requires e < |db.events| && !r.createFinding && forall k :: 0 <= k < |ctx| ==> ctx[k] < |db.events|
    ensures Promote(db, e, r, ctx) == (db, None, None)
  {
  }

  lemma OtherStepsKeepFindings(s: State, step: Step, g: Q.Settings)
    requires !step.Analyse?
    ensures Kept(s.db.findings, Exec(s, step, g).db.findings)
  {
  }

  lemma {:induction false} RunKeepsFindings(s: State, steps: seq<Step>, i: nat, n: nat, g: Q.Settings)
    requires i <= n <= |steps|
    ensures Kept(Run(s, steps[..i], g).db.findings, Run(s, steps[..n], g).db.findings)
    decreases n
  {
    hide Exec, AnalyseOnce;
    if i < n {
      RunKeepsFindings(s, steps, i, n - 1, g);
      assert steps[..n][..n - 1] == steps[..n - 1];
      var mid := Run(s, steps[..n - 1], g);
      if steps[n - 1].Analyse? {
        AnalyseNames(mid, steps[n - 1], g);
      } else {
        OtherStepsKeepFindings(mid, steps[n - 1], g);
      }
    }
  }

  // In every run two promoted events share a finding exactly when tenant, target, family and day agree.
  lemma ShareFindingIff(s: State, steps: seq<Step>, g: Q.Settings, i: nat, j: nat)
    requires Inv(s) && i < j < |steps|
    requires Promotes(Run(s, steps[..i], g), steps[i], g) && Promotes(Run(s, steps[..j], g), steps[j], g)
    requires forall x :: x in steps[i].catalogue + steps[j].catalogue ==> '|' !in x
    ensures var before, later := Run(s, steps[..i], g), Run(s, steps[..j], g);
      && steps[i].e < |before.db.events| && steps[j].e < |later.db.events|
      && (PromotedTo(before, steps[i], g) == PromotedTo(later, steps[j], g)
          <==> SameCorrelation(before.db.events[steps[i].e], Bind(steps[i].raw, steps[i].catalogue),
                               later.db.events[steps[j].e], Bind(steps[j].raw, steps[j].catalogue)))
  {
    hide Exec, AnalyseOnce, DedupKey, SameCorrelation, Promotes, PromotedTo;
    var before, later := Run(s, steps[..i], g), Run(s, steps[..j], g);
    PromotesIsAnalyse(before, steps[i], g);
    PromotesIsAnalyse(later, steps[j], g);
    assert steps[..i + 1][..i] == steps[..i] && steps[..j + 1][..j] == steps[..j];
    AnalyseNames(before, steps[i], g);
    AnalyseNames(later, steps[j], g);
    RunKeepsFindings(s, steps, i + 1, j + 1, g);
    PromotionInvariant(s, steps[..j + 1], g);
    var r, q := Bind(steps[i].raw, steps[i].catalogue), Bind(steps[j].raw, steps[j].catalogue);
    DedupKeyIff(before.db.events[steps[i].e], r, later.db.events[steps[j].e], q);
    if SameCorrelation(before.db.events[steps[i].e], r, later.db.events[steps[j].e], q) {
      SameTenant(before.db.events[steps[i].e], r, later.db.events[steps[j].e], q);
    }
    var fs := Exec(later, steps[j], g).db.findings;
    assert OneFindingPerKey(fs);
  }

  lemma PromotesIsAnalyse(s: State, step: Step, g: Q.Settings)
    requires Promotes(s, step, g)
    ensures step.Analyse?
  {
  }

  lemma SameTenant(e: Event, r: Classified, f: Event, q: Classified)
    requires SameCorrelation(e, r, f, q)
    ensures e.tenant == f.tenant
  {
  }
}
