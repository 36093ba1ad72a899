/** Which events a finding lists: an event under analysis is on no list yet, and when it ends up on one. */
module PromotionLists {
  import opened Wrappers
  import opened Tables
  import opened Sequences
  import opened Promotion
  import opened PromotionRuns
  import Q = LeaseQueue

  // Findings list analysed events only, and only analysed events carry an analysis.
  ghost predicate AllDone(ids: seq<nat>, es: seq<Event>) {
    forall x: nat :: x in ids ==> x < |es| && es[x].state == Analyzed
  }

  ghost predicate ListedAreDone(db: Db) {
    forall i :: 0 <= i < |db.findings| ==> AllDone(db.findings[i].eventIds, db.events)
  }

  ghost predicate AnalysedAreDone(es: seq<Event>) {
    forall k :: 0 <= k < |es| && es[k].analysis.Some? ==> es[k].state == Analyzed
  }

  ghost predicate AllFit(db: Db) { ListedAreDone(db) && AnalysedAreDone(db.events) }

  // Linking moves no state, and links analysed events.
  lemma {:induction false} LinkKeepsStates(es: seq<Event>, ctx: seq<nat>, n: nat, r: Classified, f: nat, c: Option<nat>)
    requires n <= |ctx| && forall k :: 0 <= k < |ctx| ==> ctx[k] < |es|
    ensures var (rows, linked) := Link(es, ctx, n, r, f, c);
      && (forall k :: 0 <= k < |es| ==>
            rows[k].state == es[k].state && (rows[k].analysis.Some? <==> es[k].analysis.Some?))
      && (forall x :: x in linked ==> x < |es| && es[x].analysis.Some?)
    decreases n
  {
    if n > 0 && Links(r) {
      LinkKeepsStates(es, ctx, n - 1, r, f, c);
    }
  }

  lemma DetailIdsAreFrom(ids: seq<nat>, e: nat, x: nat)
    requires x in DetailIds(ids, e)
    ensures x in ids || x == e
  {
    var all := FirstSeen(ids + [e]);
    assert x in all;
    assert x in ids + [e];
  }

  // All of the ids but e are of analysed events.
  ghost predicate DoneBut(ids: seq<nat>, es: seq<Event>, e: nat) {
    forall x: nat :: x in ids ==> x < |es| && (x == e || es[x].state == Analyzed)
  }

  lemma DetailIsDone(es: seq<Event>, previous: seq<nat>, linked: seq<nat>, e: nat)
    requires AllDone(previous, es) && AnalysedAreDone(es) && e < |es|
    requires forall x :: x in linked ==> x < |es| && es[x].analysis.Some?
    ensures DoneBut(DetailIds(DetailIds(previous, e) + linked, e), es, e)
  {
    hide DetailIds;
    var ids := DetailIds(previous, e);
    forall x: nat | x in DetailIds(ids + linked, e)
      ensures x < |es| && (x == e || es[x].state == Analyzed)
    {
      DetailIdsAreFrom(ids + linked, e, x);
      if x in ids { DetailIdsAreFrom(previous, e, x); }
      assert x in ids || x in linked || x == e;
    }
  }

  lemma DoneSameStates(ids: seq<nat>, es: seq<Event>, rows: seq<Event>, e: nat)
    requires DoneBut(ids, es, e) && |rows| == |es| && forall k :: 0 <= k < |es| ==> rows[k].state == es[k].state
    ensures DoneBut(ids, rows, e)
  {
  }

  lemma PromoteKeepsDone(db: Db, e: nat, r: Classified, ctx: seq<nat>)
    requires AllFit(db) && e < |db.events| && forall k :: 0 <= k < |ctx| ==> ctx[k] < |db.events|
    ensures var (after, f, c) := Promote(db, e, r, ctx);
      && |after.events| == |db.events| && AnalysedAreDone(after.events)
      && (forall i :: 0 <= i < |after.findings| ==> DoneBut(after.findings[i].eventIds, after.events, e))
  {
    if r.createFinding {
      hide Link, DetailIds, FindFinding, FindCase, DedupKey, DoneBut, AllDone;
      var (up, f) := Upsert(db.findings, db.events[e].tenant, DedupKey(db.events[e], r), r.score);
      var c := OpenCase(db.cases, db.events[e].tenant, f, r.createCase).1;
      LinkKeepsStates(db.events, ctx, |ctx|, r, f, c);
      var linked := Link(db.events, ctx, |ctx|, r, f, c).1;
      AllDoneOfNone(db.events);
      DetailIsDone(db.events, up[f].eventIds, linked, e);
      var after := Promote(db, e, r, ctx).0;
      assert forall k :: 0 <= k < |db.events| ==> after.events[k].state == db.events[k].state;
      forall i | 0 <= i < |after.findings|
        ensures DoneBut(after.findings[i].eventIds, after.events, e)
      {
        if i != f { AllDoneIsDoneBut(db.findings[i].eventIds, db.events, e); }
        DoneSameStates(after.findings[i].eventIds, db.events, after.events, e);
      }
    } else {
      forall i | 0 <= i < |db.findings|
        ensures DoneBut(db.findings[i].eventIds, db.events, e)
      {
        AllDoneIsDoneBut(db.findings[i].eventIds, db.events, e);
      }
    }
  }

  lemma AllDoneOfNone(es: seq<Event>)
    ensures AllDone([], es)
  {
  }

  lemma AllDoneIsDoneBut(ids: seq<nat>, es: seq<Event>, e: nat)
    requires AllDone(ids, es)
    ensures DoneBut(ids, es, e)
  {
  }

  // The event is not done yet, so no list holds it; taking the lease disturbs none.
  lemma LeaseKeepsDone(db: Db, e: nat, row: Event)
    requires AllFit(db) && e < |db.events| && db.events[e].state != Analyzed && row.analysis == db.events[e].analysis
    ensures AllFit(db.(events := db.events[e := row]))
  {
    forall i | 0 <= i < |db.findings|
      ensures AllDone(db.findings[i].eventIds, db.events[e := row])
    {
      assert AllDone(db.findings[i].eventIds, db.events);
    }
  }

  lemma CompletionKeepsDone(db: Db, e: nat, row: Event)
    requires e < |db.events| && AnalysedAreDone(db.events) && row.state == Analyzed
    requires forall i :: 0 <= i < |db.findings| ==> DoneBut(db.findings[i].eventIds, db.events, e)
    ensures AllFit(db.(events := db.events[e := row]))
  {
    forall i | 0 <= i < |db.findings|
      ensures AllDone(db.findings[i].eventIds, db.events[e := row])
    {
      assert DoneBut(db.findings[i].eventIds, db.events, e);
    }
  }

  lemma AnalyseKeepsDone(s: State, step: Step, g: Q.Settings)
    requires AllFit(s.db) && step.Analyse?
    ensures AllFit(Exec(s, step, g).db)
  {
    hide Promote, RecentContext, Bind, ListedAreDone, DoneBut, AllDone;
    var e := step.e;
    if e < |s.db.events| && Q.Ready(s.db.events[e], step.now, g) && !step.raises {
      LeaseKeepsDone(s.db, e, Q.Leased(s.db.events[e], WORKER, step.now));
      var leased := s.db.(events := s.db.events[e := Q.Leased(s.db.events[e], WORKER, step.now)]);
      var ctx := RecentContext(leased.events, e, step.window);
      assert forall k :: 0 <= k < |ctx| ==> ctx[k] in ctx;
      var r := Bind(step.raw, step.catalogue);
      PromoteKeepsDone(leased, e, r, ctx);
      var after := Promote(leased, e, r, ctx).0;
      CompletionKeepsDone(after, e, Completed(after.events[e], r));
    }
  }

  lemma OtherStepsKeepDone(s: State, step: Step, g: Q.Settings)
    requires AllFit(s.db) && !step.Analyse?
    ensures AllFit(Exec(s, step, g).db)
  {
    var t := Exec(s, step, g).db;
    forall i | 0 <= i < |t.findings|
      ensures AllDone(t.findings[i].eventIds, t.events)
    {
      assert AllDone(s.db.findings[i].eventIds, s.db.events);
    }
  }

  lemma {:induction false} RunKeepsDone(s: State, steps: seq<Step>, g: Q.Settings)
    requires AllFit(s.db)
    ensures AllFit(Run(s, steps, g).db)
    decreases |steps|
  {
    if steps != [] {
      hide Exec, AllFit;
      var n := |steps| - 1;
      RunKeepsDone(s, steps[..n], g);
      if steps[n].Analyse? {
        AnalyseKeepsDone(Run(s, steps[..n], g), steps[n], g);
      } else {
        OtherStepsKeepDone(Run(s, steps[..n], g), steps[n], g);
      }
    }
  }

  // In every reachable state an event that is ready for analysis is on no finding's list.
  lemma ReadyIsNotListed(steps: seq<Step>, g: Q.Settings, e: nat, now: int, i: nat)
    requires var db := Run(State(Db([], [], []), []), steps, g).db;
      e < |db.events| && Q.Ready(db.events[e], now, g) && i < |db.findings|
    ensures e !in Run(State(Db([], [], []), []), steps, g).db.findings[i].eventIds
  {
    hide Run;
    RunKeepsDone(State(Db([], [], []), []), steps, g);
    var db := Run(State(Db([], [], []), []), steps, g).db;
    assert AllDone(db.findings[i].eventIds, db.events);
  }

  // The events linked when event e is analysed.
  function LinkedBy(db: Db, step: Step): seq<nat>
    requires step.Analyse? && step.e < |db.events|
  {
    var es := db.events[step.e := Q.Leased(db.events[step.e], WORKER, step.now)];
    var r := Bind(step.raw, step.catalogue);
    var (_, f, c) := Promote(Db(es, db.findings, db.cases), step.e, r, ContextOf(es, step));
    if f.None? then [] else Link(es, ContextOf(es, step), |ContextOf(es, step)|, r, f.value, c).1
  }

  function ContextOf(es: seq<Event>, step: Step): (ctx: seq<nat>)
    requires step.Analyse? && step.e < |es|
    ensures Distinct(ctx) && forall k :: 0 <= k < |ctx| ==> ctx[k] < |es|
  {
    var ctx := RecentContext(es, step.e, step.window);
    assert forall k :: 0 <= k < |ctx| ==> ctx[k] in ctx;
    ctx
  }

  // In every reachable state: the analysed event ends up on its finding's list exactly when at most 49 of the
  // context events linked with it were new to the list too.
  lemma AnalysedEventIsListedIff(steps: seq<Step>, g: Q.Settings, step: Step)
    requires step.Analyse?
    requires var db := Run(State(Db([], [], []), []), steps, g).db;
      var out := AnalyseOnce(db, step.e, step.now, g, step.raw, step.catalogue, step.window, step.raises).1;
      out.Done? && out.finding.Some?
    ensures var db := Run(State(Db([], [], []), []), steps, g).db;
      var (after, out) := AnalyseOnce(db, step.e, step.now, g, step.raw, step.catalogue, step.window, step.raises);
      var f := out.finding.value;
      var previous := if f < |db.findings| then db.findings[f].eventIds else [];
      && f < |after.findings| && step.e < |db.events|
      && (step.e in after.findings[f].eventIds <==> CountNew(DetailIds(previous, step.e), LinkedBy(db, step)) <= 49)
  {
    hide Run, Link, DetailIds, FindFinding, FindCase, DedupKey, CountNew, RecentContext, Bind, Upsert, OpenCase;
    EmptyFits();
    PromotionInvariant(State(Db([], [], []), []), steps, g);
    var s := Run(State(Db([], [], []), []), steps, g);
    var db := s.db;
    var es := db.events[step.e := Q.Leased(db.events[step.e], WORKER, step.now)];
    var r := Bind(step.raw, step.catalogue);
    var (up, f) := Upsert(db.findings, es[step.e].tenant, DedupKey(es[step.e], r), r.score);
    if f < |db.findings| { ReadyIsNotListed(steps, g, step.e, step.now, f); }
    PromotedEventIsListedIff(Db(es, db.findings, db.cases), step.e, r, ContextOf(es, step));
  }

  // ---------- an event that falls off its own finding's list ----------

  lemma {:induction false} DistinctWithin(ids: seq<nat>, n: nat)
    requires Distinct(ids) && forall x: nat :: x in ids <==> x < n
    ensures |ids| == n
    decreases n
  {
    if n == 0 {
      assert forall k :: 0 <= k < |ids| ==> ids[k] in ids;
    } else {
      assert n - 1 in ids;
      var k :| 0 <= k < |ids| && ids[k] == n - 1;
      var rest := ids[..k] + ids[k + 1..];
      assert forall i :: 0 <= i < |rest| ==> rest[i] == if i < k then ids[i] else ids[i + 1];
      forall x: nat
        ensures x in rest <==> x < n - 1
      {
        if x in ids && x != n - 1 {
          var j :| 0 <= j < |ids| && ids[j] == x;
          assert rest[if j < k then j else j - 1] == x;
        }
      }
      DistinctWithin(rest, n - 1);
    }
  }

  lemma {:induction false} CountOfNew(s: seq<nat>, u: seq<nat>)
    requires forall x :: x in u ==> x !in s
    ensures CountNew(s, u) == |u|
    decreases |u|
  {
    if u != [] {
      assert u[|u| - 1] in u;
      CountOfNew(s, u[..|u| - 1]);
    }
  }

  // When every context event can be linked, every one is.
  lemma {:induction false} LinkAll(es: seq<Event>, ctx: seq<nat>, n: nat, r: Classified, f: nat, c: Option<nat>)
    requires n <= |ctx| && (forall k :: 0 <= k < |ctx| ==> ctx[k] < |es|) && Distinct(ctx) && Links(r)
    requires forall k :: 0 <= k < |ctx| ==> Linkable(es[ctx[k]], r.target.value, f, c)
    ensures Link(es, ctx, n, r, f, c).1 == ctx[..n]
    ensures forall k :: n <= k < |ctx| ==> Link(es, ctx, n, r, f, c).0[ctx[k]] == es[ctx[k]]
    decreases n
  {
    if n > 0 {
      LinkAll(es, ctx, n - 1, r, f, c);
      hide Linkable;
      assert ctx[..n] == ctx[..n - 1] + [ctx[n - 1]];
    }
  }

  // An analysed mention of the target, not promoted itself.
  function Mention(): Event {
    var analysis := Analysis("claimed_access", Some("brand:1"), false);
    NewEvent(0, 0, None, Normalized, Some(0), 0).(state := Analyzed, analysis := Some(analysis))
  }

  function Fresh(): Event { NewEvent(0, 0, None, Normalized, Some(0), 0) }

  // Fifty mentions, then the event.
  function Mentions(last: Event): (es: seq<Event>)
    ensures |es| == 51 && es[50] == last && forall k :: 0 <= k < 50 ==> es[k] == Mention()
  {
    seq(50, _ => Mention()) + [last]
  }

  const EXPOSED := Classified(true, false, Some("brand:1"), "credential_exposure", 90, "credential_market_activity")

  lemma ContextIsAll(es: seq<Event>, w: Window)
    requires |es| == 51 && w.maxEvents >= 50 && Time(es[50]) == 0 && forall k :: 0 <= k < 50 ==> es[k] == Mention()
    requires es[50].tenant == 0 && es[50].source == 0
    ensures var ctx := RecentContext(es, 50, w); |ctx| == 50 && forall k :: 0 <= k < 50 ==> ctx[k] < 50
  {
    forall j: nat
      ensures j in WindowIds(es, 50, w, 50) <==> j < 50
    {
      assert j < 50 ==> InWindow(es, 50, w, j);
    }
    DistinctWithin(WindowIds(es, 50, w, 50), 50);
    hide WindowIds, InWindow;
    var ctx := RecentContext(es, 50, w);
    assert forall k :: 0 <= k < |ctx| ==> ctx[k] in ctx;
  }

  lemma FullContextDrops(db: Db, e: nat, r: Classified, ctx: seq<nat>)
    requires e < |db.events| && db.findings == [] && db.cases == [] && r.createFinding && !r.createCase && Links(r)
    requires |ctx| == 50 && Distinct(ctx) && e !in ctx && forall k :: 0 <= k < 50 ==> ctx[k] < |db.events|
    requires forall k :: 0 <= k < 50 ==> Linkable(db.events[ctx[k]], r.target.value, 0, None)
    ensures var (after, f, c) := Promote(db, e, r, ctx);
      f == Some(0) && c == None && |after.findings| == 1 && e !in after.findings[0].eventIds
  {
    LinkAll(db.events, ctx, 50, r, 0, None);
    assert ctx[..50] == ctx;
    hide Link, Linkable, DedupKey, DetailIds, CountNew;
    PromotedEventIsListedIff(db, e, r, ctx);
    AloneAtFirst(e);
    CountOfNew([e], ctx);
  }

  lemma AloneAtFirst(e: nat)
    ensures DetailIds([], e) == [e]
  {
    FirstSeenStep([], e);
    assert [] + [e] == [e];
    assert FirstSeen<nat>([]) == [];
  }

  lemma LeasedMentions(last: Event, row: Event)
    ensures Mentions(last)[50 := row] == Mentions(row)
  {
  }

  lemma FreshIsReady(g: Q.Settings)
    requires g.maxAttempts > 0
    ensures Q.Ready(Fresh(), 0, g) && Bind(EXPOSED, {"brand:1"}) == EXPOSED && Links(EXPOSED)
    ensures Linkable(Mention(), "brand:1", 0, None)
    ensures var row := Q.Leased(Fresh(), WORKER, 0); row.tenant == 0 && row.source == 0 && Time(row) == 0
  {
  }

  // The largest context the settings allow is 50 events.  With 50 mentions before it, all newly linked, the promoted
  // event itself is not on the list of the finding it opens.
  lemma FullContextDropsEvent(g: Q.Settings)
    requires g.maxAttempts > 0
    ensures var db := Db(Mentions(Fresh()), [], []);
      var (after, out) := AnalyseOnce(db, 50, 0, g, EXPOSED, {"brand:1"}, Window(900, 50), false);
      out == Done(Some(0), None) && |after.findings| == 1 && 50 !in after.findings[0].eventIds
  {
    FreshIsReady(g);
    var row := Q.Leased(Fresh(), WORKER, 0);
    LeasedMentions(Fresh(), row);
    ContextIsAll(Mentions(row), Window(900, 50));
    hide RecentContext, Linkable, Promote, Q.Ready, Bind, Links, Mention, Mentions, Fresh, Q.Leased;
    var ctx := RecentContext(Mentions(row), 50, Window(900, 50));
    FullContextDrops(Db(Mentions(row), [], []), 50, EXPOSED, ctx);
  }

  // ---------- a run that gets there ----------

  // What the classifier returns for a mention: a decision and a target, nothing to promote.
  const MENTIONED := Classified(false, false, Some("brand:1"), "brand_mention", 10, "claimed_access")

  const ARRIVAL := Arrive(0, 0, None, false, Some(0), 0)

  function MentionSteps(k: nat): seq<Step> {
    if k == 0 then []
    else MentionSteps(k - 1) + [ARRIVAL] + [Analyse(k - 1, 0, MENTIONED, {"brand:1"}, Window(900, 50), false)]
  }

  lemma RunThen(s: State, steps: seq<Step>, step: Step, g: Q.Settings)
    ensures Run(s, steps + [step], g) == Exec(Run(s, steps, g), step, g)
  {
    assert (steps + [step])[..|steps|] == steps;
  }

  // One event arrives, is analysed, and is a mention.
  lemma MentionStep(events: seq<Event>, g: Q.Settings)
    requires g.maxAttempts > 0
    ensures var k := |events|;
      var arrived := Exec(State(Db(events, [], []), []), ARRIVAL, g);
      Exec(arrived, Analyse(k, 0, MENTIONED, {"brand:1"}, Window(900, 50), false), g)
        == State(Db(events + [Mention()], [], []), [])
  {
    hide RecentContext;
    var k := |events|;
    assert Bind(MENTIONED, {"brand:1"}) == MENTIONED;
    var leased := (events + [Fresh()])[k := Q.Leased(Fresh(), WORKER, 0)];
    assert leased[k := Completed(leased[k], MENTIONED)] == events + [Mention()];
  }

  lemma {:induction false} MentionRun(k: nat, g: Q.Settings)
    requires g.maxAttempts > 0
    ensures Run(State(Db([], [], []), []), MentionSteps(k), g) == State(Db(seq(k, _ => Mention()), [], []), [])
  {
    hide Exec, Run;
    var s := State(Db([], [], []), []);
    if k == 0 {
      RunNothing(s, g);
      assert seq(0, _ => Mention()) == [];
    } else {
      MentionRun(k - 1, g);
      var before := seq(k - 1, _ => Mention());
      RunThen(s, MentionSteps(k - 1), ARRIVAL, g);
      RunThen(s, MentionSteps(k - 1) + [ARRIVAL], Analyse(k - 1, 0, MENTIONED, {"brand:1"}, Window(900, 50), false), g);
      MentionStep(before, g);
      assert before + [Mention()] == seq(k, _ => Mention());
    }
  }

  lemma RunNothing(s: State, g: Q.Settings)
    ensures Run(s, [], g) == s
  {
  }

  // From the empty store: fifty mentions arrive and are analysed, then an exposure arrives and is promoted, and the
  // finding it opens does not list it.
  lemma ReachedEventIsDropped(g: Q.Settings)
    requires g.maxAttempts > 0
    ensures var steps := MentionSteps(50) + [ARRIVAL] + [Analyse(50, 0, EXPOSED, {"brand:1"}, Window(900, 50), false)];
      var t := Run(State(Db([], [], []), []), steps, g);
      |t.db.findings| == 1 && 50 !in t.db.findings[0].eventIds
  {
    var s := State(Db([], [], []), []);
    var last := Analyse(50, 0, EXPOSED, {"brand:1"}, Window(900, 50), false);
    MentionRun(50, g);
    RunThen(s, MentionSteps(50), ARRIVAL, g);
    RunThen(s, MentionSteps(50) + [ARRIVAL], last, g);
    hide Run, MentionSteps, AnalyseOnce;
    assert seq(50, _ => Mention()) + [Fresh()] == Mentions(Fresh());
    FullContextDropsEvent(g);
  }
}
