/**
 Choosing the next event (`acquire_next` in app/collection/analysis.py) and sharing a
 batch between tenants (`run_analysis_once` in app/collection/intelligence_analysis.py).
 */
module Scheduler {
  import opened Wrappers
  import opened Tables
  import opened LeaseQueue

  // ---------- the next ready event ----------

  predicate ReadyFor(events: seq<Event>, tenant: nat, now: int, g: Settings, i: nat) {
    i < |events| && events[i].tenant == tenant && Ready(events[i], now, g)
  }

  // ORDER BY created_at, id
  predicate Before(events: seq<Event>, i: nat, j: nat)
    requires i < |events| && j < |events|
  {
    events[i].createdAt < events[j].createdAt || (events[i].createdAt == events[j].createdAt && i <= j)
  }

  function NextReady(events: seq<Event>, tenant: nat, now: int, g: Settings, n: nat): (r: Option<nat>)
    requires n <= |events|
    ensures r.None? ==> forall i :: 0 <= i < n ==> !ReadyFor(events, tenant, now, g, i)
    ensures r.Some? ==> r.value < n && ReadyFor(events, tenant, now, g, r.value)
    ensures r.Some? ==> forall i :: 0 <= i < n && ReadyFor(events, tenant, now, g, i) ==> Before(events, r.value, i)
  {
    if n == 0 then None
    else
      var r := NextReady(events, tenant, now, g, n - 1);
      if !ReadyFor(events, tenant, now, g, n - 1) then r
      else if r.Some? && Before(events, r.value, n - 1) then r
      else Some(n - 1)
  }

  // The event a tenant is given: of the tenant's events that a worker could take, the oldest by creation and id.
  lemma NextReadyIff(events: seq<Event>, tenant: nat, now: int, g: Settings, i: nat)
    ensures NextReady(events, tenant, now, g, |events|) == Some(i) <==>
      && i < |events| && events[i].tenant == tenant && AcquireRow(events[i], "", now, g).1.Ok?
      && forall j :: 0 <= j < |events| && events[j].tenant == tenant && AcquireRow(events[j], "", now, g).1.Ok? ==>
           events[i].createdAt < events[j].createdAt || (events[i].createdAt == events[j].createdAt && i <= j)
  {
    var r := NextReady(events, tenant, now, g, |events|);
    hide Ready, NextReady;
    assert forall j :: 0 <= j < |events| ==>
      (ReadyFor(events, tenant, now, g, j) <==>
        events[j].tenant == tenant && AcquireRow(events[j], "", now, g).1.Ok?);
    assert r.Some? ==> ReadyFor(events, tenant, now, g, r.value);
  }

  class EventTable {
    var events: seq<Event>

    constructor (rows: seq<Event>)
      ensures events == rows
    {
      events := rows;
    }

    method AcquireNext(tenant: nat, worker: string, now: int, g: Settings) returns (r: Option<nat>)
      modifies this
      ensures r == NextReady(old(events), tenant, now, g, |old(events)|)
      ensures events == if r.Some? then old(events)[r.value := Leased(old(events)[r.value], worker, now)]
          else old(events)
    {
      r := None;
      for i := 0 to |events|
        invariant r == NextReady(events, tenant, now, g, i)
        invariant events == old(events)
      {
        if ReadyFor(events, tenant, now, g, i) && (r.None? || !Before(events, r.value, i)) {
          r := Some(i);
        }
      }
      if r.Some? {
        events := events[r.value := Leased(events[r.value], worker, now)];
      }
    }
  }

  // ---------- sharing the batch ----------

  // What a tenant's turn meets: nothing ready, an event whose source is gone, or an event that is analysed.
  datatype Turn = Dry | SourceGone | Analysed

  function Sum(counts: seq<nat>): nat {
    if counts == [] then 0 else Sum(counts[..|counts| - 1]) + counts[|counts| - 1]
  }

  lemma {:induction false} SumBump(counts: seq<nat>, i: nat)
    requires i < |counts|
    ensures Sum(counts[i := counts[i] + 1]) == Sum(counts) + 1
    decreases |counts|
  {
    var n := |counts| - 1;
    if i == n {
      assert counts[i := counts[i] + 1][..n] == counts[..n];
    } else {
      assert counts[i := counts[i] + 1][..n] == counts[..n][i := counts[..n][i] + 1];
      SumBump(counts[..n], i);
    }
  }

  lemma {:induction false} SumZero(n: nat)
    ensures Sum(seq(n, _ => 0)) == 0
  {
    if n > 0 {
      assert seq(n, _ => 0)[..n - 1] == seq(n - 1, _ => 0);
      SumZero(n - 1);
    }
  }

  // In every round the tenant has an event to analyse.
  ghost predicate NeverDry(meets: (nat, nat) -> Turn, i: nat) {
    forall round: nat :: meets(round, i) == Analysed
  }

  ghost predicate NothingMet(meets: (nat, nat) -> Turn, round: nat, n: nat) {
    forall i: nat :: i < n ==> meets(round, i) != Analysed
  }

  // `meets(round, i)` is what the turn of the i-th tenant meets in that round, whatever
  // other workers do.  Returns the calls of each tenant, and the number of rounds begun.
  method RunAnalysisOnce(tenants: nat, batchSize: nat, meets: (nat, nat) -> Turn) returns (turns: seq<nat>, rounds: nat)
    ensures |turns| == tenants && Sum(turns) <= batchSize && rounds <= batchSize + 1
    ensures forall i, j :: 0 <= i < tenants && 0 <= j < tenants && NeverDry(meets, i) && NeverDry(meets, j)
                           ==> turns[i] <= turns[j] + 1
    ensures Sum(turns) < batchSize ==>
      rounds > 0 && NothingMet(meets, rounds - 1, tenants)
  {
    turns := seq(tenants, _ => 0);
    SumZero(tenants);
    var remaining := batchSize;
    rounds := 0;
    while remaining > 0
      invariant |turns| == tenants && remaining >= 0 && Sum(turns) + remaining == batchSize && rounds <= Sum(turns)
      invariant forall i :: 0 <= i < tenants && NeverDry(meets, i) ==>
        turns[i] == rounds || (remaining == 0 && rounds - 1 <= turns[i] <= rounds)
      decreases remaining
    {
      var progressed := false;
      ghost var start := remaining;
      ghost var round := rounds;
      rounds := rounds + 1;
      var i := 0;
      while i < tenants && remaining > 0
        invariant 0 <= i <= tenants && |turns| == tenants && Sum(turns) + remaining == batchSize
        invariant 0 <= remaining <= start && (progressed <==> remaining < start)
        invariant round + (if progressed then 1 else 0) <= Sum(turns) && rounds == round + 1
        invariant !progressed ==> NothingMet(meets, round, i)
        invariant forall j :: 0 <= j < tenants && NeverDry(meets, j) ==> turns[j] == if j < i then round + 1 else round
      {
        var met := meets(rounds - 1, i);
        if met == Analysed {
          SumBump(turns, i);
          turns := turns[i := turns[i] + 1];
          remaining := remaining - 1;
          progressed := true;
        }
        i := i + 1;
      }
      if !progressed { break; }
    }
  }

  // ---------- an event that cannot be analysed blocks its tenant ----------

  // Rows as the deployed worker commits them: taking up and completing are one transaction,
  // and a failed analysis rolls back to the row as it was.
  ghost predicate Committed(events: seq<Event>) {
    forall i :: 0 <= i < |events| ==> events[i].state != Failed && events[i].state != Analyzing
  }

  // One turn of a tenant, where analysing an event of `poison` raises and any other succeeds.
  function TurnOf(events: seq<Event>, tenant: nat, now: int, g: Settings, poison: set<nat>, a: Analysis): seq<Event> {
    match NextReady(events, tenant, now, g, |events|)
    case None => events
    case Some(i) =>
      if i in poison then events
      else
        var leased := Leased(events[i], "intelligence-analysis", now);
        events[i := CompleteRow(leased, "intelligence-analysis", a).0]
  }

  function TurnsOf(events: seq<Event>, tenant: nat, clock: seq<int>, g: Settings, poison: set<nat>, a: Analysis)
    : seq<Event>
  {
    if clock == [] then events
    else TurnOf(TurnsOf(events, tenant, clock[..|clock| - 1], g, poison, a), tenant, clock[|clock| - 1], g, poison, a)
  }

  ghost function ReadySet(events: seq<Event>, tenant: nat, g: Settings): set<nat> {
    set i: nat | i < |events| && ReadyFor(events, tenant, 0, g, i)
  }

  // No event of poison is ready at or before i.
  ghost predicate Reachable(events: seq<Event>, tenant: nat, g: Settings, poison: set<nat>, i: nat)
    requires i < |events|
  {
    forall j: nat :: j < |events| && j in poison && ReadyFor(events, tenant, 0, g, j) ==> !Before(events, j, i)
  }

  // Same rows except that some reachable ones are analysed.
  ghost predicate Progressed(events: seq<Event>, after: seq<Event>, tenant: nat, g: Settings, poison: set<nat>) {
    && |after| == |events| && Committed(after)
    && forall i :: 0 <= i < |events| ==>
      || after[i] == events[i]
      || (&& ReadyFor(events, tenant, 0, g, i) && Reachable(events, tenant, g, poison, i)
          && after[i].state == Analyzed && after[i].createdAt == events[i].createdAt)
  }

  lemma TurnProgresses(events: seq<Event>, mid: seq<Event>, tenant: nat, now: int, g: Settings, poison: set<nat>,
      a: Analysis)
    requires Committed(events) && Progressed(events, mid, tenant, g, poison)
    ensures var after := TurnOf(mid, tenant, now, g, poison, a);
      && Progressed(events, after, tenant, g, poison)
      && ((exists i :: i in ReadySet(mid, tenant, g) && Reachable(events, tenant, g, poison, i)) ==>
            |ReadySet(after, tenant, g)| < |ReadySet(mid, tenant, g)|)
  {
    var after := TurnOf(mid, tenant, now, g, poison, a);
    var next := NextReady(mid, tenant, now, g, |mid|);
    assert forall j: nat :: j < |mid| ==> ReadyFor(mid, tenant, now, g, j) == ReadyFor(mid, tenant, 0, g, j);
    if next.Some? {
      var n := next.value;
      assert mid[n] == events[n];
      if n !in poison {
        forall j: nat | j < |events| && j in poison && ReadyFor(events, tenant, 0, g, j)
          ensures !Before(events, j, n)
        {
          assert mid[j] == events[j];
          assert Before(mid, n, j);
        }
        assert n in ReadySet(mid, tenant, g);
        assert ReadySet(after, tenant, g) == ReadySet(mid, tenant, g) - {n};
      } else {
        forall i | i in ReadySet(mid, tenant, g)
          ensures !Reachable(events, tenant, g, poison, i)
        {
          assert Before(mid, n, i) && mid[i] == events[i];
        }
      }
    }
  }

  lemma {:induction false} TurnsProgress(events: seq<Event>, tenant: nat, clock: seq<int>, g: Settings,
      poison: set<nat>, a: Analysis)
    requires Committed(events)
    ensures var after := TurnsOf(events, tenant, clock, g, poison, a);
      && Progressed(events, after, tenant, g, poison)
      && ((exists i :: i in ReadySet(after, tenant, g) && Reachable(events, tenant, g, poison, i)) ==>
            |ReadySet(after, tenant, g)| + |clock| <= |ReadySet(events, tenant, g)|)
    decreases |clock|
  {
    if clock != [] {
      var n := |clock| - 1;
      TurnsProgress(events, tenant, clock[..n], g, poison, a);
      var mid := TurnsOf(events, tenant, clock[..n], g, poison, a);
      TurnProgresses(events, mid, tenant, clock[n], g, poison, a);
      var after := TurnsOf(events, tenant, clock, g, poison, a);
      if i :| i in ReadySet(after, tenant, g) && Reachable(events, tenant, g, poison, i) {
        TurnKeepsOthers(mid, tenant, clock[n], g, poison, a, i);
      }
    }
  }

  lemma TurnKeepsOthers(mid: seq<Event>, tenant: nat, now: int, g: Settings, poison: set<nat>, a: Analysis, i: nat)
    requires Committed(mid) && i in ReadySet(TurnOf(mid, tenant, now, g, poison, a), tenant, g)
    ensures i in ReadySet(mid, tenant, g)
  {
  }

  // After as many turns as there were ready events, or more, the events left are exactly those with an
  // unanalysable event at or before them: one such event stops its tenant for good.
  lemma LeftBehindPoison(events: seq<Event>, tenant: nat, clock: seq<int>, g: Settings, poison: set<nat>, a: Analysis,
      i: nat)
    requires Committed(events) && i in ReadySet(events, tenant, g)
    requires |clock| >= |ReadySet(events, tenant, g)|
    ensures i in ReadySet(TurnsOf(events, tenant, clock, g, poison, a), tenant, g)
        <==> !Reachable(events, tenant, g, poison, i)
  {
    TurnsProgress(events, tenant, clock, g, poison, a);
    var left := ReadySet(TurnsOf(events, tenant, clock, g, poison, a), tenant, g);
    assert left == {} ==> i !in left;
  }
}
