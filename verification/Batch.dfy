/** One polling cycle of one worker (`run_connection_once` in app/collection/worker.py). */
module Batch {
  import opened Wrappers
  import opened Tables
  import opened Ingest
  import W = Workers
  import C = Confirmation
  import L = IngestLaw

  datatype Tally = Tally(processed: nat, deduplicated: nat, rejected: nat, ignored: nat) {
    function Total(): nat { processed + deduplicated + rejected + ignored }
  }

  // Aborted is an exception the loop does not catch.
  datatype Status = Completed | Stopped | Aborted

  datatype Progress = Progress(db: Db, tally: Tally, status: Status)

  // A cycle over a polled batch; the clock and the database failures it meets are given by update.
  datatype Cycle = Cycle(conn: nat, active: map<string, nat>, batch: seq<Update>, now: nat -> int, fault: nat -> bool)

  function Visit(p: Progress, c: Cycle, k: nat): Progress
    requires k < |c.batch|
  {
    var u := c.batch[k];
    if p.status != Completed then p
    else if u.ref !in c.active then
      if c.fault(k) || c.conn !in p.db.connections || p.db.connections[c.conn].deleted then p.(status := Aborted)
      else p.(db := p.db.(connections := Advance(p.db.connections, c.conn, u.updateId)),
              tally := p.tally.(ignored := p.tally.ignored + 1))
    else if c.active[u.ref] !in p.db.sources then p.(status := Aborted)
    else
      var (db, out) := IngestOnce(p.db, c.active[u.ref], u, c.now(k), c.fault(k));
      match out
      case InfrastructureError => p.(db := db, status := Stopped)
      case NotAllowed => p.(db := db, status := Aborted)
      case Raised => p.(db := db, status := Aborted)
      case Deduplicated(_) => p.(db := db, tally := p.tally.(deduplicated := p.tally.deduplicated + 1))
      case RejectionStored(_) => p.(db := db, tally := p.tally.(rejected := p.tally.rejected + 1))
      case _ => p.(db := db, tally := p.tally.(processed := p.tally.processed + 1))
  }

  function Pass(db: Db, c: Cycle, n: nat): Progress
    requires n <= |c.batch|
  {
    if n == 0 then Progress(db, Tally(0, 0, 0, 0), Completed) else Visit(Pass(db, c, n - 1), c, n - 1)
  }

  lemma {:induction false} StoppedStays(db: Db, c: Cycle, n: nat, m: nat)
    requires n <= m <= |c.batch| && Pass(db, c, n).status != Completed
    ensures Pass(db, c, m) == Pass(db, c, n)
    decreases m
  {
    if n < m {
      StoppedStays(db, c, n, m - 1);
    }
  }

  method RunConnectionOnce(store: Store, c: Cycle) returns (tally: Tally, status: Status)
    modifies store
    ensures Progress(store.Abs(), tally, status) == Pass(old(store.Abs()), c, |c.batch|)
  {
    ghost var start := store.Abs();
    var processed, deduplicated, rejected, ignored := 0, 0, 0, 0;
    for k := 0 to |c.batch|
      invariant Progress(store.Abs(), Tally(processed, deduplicated, rejected, ignored), Completed) == Pass(start, c, k)
    {
      hide IngestOnce;
      var u := c.batch[k];
      ghost var next := Pass(start, c, k + 1);
      assert next == Visit(Pass(start, c, k), c, k);
      if next.status != Completed {
        StoppedStays(start, c, k + 1, |c.batch|);
      }
      if u.ref !in c.active {
        if c.fault(k) || c.conn !in store.connections || store.connections[c.conn].deleted {
          return Tally(processed, deduplicated, rejected, ignored), Aborted;
        }
        store.AdvanceCursor(c.conn, u.updateId);
        ignored := ignored + 1;
      } else if c.active[u.ref] !in store.sources {
        return Tally(processed, deduplicated, rejected, ignored), Aborted;
      } else {
        var out := store.IngestUpdate(c.active[u.ref], u, c.now(k), c.fault(k));
        match out {
          case InfrastructureError => return Tally(processed, deduplicated, rejected, ignored), Stopped;
          case NotAllowed => return Tally(processed, deduplicated, rejected, ignored), Aborted;
          case Raised => return Tally(processed, deduplicated, rejected, ignored), Aborted;
          case Deduplicated(_) => deduplicated := deduplicated + 1;
          case RejectionStored(_) => rejected := rejected + 1;
          case _ => processed := processed + 1;
        }
      }
    }
    return Tally(processed, deduplicated, rejected, ignored), Completed;
  }

  // Every visited update is counted once, and rows are written for exactly those processed or rejected.
  lemma {:induction false} TallyAddsUp(db: Db, c: Cycle, n: nat)
    requires n <= |c.batch|
    ensures var p := Pass(db, c, n);
      && p.tally.Total() <= n && (p.status == Completed <==> p.tally.Total() == n)
      && |p.db.events| == |db.events| + p.tally.processed + p.tally.rejected
    decreases n
  {
    if n != 0 {
      TallyAddsUp(db, c, n - 1);
      var p, u := Pass(db, c, n - 1), c.batch[n - 1];
      if u.ref in c.active && c.active[u.ref] in p.db.sources {
        var src := c.active[u.ref];
        RowAndCursorTogether(p.db, src, u, Decide(p.db, src, u, c.now(n - 1)), c.now(n - 1), c.fault(n - 1));
      }
    }
  }

  // The new rows that are rejections.
  function Rejections(events: seq<Event>, from: nat): nat
    requires from <= |events|
    decreases |events|
  {
    if |events| == from then 0
    else
      var n := |events| - 1;
      Rejections(events[..n], from) + if events[n].state == Rejected then 1 else 0
  }

  // The visited updates of no live source.
  function Unsourced(c: Cycle, n: nat): nat
    requires n <= |c.batch|
  {
    if n == 0 then 0 else Unsourced(c, n - 1) + if c.batch[n - 1].ref in c.active then 0 else 1
  }

  // Rejected counts the rejection rows written, processed the other rows, ignored the updates of no live source, and
  // deduplicated the rest.
  lemma {:induction false} TallyCounts(db: Db, c: Cycle, n: nat)
    requires n <= |c.batch| && Pass(db, c, n).status == Completed
    ensures var p := Pass(db, c, n);
      && |db.events| <= |p.db.events|
      && p.tally.rejected == Rejections(p.db.events, |db.events|)
      && p.tally.processed == |p.db.events| - |db.events| - p.tally.rejected
      && p.tally.ignored == Unsourced(c, n)
      && p.tally.deduplicated == n - p.tally.processed - p.tally.rejected - p.tally.ignored
    decreases n
  {
    if n > 0 {
      hide IngestOnce;
      TallyCounts(db, c, n - 1);
      var p, u := Pass(db, c, n - 1), c.batch[n - 1];
      if u.ref in c.active && c.active[u.ref] in p.db.sources {
        VisitCounts(p.db, c.active[u.ref], u, c.now(n - 1), c.fault(n - 1), |db.events|);
      }
    }
  }

  lemma VisitCounts(db: Db, src: nat, u: Update, now: int, fault: bool, from: nat)
    requires src in db.sources && from <= |db.events|
    ensures var (after, out) := IngestOnce(db, src, u, now, fault);
      var wrote := out.Stored? || out.ControlStored? || out.RejectionStored?;
      && |after.events| == |db.events| + (if wrote then 1 else 0)
      && Rejections(after.events, from) == Rejections(db.events, from) + if out.RejectionStored? then 1 else 0
  {
    hide FindExisting, MatchFor, Advance;
    var (after, out) := IngestOnce(db, src, u, now, fault);
    if after.events != db.events {
      assert after.events[..|after.events| - 1] == db.events;
    }
  }

  // How an update ends the cycle: a failure of the transaction stops it; a raising normalizer, an inactive source,
  // and a connection deleted or failing under an ignored update abort it.
  lemma VisitEnds(p: Progress, c: Cycle, k: nat)
    requires k < |c.batch| && p.status == Completed && C.UniqueNonces(p.db.requests)
    ensures var status, u := Visit(p, c, k).status, c.batch[k];
      if u.ref !in c.active then
        status == if c.conn in p.db.connections && !p.db.connections[c.conn].deleted && !c.fault(k) then Completed
                  else Aborted
      else if c.active[u.ref] !in p.db.sources then
        status == Aborted
      else
        var src := c.active[u.ref];
        && (status == Stopped <==> c.fault(k) && L.Writes(p.db, src, u, c.now(k)))
        && (status == Aborted <==>
              !C.Active_(p.db, src) || (L.Reads(p.db, src, u, c.now(k)) && u.normalized.Raises?))
  {
    hide IngestOnce, L.Writes, L.Reads, C.Active_, L.Seen, L.Clashes, L.SomeConfirmable;
    var u := c.batch[k];
    if u.ref in c.active && c.active[u.ref] in p.db.sources {
      if c.fault(k) { L.FailureIff(p.db, c.active[u.ref], u, c.now(k)); }
      else { L.AnswerIff(p.db, c.active[u.ref], u, c.now(k)); }
    }
  }

  // ---------- the cycle is a run of the worker system ----------

  // The clock reading before the k-th update.
  function Before(c: Cycle, start: int, k: nat): int { if k == 0 then start else c.now(k - 1) }

  // The steps one worker takes through the first n updates, with the clock moved to each reading.
  ghost function Trace(w: nat, c: Cycle, start: int, n: nat): seq<W.Step>
    requires n <= |c.batch|
  {
    if n == 0 then []
    else
      var d := c.now(n - 1) - Before(c, start, n - 1);
      Trace(w, c, start, n - 1) + [W.Tick(if d >= 0 then d else 0)]
      + if c.batch[n - 1].ref in c.active then [W.Read(w), W.Write(w, c.fault(n - 1))] else [W.Skip(w, c.fault(n - 1))]
  }

  predicate ForwardClock(c: Cycle, start: int) {
    forall k {:trigger Before(c, start, k)} :: 0 <= k < |c.batch| ==> Before(c, start, k) <= c.now(k)
  }

  ghost predicate Holding(s: W.System, w: nat, c: Cycle) {
    && w in s.workers && s.workers[w].Busy?
    && s.workers[w].conn == c.conn && s.workers[w].batch == c.batch && s.workers[w].active == c.active
    && s.workers[w].plan.None?
  }

  lemma RunThen(s: W.System, steps: seq<W.Step>, step: W.Step)
    ensures W.Run(s, steps + [step]) == W.Exec(W.Run(s, steps), step)
  {
    W.RunConcat(s, steps, [step]);
    W.RunOne(W.Run(s, steps), step);
  }

  function Later(s: W.System, d: nat): W.System { s.(now := s.now + d) }

  // The worker's steps on its k-th update: read then write, or skip.
  ghost function VisitSteps(s: W.System, w: nat, c: Cycle, k: nat): W.System
    requires k < |c.batch|
  {
    if c.batch[k].ref in c.active then W.Exec(W.Exec(s, W.Read(w)), W.Write(w, c.fault(k)))
    else W.Exec(s, W.Skip(w, c.fault(k)))
  }

  lemma VisitIsRun(s: W.System, w: nat, c: Cycle, p: Progress, k: nat)
    requires k < |c.batch| && Holding(s, w, c) && s.workers[w].k == k
    requires p.db == s.db && p.status == Completed && s.now == c.now(k)
    requires forall ref :: ref in c.active ==> c.active[ref] in s.db.sources
    ensures var q := Visit(p, c, k);
      var t := VisitSteps(s, w, c, k);
      && t.db == q.db && t.now == s.now && q.db.sources == p.db.sources
      && if q.status == Completed then Holding(t, w, c) && t.workers[w].k == k + 1
         else w in t.workers && t.workers[w].Idle?
  {
    var u := c.batch[k];
    if u.ref in c.active {
      var src := c.active[u.ref];
      var plan := Decide(s.db, src, u, s.now);
      RowAndCursorTogether(s.db, src, u, plan, s.now, c.fault(k));
      var mid := W.Exec(s, W.Read(w));
      assert mid.db == s.db && mid.workers[w].plan == Some(plan);
    }
  }

  // An idle worker's steps change nothing but the clock.
  lemma IdleStutters(s: W.System, w: nat, c: Cycle, k: nat)
    requires k < |c.batch| && w in s.workers && s.workers[w].Idle?
    ensures VisitSteps(s, w, c, k) == s
  {
  }

  // The system t is where the first n updates of the cycle, started in s, have led.
  ghost predicate Follows(s: W.System, t: W.System, w: nat, c: Cycle, n: nat)
    requires n <= |c.batch|
  {
    var p := Pass(s.db, c, n);
    && t.db == p.db && t.db.sources == s.db.sources
    && t.now == Before(c, s.now, n)
    && if p.status == Completed then Holding(t, w, c) && t.workers[w].k == n
       else w in t.workers && t.workers[w].Idle?
  }

  lemma FollowsStep(s: W.System, b: W.System, w: nat, c: Cycle, k: nat, d: nat)
    requires k < |c.batch| && Follows(s, b, w, c, k) && d == c.now(k) - Before(c, s.now, k)
    requires forall ref :: ref in c.active ==> c.active[ref] in s.db.sources
    ensures Follows(s, VisitSteps(Later(b, d), w, c, k), w, c, k + 1)
  {
    hide Visit, W.Exec, VisitSteps;
    var t := Later(b, d);
    if Pass(s.db, c, k).status == Completed {
      VisitIsRun(t, w, c, Pass(s.db, c, k), k);
    } else {
      IdleStutters(t, w, c, k);
      StoppedStays(s.db, c, k, k + 1);
    }
  }

  lemma {:induction false} PassIsRun(s: W.System, w: nat, c: Cycle, n: nat)
    requires n <= |c.batch| && Holding(s, w, c) && s.workers[w].k == 0 && ForwardClock(c, s.now)
    requires forall ref :: ref in c.active ==> c.active[ref] in s.db.sources
    ensures Follows(s, W.Run(s, Trace(w, c, s.now, n)), w, c, n)
    decreases n
  {
    hide W.Exec, W.Run, Trace, Follows, Pass, VisitSteps;
    if n == 0 {
      FollowsStart(s, w, c);
    } else {
      var k := n - 1;
      PassIsRun(s, w, c, k);
      assert Before(c, s.now, k) <= c.now(k);
      var d := c.now(k) - Before(c, s.now, k);
      TraceStep(s, w, c, k, d);
      FollowsStep(s, W.Run(s, Trace(w, c, s.now, k)), w, c, k, d);
    }
  }

  lemma FollowsStart(s: W.System, w: nat, c: Cycle)
    requires Holding(s, w, c) && s.workers[w].k == 0
    ensures W.Run(s, Trace(w, c, s.now, 0)) == s && Follows(s, s, w, c, 0)
  {
  }

  lemma TickMovesClock(s: W.System, d: nat)
    ensures W.Exec(s, W.Tick(d)) == Later(s, d)
  {
  }

  lemma TraceStep(s: W.System, w: nat, c: Cycle, k: nat, d: nat)
    requires k < |c.batch| && d == c.now(k) - Before(c, s.now, k)
    ensures W.Run(s, Trace(w, c, s.now, k + 1)) == VisitSteps(Later(W.Run(s, Trace(w, c, s.now, k)), d), w, c, k)
  {
    hide W.Run, W.Exec;
    var trace := Trace(w, c, s.now, k);
    var ticked := trace + [W.Tick(d)];
    RunThen(s, trace, W.Tick(d));
    TickMovesClock(W.Run(s, trace), d);
    if c.batch[k].ref in c.active {
      RunThen(s, ticked, W.Read(w));
      RunThen(s, ticked + [W.Read(w)], W.Write(w, c.fault(k)));
      assert Trace(w, c, s.now, k + 1) == ticked + [W.Read(w)] + [W.Write(w, c.fault(k))];
    } else {
      RunThen(s, ticked, W.Skip(w, c.fault(k)));
      assert Trace(w, c, s.now, k + 1) == ticked + [W.Skip(w, c.fault(k))];
    }
  }

  // Whatever else the system has done, a cycle started from a good state loses nothing.
  lemma CycleLosesNothing(s: W.System, w: nat, c: Cycle)
    requires W.Inv(s) && Holding(s, w, c) && s.workers[w].k == 0 && ForwardClock(c, s.now)
    ensures var t := W.Run(s, Trace(w, c, s.now, |c.batch|));
      t.db == Pass(s.db, c, |c.batch|).db && W.NoLoss(t)
  {
    hide W.Run, W.Exec, Trace, Pass;
    assert W.WorkerInv(s, s.workers[w]);
    PassIsRun(s, w, c, |c.batch|);
    W.RunKeepsInv(s, Trace(w, c, s.now, |c.batch|));
  }

  // ---------- which cycles move anything ----------

  // The polled updates all lie after the cursor, and belong to the connection's sources.
  ghost predicate AheadOf(db: Db, c: Cycle) {
    && c.conn in db.connections
    && (forall k :: 0 <= k < |c.batch| ==>
          c.batch[k].updateId.Some? && c.batch[k].updateId != db.connections[c.conn].cursor)
    && (forall ref :: ref in c.active ==> c.active[ref] in db.sources && db.sources[c.active[ref]].connection == c.conn)
  }

  ghost predicate CursorInBatch(db: Db, c: Cycle) {
    c.conn in db.connections && exists k :: 0 <= k < |c.batch| && c.batch[k].updateId == db.connections[c.conn].cursor
  }

  lemma {:induction false} CursorOfPass(db: Db, c: Cycle, n: nat)
    requires n <= |c.batch| && AheadOf(db, c)
    ensures var p := Pass(db, c, n);
      && p.db.sources == db.sources && c.conn in p.db.connections
      && if p.tally.Total() == p.tally.deduplicated then p.db == db else CursorInBatch(p.db, c)
    decreases n
  {
    if n != 0 {
      hide Decide, Commit;
      CursorOfPass(db, c, n - 1);
      var p, u := Pass(db, c, n - 1), c.batch[n - 1];
      var q := Pass(db, c, n);
      if u.ref in c.active {
        var src := c.active[u.ref];
        var plan := Decide(p.db, src, u, c.now(n - 1));
        RowAndCursorTogether(p.db, src, u, plan, c.now(n - 1), c.fault(n - 1));
      }
    }
  }

  // What becomes of an update on tables as they are: it stops the cycle, a stored row answers it, or it is ignored or
  // stored and moves the cursor.
  datatype Fate = Blocked | Answered | Moving

  function FateOf(db: Db, conn: nat, active: map<string, nat>, u: Update, now: int, fault: bool): Fate {
    if u.ref !in active then
      if fault || conn !in db.connections || db.connections[conn].deleted then Blocked else Moving
    else if active[u.ref] !in db.sources then Blocked
    else
      var src := active[u.ref];
      match Decide(db, src, u, now)
      case Refuse => Blocked
      case Crash => Blocked
      case Replay(_) => Answered
      case Insert(key, _, _) =>
        if fault then Blocked
        else if FindExisting(db.events, db.sources[src].tenant, src, key).Some? then Answered
        else Moving
      case _ => if fault then Blocked else Moving
  }

  function FateAt(db: Db, c: Cycle, k: nat): Fate
    requires k < |c.batch|
  {
    FateOf(db, c.conn, c.active, c.batch[k], c.now(k), c.fault(k))
  }

  ghost predicate AnsweredTo(db: Db, c: Cycle, n: nat)
    requires n <= |c.batch|
  {
    forall j :: 0 <= j < n ==> FateAt(db, c, j) == Answered
  }

  lemma CommitByFate(db: Db, src: nat, u: Update, now: int, fault: bool)
    requires src in db.sources
    ensures var (after, out) := IngestOnce(db, src, u, now, fault);
      match FateOf(db, 0, map[u.ref := src], u, now, fault)
      case Answered => after == db && out.Deduplicated?
      case Blocked => after == db && (out.NotAllowed? || out.Raised? || out.InfrastructureError?)
      case Moving => out.Stored? || out.ControlStored? || out.RejectionStored?
  {
    hide FindExisting, MatchFor, ActivePair;
  }

  lemma VisitByFate(db: Db, c: Cycle, k: nat)
    requires k < |c.batch|
    ensures var q := Visit(Progress(db, Tally(0, k, 0, 0), Completed), c, k);
      match FateAt(db, c, k)
      case Answered => q == Progress(db, Tally(0, k + 1, 0, 0), Completed)
      case Blocked => q.db == db && q.status != Completed && q.tally == Tally(0, k, 0, 0)
      case Moving => q.status == Completed && q.tally.Total() == k + 1 && q.tally.deduplicated == k
  {
    hide IngestOnce, Decide, FindExisting;
    var u := c.batch[k];
    if u.ref in c.active && c.active[u.ref] in db.sources {
      CommitByFate(db, c.active[u.ref], u, c.now(k), c.fault(k));
    }
  }

  lemma {:induction false} PassOfAnswered(db: Db, c: Cycle, n: nat)
    requires n <= |c.batch| && AnsweredTo(db, c, n)
    ensures Pass(db, c, n) == Progress(db, Tally(0, n, 0, 0), Completed)
    decreases n
  {
    if n > 0 {
      hide FateAt;
      PassOfAnswered(db, c, n - 1);
      VisitByFate(db, c, n - 1);
    }
  }

  // What is more than duplicates in the tally stays so.
  lemma {:induction false} OthersStay(db: Db, c: Cycle, n: nat, m: nat)
    requires n <= m <= |c.batch|
    ensures var p, q := Pass(db, c, n).tally, Pass(db, c, m).tally;
      q.Total() - q.deduplicated >= p.Total() - p.deduplicated
    decreases m
  {
    if n < m {
      hide IngestOnce;
      OthersStay(db, c, n, m - 1);
    }
  }

  // How far the answered updates reach.
  lemma AnsweredReach(db: Db, c: Cycle) returns (k: nat)
    ensures k <= |c.batch| && AnsweredTo(db, c, k) && (k < |c.batch| ==> FateAt(db, c, k) != Answered)
  {
    hide FateAt;
    k := 0;
    while k < |c.batch| && FateAt(db, c, k) == Answered
      invariant k <= |c.batch| && AnsweredTo(db, c, k)
    {
      k := k + 1;
    }
  }

  // The first update that no row answers is ignored or stored.
  ghost predicate MovesAt(db: Db, c: Cycle, k: nat) {
    k < |c.batch| && AnsweredTo(db, c, k) && FateAt(db, c, k) == Moving
  }

  lemma PassAfterReach(db: Db, c: Cycle, k: nat)
    requires AheadOf(db, c) && k <= |c.batch| && AnsweredTo(db, c, k)
    requires k < |c.batch| ==> FateAt(db, c, k) != Answered
    ensures Pass(db, c, |c.batch|).db != db <==> k < |c.batch| && FateAt(db, c, k) == Moving
  {
    hide FateAt, Visit;
    PassOfAnswered(db, c, k);
    CursorOfPass(db, c, |c.batch|);
    if k < |c.batch| {
      VisitByFate(db, c, k);
      if FateAt(db, c, k) == Moving {
        OthersStay(db, c, k + 1, |c.batch|);
      } else {
        StoppedStays(db, c, k + 1, |c.batch|);
      }
    }
  }

  lemma ReachIsUnique(db: Db, c: Cycle, j: nat, k: nat)
    requires MovesAt(db, c, j) && k <= |c.batch| && AnsweredTo(db, c, k)
    requires k < |c.batch| ==> FateAt(db, c, k) != Answered
    ensures j == k
  {
    hide FateAt;
  }

  // A cycle changes the tables exactly when some update, all before it answered by stored rows, is skipped, confirms a
  // request, is rejected, or is inserted under a free key: all read from the tables and the batch as they are before.
  lemma CycleMovesIff(db: Db, c: Cycle)
    requires AheadOf(db, c)
    ensures Pass(db, c, |c.batch|).db != db <==> exists k: nat :: MovesAt(db, c, k)
  {
    hide FateAt, Pass, AheadOf;
    var k := AnsweredReach(db, c);
    PassAfterReach(db, c, k);
    assert k < |c.batch| && FateAt(db, c, k) == Moving ==> MovesAt(db, c, k);
    if j: nat :| MovesAt(db, c, j) { ReachIsUnique(db, c, j, k); }
  }

  // ---------- all connections in turn ----------

  // run_all_once: the connections' cycles in order; an exception that the loop does not catch ends them all.  Each
  // cycle is what its connection would poll on the tables it finds.
  function Round(db: Db, polls: seq<Db -> Cycle>, n: nat): (Db, bool)
    requires n <= |polls|
  {
    if n == 0 then (db, true)
    else
      var (mid, going) := Round(db, polls, n - 1);
      var c := polls[n - 1](mid);
      if !going then (mid, false)
      else
        var p := Pass(mid, c, |c.batch|);
        (p.db, p.status != Aborted)
  }

  // The first update no row answers raises, or its connection or source is refused.
  ghost predicate RaisesAt(db: Db, c: Cycle, k: nat) {
    && k < |c.batch| && AnsweredTo(db, c, k)
    && c.batch[k].ref in c.active && c.active[c.batch[k].ref] in db.sources
    && var plan := Decide(db, c.active[c.batch[k].ref], c.batch[k], c.now(k));
    plan.Crash? || plan.Refuse?
  }

  lemma RaisingCycleAborts(db: Db, c: Cycle, k: nat)
    requires RaisesAt(db, c, k)
    ensures Pass(db, c, |c.batch|) == Progress(db, Tally(0, k, 0, 0), Aborted)
  {
    hide FateAt, Decide;
    PassOfAnswered(db, c, k);
    StoppedStays(db, c, k + 1, |c.batch|);
  }

  lemma {:induction false} EndedStays(db: Db, polls: seq<Db -> Cycle>, n: nat, m: nat)
    requires n <= m <= |polls| && !Round(db, polls, n).1
    ensures Round(db, polls, m) == Round(db, polls, n)
    decreases m
  {
    hide Pass;
    if n < m { EndedStays(db, polls, n, m - 1); }
  }

  // A connection held by such an update keeps every later connection from being polled, and the round from going on to
  // the analysis: the tables are left as the connections before it left them.
  lemma LaterConnectionsStarve(db: Db, polls: seq<Db -> Cycle>, i: nat, k: nat)
    requires i < |polls| && Round(db, polls, i).1
    requires var mid := Round(db, polls, i).0; RaisesAt(mid, polls[i](mid), k)
    ensures Round(db, polls, |polls|) == (Round(db, polls, i).0, false)
  {
    hide Pass, RaisesAt;
    var mid := Round(db, polls, i).0;
    RaisingCycleAborts(mid, polls[i](mid), k);
    EndedStays(db, polls, i + 1, |polls|);
  }
}
