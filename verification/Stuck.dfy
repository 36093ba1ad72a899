/** When polling can make no more progress, exactly (app/collection/ingest.py, worker.py). */
module Stuck {
  import opened Wrappers
  import opened Hashing
  import opened Tables
  import opened Ingest
  import opened Workers
  import B = Batch
  import C = Cursor

  // ---------- held ----------

  // The next n updates after the cursor, or those that have arrived.
  function Window(s: System, c: nat, n: nat): seq<Update>
    requires c in s.streams && c in s.db.connections
  {
    var p, stream := C.At(s, c), s.streams[c];
    if p + n <= |stream| then stream[p..p + n] else stream[p..]
  }

  function Fate(db: Db, c: nat, active: map<string, nat>, u: Update, now: int): B.Fate {
    B.FateOf(db, c, active, u, now, false)
  }

  ghost predicate AnsweredTo(db: Db, c: nat, active: map<string, nat>, b: seq<Update>, now: int, m: nat)
    requires m <= |b|
  {
    forall j :: 0 <= j < m ==> Fate(db, c, active, b[j], now) == B.Answered
  }

  // The first update that no row answers is blocked; or all n are answered.
  ghost predicate HeldBy(db: Db, c: nat, active: map<string, nat>, b: seq<Update>, now: int, n: nat) {
    exists m :: HeldAt(db, c, active, b, now, n, m)
  }

  ghost predicate HeldAt(db: Db, c: nat, active: map<string, nat>, b: seq<Update>, now: int, n: nat, m: nat) {
    && m <= |b| && AnsweredTo(db, c, active, b, now, m)
    && if m < |b| then Fate(db, c, active, b[m], now) == B.Blocked else |b| == n
  }

  // So it is for every choice of live sources.
  ghost predicate Held(s: System, c: nat, n: nat)
    requires c in s.streams && c in s.db.connections
  {
    forall active :: IsActiveMap(s.db, c, active) ==> HeldBy(s.db, c, active, Window(s, c, n), s.now, n)
  }

  // Workers of the connection polling at most n updates at a time, crashes and failures, arrivals and the clock.
  predicate Works(step: Step, c: nat, n: nat) {
    match step
    case Arrive(_, _) => true
    case Poll(_, conn, count, _) => conn == c && count <= n
    case Read(_) => true
    case Write(_, _) => true
    case Skip(_, _) => true
    case Stop(_) => true
    case Tick(_) => true
    case _ => false
  }

  ghost predicate AllWork(steps: seq<Step>, c: nat, n: nat) { forall k :: 0 <= k < |steps| ==> Works(steps[k], c, n) }

  // The connection's stream and cursor are in order, and its workers have not begun.
  ghost predicate AtRest(s: System, c: nat) {
    && c in s.streams && c in s.db.connections && IsStream(s.streams[c]) && CursorOnStream(s, c)
    && forall w :: w in s.workers ==> s.workers[w].Idle?
  }

  // ---------- fates do not change with the clock ----------

  lemma MatchLater(db: Db, src: nat, u: Update, now: int, later: int)
    requires src in db.sources && now <= later && !MatchFor(db, src, u, now).Matched?
    ensures !MatchFor(db, src, u, later).Matched?
  {
  }

  lemma FateLater(db: Db, c: nat, active: map<string, nat>, u: Update, now: int, later: int)
    requires now <= later && !Fate(db, c, active, u, now).Moving?
    ensures Fate(db, c, active, u, later) == Fate(db, c, active, u, now)
  {
    hide MatchFor, FindExisting, ActivePair;
    if u.ref in active && active[u.ref] in db.sources {
      if !MatchFor(db, active[u.ref], u, now).Matched? { MatchLater(db, active[u.ref], u, now, later); }
    }
  }

  // ---------- the workers of a held connection ----------

  // What the plan of an answered or a blocked update is.
  predicate PlanFits(db: Db, src: nat, fate: B.Fate, p: Plan)
    requires src in db.sources
  {
    match fate
    case Answered =>
      || p.Replay?
      || (p.Insert? && FindExisting(db.events, db.sources[src].tenant, src, p.key).Some?)
    case Blocked => p.Refuse? || p.Crash?
    case Moving => false
  }

  // A worker polling since s0 has come to an update that does not move the cursor, all before it being answered.
  ghost predicate WorkerHeld(s0: System, s: System, x: Worker, c: nat, n: nat)
    requires x.Busy? && c in s0.streams && c in s0.db.connections && c in s.streams
  {
    && x.conn == c && x.base == C.At(s0, c) && |x.batch| <= n && x.k <= |x.batch|
    && x.base + |x.batch| <= |s.streams[c]| && x.batch == s.streams[c][x.base..x.base + |x.batch|]
    && IsActiveMap(s0.db, c, x.active) && Runnable(s0.db, c)
    && AnsweredTo(s0.db, c, x.active, x.batch, s0.now, x.k)
    && (x.plan.Some? ==>
          && x.k < |x.batch| && x.batch[x.k].ref in x.active && x.active[x.batch[x.k].ref] in s0.db.sources
          && PlanFits(s0.db, x.active[x.batch[x.k].ref], Fate(s0.db, c, x.active, x.batch[x.k], s0.now), x.plan.value))
  }

  // s has come about from s0 without any change of the tables.
  ghost predicate Quiet(s0: System, s: System, c: nat, n: nat) {
    && c in s0.streams && c in s0.db.connections && c in s.streams
    && s.db == s0.db && s0.now <= s.now
    && s0.streams[c] <= s.streams[c] && IsStream(s.streams[c])
    && forall w :: w in s.workers && s.workers[w].Busy? ==> WorkerHeld(s0, s, s.workers[w], c, n)
  }

  // What a worker is at is answered or blocked.
  lemma NotMoving(s0: System, s: System, x: Worker, c: nat, n: nat)
    requires Quiet(s0, s, c, n) && x.Busy? && WorkerHeld(s0, s, x, c, n) && Held(s0, c, n) && x.k < |x.batch|
    ensures !Fate(s0.db, c, x.active, x.batch[x.k], s0.now).Moving?
  {
    hide Fate, Position, IsActiveMap, PlanFits;
    var b := Window(s0, c, n);
    var m: nat :| HeldAt(s0.db, c, x.active, b, s0.now, n, m);
    assert forall j :: 0 <= j < |b| ==> b[j] == s0.streams[c][C.At(s0, c) + j] == s.streams[c][C.At(s0, c) + j];
    assert forall j :: 0 <= j < |x.batch| && j < |b| ==> x.batch[j] == b[j];
  }

  lemma RefIsActive(s0: System, s: System, x: Worker, c: nat, n: nat)
    requires Quiet(s0, s, c, n) && x.Busy? && WorkerHeld(s0, s, x, c, n) && Held(s0, c, n) && x.k < |x.batch|
    ensures x.batch[x.k].ref in x.active && x.active[x.batch[x.k].ref] in s0.db.sources
  {
    NotMoving(s0, s, x, c, n);
  }

  lemma DecisionFits(db: Db, c: nat, active: map<string, nat>, u: Update, now: int, later: int)
    requires now <= later && u.ref in active && active[u.ref] in db.sources && !Fate(db, c, active, u, now).Moving?
    ensures PlanFits(db, active[u.ref], Fate(db, c, active, u, now), Decide(db, active[u.ref], u, later))
  {
    FateLater(db, c, active, u, now, later);
    hide MatchFor, FindExisting, ActivePair;
  }

  lemma FittingCommit(db: Db, src: nat, u: Update, fate: B.Fate, p: Plan, now: int, fault: bool)
    requires src in db.sources && PlanFits(db, src, fate, p)
    ensures var (after, out) := Commit(db, src, u, p, now, fault);
      && after == db
      && (out.Deduplicated? ==> fate == B.Answered)
      && (out.Deduplicated? || out.InfrastructureError? || out.NotAllowed? || out.Raised?)
  {
  }

  // Moving one worker within its batch, or stopping it.
  lemma WorkerMoves(s0: System, s: System, w: nat, x: Worker, c: nat, n: nat)
    requires Quiet(s0, s, c, n) && (x.Idle? || WorkerHeld(s0, s, x, c, n))
    ensures Quiet(s0, s.(workers := s.workers[w := x]), c, n)
  {
    hide Fate, Position, IsActiveMap, PlanFits, AnsweredTo, IsStream;
    var t := s.(workers := s.workers[w := x]);
    forall v | v in t.workers && t.workers[v].Busy?
      ensures WorkerHeld(s0, t, t.workers[v], c, n)
    {
      assert v != w ==> WorkerHeld(s0, s, s.workers[v], c, n);
    }
  }

  lemma ReadQuiet(s0: System, s: System, w: nat, c: nat, n: nat)
    requires Quiet(s0, s, c, n) && (Runnable(s0.db, c) ==> Held(s0, c, n))
    ensures Quiet(s0, Exec(s, Read(w)), c, n)
  {
    var t := Exec(s, Read(w));
    if BusyAt(s, w) && t != s {
      hide Fate, Decide, Position, IsActiveMap, PlanFits, AnsweredTo, Held;
      var x := s.workers[w];
      assert WorkerHeld(s0, s, x, c, n);
      NotMoving(s0, s, x, c, n);
      RefIsActive(s0, s, x, c, n);
      DecisionFits(s0.db, c, x.active, x.batch[x.k], s0.now, s.now);
      WorkerMoves(s0, s, w, t.workers[w], c, n);
    }
  }

  lemma NextHeld(s0: System, s: System, x: Worker, c: nat, n: nat)
    requires c in s0.streams && c in s0.db.connections && c in s.streams
    requires x.Busy? && WorkerHeld(s0, s, x, c, n) && x.k < |x.batch|
    requires Fate(s0.db, c, x.active, x.batch[x.k], s0.now) == B.Answered
    ensures WorkerHeld(s0, s, x.(k := x.k + 1, plan := None), c, n)
  {
    hide Fate, Position, IsActiveMap, PlanFits;
  }

  // The worker moves on or gives up; nothing is written.
  lemma WriteChangesWorker(s0: System, s: System, w: nat, fault: bool, c: nat, n: nat)
    requires Quiet(s0, s, c, n) && BusyAt(s, w)
    ensures var x := s.workers[w];
      var t := Exec(s, Write(w, fault));
      || t == s || t == s.(workers := s.workers[w := Idle])
      || (t == s.(workers := s.workers[w := x.(k := x.k + 1, plan := None)])
          && Fate(s0.db, c, x.active, x.batch[x.k], s0.now) == B.Answered)
  {
    hide Fate, Commit, Position, IsActiveMap, PlanFits, AnsweredTo;
    var x := s.workers[w];
    var u := x.batch[x.k];
    assert WorkerHeld(s0, s, x, c, n);
    if x.plan.Some? {
      FittingCommit(s.db, x.active[u.ref], u, Fate(s0.db, c, x.active, u, s0.now), x.plan.value, s.now, fault);
    }
  }

  lemma WriteQuiet(s0: System, s: System, w: nat, fault: bool, c: nat, n: nat)
    requires Quiet(s0, s, c, n)
    ensures Quiet(s0, Exec(s, Write(w, fault)), c, n)
  {
    if BusyAt(s, w) {
      WriteChangesWorker(s0, s, w, fault, c, n);
      assert WorkerHeld(s0, s, s.workers[w], c, n);
      hide Exec, Quiet, WorkerHeld, Fate;
      var next := s.workers[w].(k := s.workers[w].k + 1, plan := None);
      WorkerMoves(s0, s, w, Idle, c, n);
      if Exec(s, Write(w, fault)) == s.(workers := s.workers[w := next])
         && Fate(s0.db, c, s.workers[w].active, s.workers[w].batch[s.workers[w].k], s0.now) == B.Answered {
        NextHeld(s0, s, s.workers[w], c, n);
        WorkerMoves(s0, s, w, next, c, n);
      }
    }
  }

  lemma PollQuiet(s0: System, s: System, step: Step, c: nat, n: nat)
    requires AtRest(s0, c) && Quiet(s0, s, c, n) && step.Poll? && Works(step, c, n)
    ensures Quiet(s0, Exec(s, step), c, n)
  {
    var t := Exec(s, step);
    if t != s {
      C.PositionGrows(s0.streams[c], s.streams[c], s0.db.connections[c].cursor);
      hide Fate, Position, IsActiveMap, PlanFits;
      WorkerMoves(s0, s, step.w, t.workers[step.w], c, n);
    }
  }

  lemma ArriveQuiet(s0: System, s: System, step: Step, c: nat, n: nat)
    requires Quiet(s0, s, c, n) && step.Arrive?
    ensures Quiet(s0, Exec(s, step), c, n)
  {
    hide Fate, Position, IsActiveMap, PlanFits, AnsweredTo;
    var t := Exec(s, step);
    if t != s {
      var old_, new_ := s.streams[c], t.streams[c];
      assert old_ <= new_ && IsStream(new_);
      forall v | v in t.workers && t.workers[v].Busy?
        ensures WorkerHeld(s0, t, t.workers[v], c, n)
      {
        var x := s.workers[v];
        assert WorkerHeld(s0, s, x, c, n);
        assert new_[x.base..x.base + |x.batch|] == old_[x.base..x.base + |x.batch|];
      }
    }
  }

  // A worker has nothing to skip; stopping and waiting touch no table.
  lemma IdleStepQuiet(s0: System, s: System, step: Step, c: nat, n: nat)
    requires Quiet(s0, s, c, n) && (Runnable(s0.db, c) ==> Held(s0, c, n)) && (step.Skip? || step.Stop? || step.Tick?)
    ensures Quiet(s0, Exec(s, step), c, n)
  {
    if step.Skip? && BusyAt(s, step.w) {
      assert WorkerHeld(s0, s, s.workers[step.w], c, n);
      RefIsActive(s0, s, s.workers[step.w], c, n);
    }
    hide Fate, Position, IsActiveMap, PlanFits, AnsweredTo, Held, IsStream;
    var t := Exec(s, step);
    forall v | v in t.workers && t.workers[v].Busy?
      ensures WorkerHeld(s0, t, t.workers[v], c, n)
    {
      assert WorkerHeld(s0, s, s.workers[v], c, n);
    }
  }

  lemma StepQuiet(s0: System, s: System, step: Step, c: nat, n: nat)
    requires AtRest(s0, c) && Quiet(s0, s, c, n) && (Runnable(s0.db, c) ==> Held(s0, c, n)) && Works(step, c, n)
    ensures Quiet(s0, Exec(s, step), c, n)
  {
    hide Exec, Quiet, Held, AtRest;
    match step
    case Arrive(_, _) => ArriveQuiet(s0, s, step, c, n);
    case Poll(_, _, _, _) => PollQuiet(s0, s, step, c, n);
    case Read(w) => ReadQuiet(s0, s, w, c, n);
    case Write(w, fault) => WriteQuiet(s0, s, w, fault, c, n);
    case _ => IdleStepQuiet(s0, s, step, c, n);
  }

  lemma {:induction false} RunQuiet(s: System, steps: seq<Step>, c: nat, n: nat)
    requires AtRest(s, c) && (Runnable(s.db, c) ==> Held(s, c, n)) && AllWork(steps, c, n)
    ensures Quiet(s, Run(s, steps), c, n)
    decreases |steps|
  {
    if steps != [] {
      hide Exec, Quiet, Held, AtRest, Works;
      var m := |steps| - 1;
      RunQuiet(s, steps[..m], c, n);
      StepQuiet(s, Run(s, steps[..m]), steps[m], c, n);
    }
  }

  // A held connection stays held: every run leaves the tables and the cursor as they are, and every batch polled
  // begins at the same update.
  lemma HeldForever(s: System, steps: seq<Step>, c: nat, n: nat)
    requires AtRest(s, c) && (Runnable(s.db, c) ==> Held(s, c, n)) && AllWork(steps, c, n)
    ensures var t := Run(s, steps);
      t.db == s.db && forall w :: w in t.workers && t.workers[w].Busy? ==> t.workers[w].base == C.At(s, c)
  {
    hide Run, Held, Position;
    RunQuiet(s, steps, c, n);
    var t := Run(s, steps);
    assert forall w :: w in t.workers && t.workers[w].Busy? ==> WorkerHeld(s, t, t.workers[w], c, n);
  }

  // ---------- otherwise something moves ----------

  lemma {:induction false} FreshString(taken: set<string>) returns (x: string)
    ensures x !in taken && forall y :: y in taken ==> |y| < |x|
  {
    if taken == {} {
      x := "a";
    } else {
      var y :| y in taken;
      var z := FreshString(taken - {y});
      x := z + y + "a";
    }
  }

  // An update of no source, new to the stream.
  lemma FreshUpdate(stream: seq<Update>, active: map<string, nat>) returns (u: Update)
    ensures NewTo(stream, u) && u.ref !in active
  {
    var ids := set i | 0 <= i < |stream| && stream[i].updateId.Some? :: stream[i].updateId.value;
    var id := FreshString(ids);
    var ref := FreshString(active.Keys);
    u := Update(Some(id), None, None, ref, None, Invalid);
    assert forall i :: 0 <= i < |stream| && stream[i].updateId.Some? ==> stream[i].updateId.value in ids;
  }

  // How far the answered updates reach.
  lemma Reach(db: Db, c: nat, active: map<string, nat>, b: seq<Update>, now: int) returns (m: nat)
    ensures m <= |b| && AnsweredTo(db, c, active, b, now, m)
    ensures m < |b| ==> Fate(db, c, active, b[m], now) != B.Answered
  {
    hide Fate;
    m := 0;
    while m < |b| && Fate(db, c, active, b[m], now) == B.Answered
      invariant m <= |b| && AnsweredTo(db, c, active, b, now, m)
    {
      m := m + 1;
    }
  }

  // The cycle of a worker that polls m + 1 updates now and meets no failure.
  ghost function CycleOf(s: System, c: nat, active: map<string, nat>, m: nat): B.Cycle
    requires c in s.streams && c in s.db.connections && C.At(s, c) + m < |s.streams[c]|
  {
    var p := C.At(s, c);
    B.Cycle(c, active, s.streams[c][p..p + m + 1], _ => s.now, _ => false)
  }

  ghost function StepsOf(s: System, w: nat, c: nat, active: map<string, nat>, m: nat): seq<Step>
    requires c in s.streams && c in s.db.connections && C.At(s, c) + m < |s.streams[c]|
  {
    [Poll(w, c, m + 1, active)] + B.Trace(w, CycleOf(s, c, active, m), s.now, m + 1)
  }

  lemma {:induction false} TraceWorks(w: nat, cycle: B.Cycle, start: int, k: nat, c: nat, n: nat)
    requires k <= |cycle.batch|
    ensures AllWork(B.Trace(w, cycle, start, k), c, n)
    decreases k
  {
    if k > 0 { TraceWorks(w, cycle, start, k - 1, c, n); }
  }

  lemma CycleIsAhead(s: System, c: nat, active: map<string, nat>, m: nat)
    requires AtRest(s, c) && IsActiveMap(s.db, c, active) && C.At(s, c) + m < |s.streams[c]|
    ensures B.AheadOf(s.db, CycleOf(s, c, active, m))
  {
    var p, stream := C.At(s, c), s.streams[c];
    hide Position;
    assert p > 0 ==> stream[p - 1].updateId == s.db.connections[c].cursor;
    CursorBefore(s, c);
    var b := stream[p..p + m + 1];
    assert forall k :: 0 <= k < m + 1 ==> b[k] == stream[p + k];
  }

  lemma CursorBefore(s: System, c: nat)
    requires AtRest(s, c)
    ensures var p := C.At(s, c);
      if p == 0 then s.db.connections[c].cursor.None? else s.db.connections[c].cursor == s.streams[c][p - 1].updateId
  {
  }

  lemma CycleMoves(s: System, c: nat, active: map<string, nat>, m: nat)
    requires AtRest(s, c) && IsActiveMap(s.db, c, active) && C.At(s, c) + m < |s.streams[c]|
    requires var b := CycleOf(s, c, active, m).batch;
      AnsweredTo(s.db, c, active, b, s.now, m) && Fate(s.db, c, active, b[m], s.now) == B.Moving
    ensures B.Pass(s.db, CycleOf(s, c, active, m), m + 1).db != s.db
  {
    CycleIsAhead(s, c, active, m);
    hide IsActiveMap, Position, Fate, B.Pass, B.AheadOf;
    FatesAgree(s, c, active, m);
    B.CycleMovesIff(s.db, CycleOf(s, c, active, m));
  }

  lemma PollTakes(s: System, w: nat, c: nat, active: map<string, nat>, m: nat)
    requires AtRest(s, c) && Runnable(s.db, c) && IsActiveMap(s.db, c, active) && w in s.workers
    requires C.At(s, c) + m < |s.streams[c]|
    ensures Exec(s, Poll(w, c, m + 1, active))
         == Set(s, w, Busy(c, C.At(s, c), CycleOf(s, c, active, m).batch, 0, active, None))
  {
    hide IsActiveMap, Position;
  }

  lemma StepsWork(s: System, w: nat, c: nat, active: map<string, nat>, m: nat, n: nat)
    requires c in s.streams && c in s.db.connections && C.At(s, c) + m < |s.streams[c]| && m < n
    ensures AllWork(StepsOf(s, w, c, active, m), c, n)
  {
    var cycle := CycleOf(s, c, active, m);
    hide Position, B.Trace, CycleOf, AllWork;
    TraceWorks(w, cycle, s.now, m + 1, c, n);
    OneMoreWorks(Poll(w, c, m + 1, active), B.Trace(w, cycle, s.now, m + 1), c, n);
  }

  lemma StepsRun(s: System, w: nat, c: nat, active: map<string, nat>, m: nat)
    requires AtRest(s, c) && Runnable(s.db, c) && IsActiveMap(s.db, c, active) && w in s.workers
    requires C.At(s, c) + m < |s.streams[c]|
    ensures Run(s, StepsOf(s, w, c, active, m)).db == B.Pass(s.db, CycleOf(s, c, active, m), m + 1).db
  {
    hide Exec, Run, IsActiveMap, Position, B.Pass, B.Trace, CycleOf, Set;
    var cycle, poll := CycleOf(s, c, active, m), Poll(w, c, m + 1, active);
    CycleIs(s, c, active, m);
    PollTakes(s, w, c, active, m);
    PolledRun(s, w, c, active, cycle, C.At(s, c));
    RunConcat(s, [poll], B.Trace(w, cycle, s.now, m + 1));
    RunOne(s, poll);
  }

  lemma CycleIs(s: System, c: nat, active: map<string, nat>, m: nat)
    requires c in s.streams && c in s.db.connections && C.At(s, c) + m < |s.streams[c]|
    ensures var cycle := CycleOf(s, c, active, m);
      && cycle.conn == c && cycle.active == active && |cycle.batch| == m + 1
      && forall k: nat :: cycle.now(k) == s.now
  {
  }

  lemma PolledRun(s: System, w: nat, c: nat, active: map<string, nat>, cycle: B.Cycle, base: nat)
    requires IsActiveMap(s.db, c, active) && cycle.conn == c && cycle.active == active
    requires forall k: nat :: cycle.now(k) == s.now
    ensures var t := Set(s, w, Busy(c, base, cycle.batch, 0, active, None));
      Run(t, B.Trace(w, cycle, s.now, |cycle.batch|)).db == B.Pass(s.db, cycle, |cycle.batch|).db
  {
    ForwardNow(cycle, s.now);
    ActiveInSources(s.db, c, active);
    hide Exec, Run, IsActiveMap, Position, B.Pass, B.Trace, B.ForwardClock;
    RunOfCycle(Set(s, w, Busy(c, base, cycle.batch, 0, active, None)), w, cycle);
  }

  // Polling up to the moving update and going through the batch changes the tables.
  lemma MovingIsReached(s: System, w: nat, c: nat, active: map<string, nat>, m: nat, n: nat)
    requires AtRest(s, c) && Runnable(s.db, c) && IsActiveMap(s.db, c, active) && w in s.workers && m < n
    requires C.At(s, c) + m < |s.streams[c]|
    requires var b := CycleOf(s, c, active, m).batch;
      AnsweredTo(s.db, c, active, b, s.now, m) && Fate(s.db, c, active, b[m], s.now) == B.Moving
    ensures AllWork(StepsOf(s, w, c, active, m), c, n) && Run(s, StepsOf(s, w, c, active, m)).db != s.db
  {
    hide Run, IsActiveMap, Position, Fate, B.Pass, AllWork, StepsOf, AnsweredTo;
    StepsWork(s, w, c, active, m, n);
    StepsRun(s, w, c, active, m);
    CycleMoves(s, c, active, m);
  }

  lemma OneMoreWorks(step: Step, steps: seq<Step>, c: nat, n: nat)
    requires Works(step, c, n) && AllWork(steps, c, n)
    ensures AllWork([step] + steps, c, n)
  {
  }

  lemma RunOfCycle(s: System, w: nat, cycle: B.Cycle)
    requires B.Holding(s, w, cycle) && s.workers[w].k == 0 && B.ForwardClock(cycle, s.now)
    requires forall ref :: ref in cycle.active ==> cycle.active[ref] in s.db.sources
    ensures Run(s, B.Trace(w, cycle, s.now, |cycle.batch|)).db == B.Pass(s.db, cycle, |cycle.batch|).db
  {
    hide Run, B.Pass, B.Trace;
    B.PassIsRun(s, w, cycle, |cycle.batch|);
  }

  lemma ForwardNow(cycle: B.Cycle, now: int)
    requires forall k: nat :: cycle.now(k) == now
    ensures B.ForwardClock(cycle, now)
  {
  }

  lemma ActiveInSources(db: Db, c: nat, active: map<string, nat>)
    requires IsActiveMap(db, c, active)
    ensures forall ref :: ref in active ==> active[ref] in db.sources
  {
  }

  lemma FatesAgree(s: System, c: nat, active: map<string, nat>, m: nat)
    requires c in s.streams && c in s.db.connections && C.At(s, c) + m < |s.streams[c]|
    requires var b := CycleOf(s, c, active, m).batch;
      AnsweredTo(s.db, c, active, b, s.now, m) && Fate(s.db, c, active, b[m], s.now) == B.Moving
    ensures B.MovesAt(s.db, CycleOf(s, c, active, m), m)
  {
    hide B.FateOf, Position;
  }

  ghost predicate Unmoved(s: System, steps: seq<Step>, c: nat, n: nat) {
    AllWork(steps, c, n) ==> Run(s, steps).db == s.db
  }

  // A window that is not held can be moved: by its own updates, or by one that arrives.
  lemma NotHeldMoves(s: System, c: nat, n: nat)
    requires AtRest(s, c) && s.workers != map[] && Runnable(s.db, c) && !Held(s, c, n)
    ensures exists steps :: !Unmoved(s, steps, c, n)
  {
    hide Run, Exec, IsActiveMap, Position, Fate, StepsOf;
    var w :| w in s.workers;
    var active :| IsActiveMap(s.db, c, active) && !HeldBy(s.db, c, active, Window(s, c, n), s.now, n);
    var b := Window(s, c, n);
    var m := Reach(s.db, c, active, b, s.now);
    assert !HeldAt(s.db, c, active, b, s.now, n, m);
    if m < |b| {
      WindowMoves(s, w, c, active, m, n);
      assert !Unmoved(s, StepsOf(s, w, c, active, m), c, n);
    } else {
      var u := FreshUpdate(s.streams[c], active);
      ArrivalMoves(s, w, c, active, u, n);
    }
  }

  lemma WindowMoves(s: System, w: nat, c: nat, active: map<string, nat>, m: nat, n: nat)
    requires AtRest(s, c) && Runnable(s.db, c) && IsActiveMap(s.db, c, active) && w in s.workers
    requires var b := Window(s, c, n);
      m < |b| && AnsweredTo(s.db, c, active, b, s.now, m) && Fate(s.db, c, active, b[m], s.now) == B.Moving
    ensures AllWork(StepsOf(s, w, c, active, m), c, n) && Run(s, StepsOf(s, w, c, active, m)).db != s.db
  {
    hide Run, IsActiveMap, Position, Fate, StepsOf;
    var b, batch := Window(s, c, n), CycleOf(s, c, active, m).batch;
    assert forall j :: 0 <= j < m + 1 ==> batch[j] == b[j];
    MovingIsReached(s, w, c, active, m, n);
  }

  lemma ArrivalMoves(s: System, w: nat, c: nat, active: map<string, nat>, u: Update, n: nat)
    requires AtRest(s, c) && Runnable(s.db, c) && IsActiveMap(s.db, c, active) && w in s.workers
    requires NewTo(s.streams[c], u) && u.ref !in active && |Window(s, c, n)| < n
    requires AnsweredTo(s.db, c, active, Window(s, c, n), s.now, |Window(s, c, n)|)
    ensures exists steps :: !Unmoved(s, steps, c, n)
  {
    var m := |Window(s, c, n)|;
    var t := Arrived(s, c, u);
    assert Exec(s, Arrive(c, u)) == t;
    ArrivedIsNext(s, c, u, n);
    assert Fate(t.db, c, active, u, t.now) == B.Moving;
    hide Exec, Run, IsActiveMap, Position, Fate, StepsOf;
    assert AnsweredTo(t.db, c, active, Window(t, c, n), t.now, m);
    WindowMoves(t, w, c, active, m, n);
    var steps := [Arrive(c, u)] + StepsOf(t, w, c, active, m);
    RunConcat(s, [Arrive(c, u)], StepsOf(t, w, c, active, m));
    RunOne(s, Arrive(c, u));
    assert !Unmoved(s, steps, c, n);
  }

  // s with u arrived on the connection's stream.
  function Arrived(s: System, c: nat, u: Update): System
    requires c in s.streams
  {
    s.(streams := s.streams[c := s.streams[c] + [u]])
  }

  lemma ArrivedRests(s: System, c: nat, u: Update)
    requires AtRest(s, c) && NewTo(s.streams[c], u)
    ensures AtRest(Arrived(s, c, u), c) && C.At(Arrived(s, c, u), c) == C.At(s, c)
  {
    hide Position;
    var t, cursor := Arrived(s, c, u), s.db.connections[c].cursor;
    assert IsStream(t.streams[c]);
    if cursor.Some? {
      var i :| 0 <= i < |s.streams[c]| && s.streams[c][i].updateId == cursor;
      assert t.streams[c][i] == s.streams[c][i];
    }
    C.PositionGrows(s.streams[c], t.streams[c], cursor);
  }

  lemma ArrivedIsNext(s: System, c: nat, u: Update, n: nat)
    requires AtRest(s, c) && NewTo(s.streams[c], u) && |Window(s, c, n)| < n
    ensures var t := Arrived(s, c, u);
      && AtRest(t, c) && C.At(t, c) == C.At(s, c) && Window(t, c, n) == Window(s, c, n) + [u]
  {
    ArrivedRests(s, c, u);
    hide Position, IsStream, CursorOnStream, NewTo;
  }

  // No run of workers that poll at most n updates changes the tables exactly when the connection is not runnable or,
  // for every choice of live sources, the first update that no row answers is blocked or the next n are all answered.
  lemma NothingMovesIff(s: System, c: nat, n: nat)
    requires AtRest(s, c) && s.workers != map[]
    ensures (forall steps :: Unmoved(s, steps, c, n)) <==> (Runnable(s.db, c) ==> Held(s, c, n))
  {
    hide Held, Run, AllWork;
    if Runnable(s.db, c) && !Held(s, c, n) {
      NotHeldMoves(s, c, n);
    } else {
      forall steps
        ensures Unmoved(s, steps, c, n)
      {
        if AllWork(steps, c, n) { HeldForever(s, steps, c, n); }
      }
    }
  }

  // ---------- a run that gets there ----------

  // The provider id of the first update is the update id of the second.
  const CHAIN := [Numbered("1", "2"), Numbered("2", "3")]

  const BEFORE := System(EXAMPLE, map[0 := CHAIN], map[], map[], map[0 := Idle], 0)

  const ACTIVE: map<string, nat> := map["ref" := 0]

  lemma ChainIsStream()
    ensures Initial(BEFORE) && IsActiveMap(EXAMPLE, 0, ACTIVE)
  {
    assert Listed(EXAMPLE, 0, 0);
  }

  // Polling one update at a time, the first one is stored; the second is then answered with its row, for good.
  lemma HeldAfterOneUpdate()
    ensures var t := Run(BEFORE, [Poll(0, 0, 1, ACTIVE), Read(0)] + [Write(0, false), Stop(0)]);
      AtRest(t, 0) && Held(t, 0, 1)
  {
    ChainIsStream();
    var u, v := CHAIN[0], CHAIN[1];
    var polled := BEFORE.(workers := map[0 := Busy(0, 0, [u], 0, ACTIVE, None)]);
    assert CHAIN[0..1] == [u];
    assert Exec(BEFORE, Poll(0, 0, 1, ACTIVE)) == polled;
    var plan := Decide(EXAMPLE, 0, u, 0);
    var read := BEFORE.(workers := map[0 := Busy(0, 0, [u], 0, ACTIVE, Some(plan))]);
    assert Exec(polled, Read(0)) == read;
    WrittenIs(read, plan);
    var t := Exec(Exec(read, Write(0, false)), Stop(0));
    StopIdles(Exec(read, Write(0, false)));
    hide Exec;
    HeldAfter(t);
    RunOfTwo(BEFORE, Poll(0, 0, 1, ACTIVE), Read(0));
    RunOfTwo(read, Write(0, false), Stop(0));
    RunConcat(BEFORE, [Poll(0, 0, 1, ACTIVE), Read(0)], [Write(0, false), Stop(0)]);
  }

  lemma StopIdles(s: System)
    requires s.workers.Keys == {0}
    ensures Exec(s, Stop(0)) == s.(workers := map[0 := Idle])
  {
  }

  lemma WrittenIs(read: System, plan: Plan)
    requires plan == Decide(EXAMPLE, 0, CHAIN[0], 0)
    requires read == BEFORE.(workers := map[0 := Busy(0, 0, [CHAIN[0]], 0, ACTIVE, Some(plan))])
    ensures var t := Exec(read, Write(0, false));
      && t.streams == BEFORE.streams && t.db.sources == EXAMPLE.sources && t.db.requests == []
      && t.db.events == [NewEvent(0, 0, Some(Sha256("2")), Normalized, None, 0)]
      && 0 in t.db.connections && t.db.connections[0] == EXAMPLE.connections[0].(cursor := Some("1"))
      && t.workers.Keys == {0}
  {
    hide Position, FindExisting;
    StoresUpdate(EXAMPLE, CHAIN[0]);
  }

  lemma HeldAfter(t: System)
    requires t.streams == BEFORE.streams && t.db.sources == EXAMPLE.sources && t.db.requests == []
    requires t.db.events == [NewEvent(0, 0, Some(Sha256("2")), Normalized, None, 0)]
    requires 0 in t.db.connections && t.db.connections[0] == EXAMPLE.connections[0].(cursor := Some("1"))
    requires t.workers == map[0 := Idle]
    ensures AtRest(t, 0) && Held(t, 0, 1)
  {
    ChainIsStream();
    PositionOf(CHAIN, 0);
    assert CHAIN[0].updateId == Some("1");
    assert Listed(t.db, 0, 0);
    assert Indexed(t.db.events[0], 0, 0, ReplayKey(CHAIN[1]));
    hide Position, FindExisting;
    assert Window(t, 0, 1) == [CHAIN[1]];
    forall active | IsActiveMap(t.db, 0, active)
      ensures HeldBy(t.db, 0, active, Window(t, 0, 1), t.now, 1)
    {
      assert "ref" in active && active["ref"] == 0;
      assert Fate(t.db, 0, active, CHAIN[1], t.now) == B.Answered;
      assert HeldAt(t.db, 0, active, [CHAIN[1]], t.now, 1, 1);
    }
  }

  // An update whose normalizer raises holds its connection from the start.
  const RAISING := Update(Some("1"), None, None, "ref", None, Raises)

  lemma RaisingUpdateHolds(n: nat)
    requires n > 0
    ensures var s := System(EXAMPLE, map[0 := [RAISING]], map[], map[], map[0 := Idle], 0);
      AtRest(s, 0) && Held(s, 0, n)
  {
    var s := System(EXAMPLE, map[0 := [RAISING]], map[], map[], map[0 := Idle], 0);
    assert Listed(EXAMPLE, 0, 0);
    assert Position([RAISING], None) == 0;
    assert FindExisting([], 0, 0, ReplayKey(RAISING)).None?;
    hide Position, FindExisting;
    assert Window(s, 0, n) == [RAISING];
    forall active | IsActiveMap(s.db, 0, active)
      ensures HeldBy(s.db, 0, active, Window(s, 0, n), s.now, n)
    {
      assert "ref" in active && active["ref"] == 0;
      assert Fate(s.db, 0, active, RAISING, s.now) == B.Blocked;
      assert HeldAt(s.db, 0, active, [RAISING], s.now, n, 0);
    }
  }
}
