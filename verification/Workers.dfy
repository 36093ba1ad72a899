/**
 The collection workers (app/collection/worker.py) as a transition system.

 Any number of workers poll the update stream of a connection from its committed
 cursor and walk through the batch.  Reading and committing an update are two
 steps, so workers interleave everywhere a database transaction lets them.
 Streams only grow, and a poll returns the next updates after the cursor in order.
 */
module Workers {
  import opened Wrappers
  import opened Tables
  import opened Ingest
  import H = Handshake

  datatype Worker = Idle | Busy(conn: nat, base: nat, batch: seq<Update>, k: nat, active: map<string, nat>,
      plan: Option<Plan>)

  // `ignored` and `written` are history: the positions skipped, and the update each row of the run was written for.
  datatype System = System(db: Db, streams: map<nat, seq<Update>>, ignored: map<nat, set<nat>>,
                           written: map<nat, Update>, workers: map<nat, Worker>, now: int)

  datatype Step =
    | Arrive(conn: nat, u: Update)
    | Poll(w: nat, conn: nat, count: nat, active: map<string, nat>)
    | Read(w: nat)
    | Write(w: nat, fault: bool)
    | Skip(w: nat, fault: bool)
    | Stop(w: nat)
    | Open(request: Request)
    | SetConnection(conn: nat, enabled: bool, status: ConnectionStatus, deleted: bool)
    | SetSource(src: nat, enabled: bool, status: ConnectionStatus, deleted: bool)
    | AddSource(src: nat, source: Source)
    | Tick(seconds: nat)

  // ---------- streams and cursors ----------

  // The position after the update the cursor names; 0 before the first.
  function Position(stream: seq<Update>, cursor: Option<string>): (p: nat)
    ensures p <= |stream|
    ensures p > 0 ==> stream[p - 1].updateId == cursor
    ensures cursor.Some? && (exists i :: 0 <= i < |stream| && stream[i].updateId == cursor) ==> p > 0
  {
    if stream == [] || cursor.None? then 0
    else if stream[|stream| - 1].updateId == cursor then |stream|
    else Position(stream[..|stream| - 1], cursor)
  }

  ghost predicate IsStream(stream: seq<Update>) {
    && (forall i :: 0 <= i < |stream| ==> stream[i].updateId.Some?)
    && forall i, j :: 0 <= i < j < |stream| ==> stream[i].updateId != stream[j].updateId
  }

  predicate NewTo(stream: seq<Update>, u: Update) {
    u.updateId.Some? && forall i :: 0 <= i < |stream| ==> stream[i].updateId != u.updateId
  }

  // ---------- steps ----------

  predicate Listed(db: Db, c: nat, src: nat) {
    && src in db.sources && c in db.connections
    && var s := db.sources[src];
    s.connection == c && s.tenant == db.connections[c].tenant && s.enabled && s.status == Active && !s.deleted
  }

  // active_by_ref: for every reference with a live source, one such source.
  ghost predicate IsActiveMap(db: Db, c: nat, active: map<string, nat>) {
    && (forall ref :: ref in active ==> Listed(db, c, active[ref]) && db.sources[active[ref]].ref == ref)
    && (forall src :: src in db.sources && Listed(db, c, src) ==> db.sources[src].ref in active)
  }

  predicate Runnable(db: Db, c: nat) {
    c in db.connections && !db.connections[c].deleted && db.connections[c].enabled && db.connections[c].status == Active
  }

  function Set(s: System, w: nat, x: Worker): System { s.(workers := s.workers[w := x]) }

  predicate BusyAt(s: System, w: nat) {
    w in s.workers && s.workers[w].Busy? && s.workers[w].k < |s.workers[w].batch|
  }

  ghost function Exec(s: System, step: Step): System {
    match step
    case Arrive(c, u) =>
      if c in s.streams && NewTo(s.streams[c], u) then s.(streams := s.streams[c := s.streams[c] + [u]]) else s
    case Poll(w, c, count, active) =>
      if w in s.workers && s.workers[w].Idle? && c in s.streams && Runnable(s.db, c)
          && IsActiveMap(s.db, c, active) then
        var from := Position(s.streams[c], s.db.connections[c].cursor);
        var to := if from + count <= |s.streams[c]| then from + count else |s.streams[c]|;
        Set(s, w, Busy(c, from, s.streams[c][from..to], 0, active, None))
      else s
    case Read(w) =>
      if BusyAt(s, w) then
        var x := s.workers[w];
        var u := x.batch[x.k];
        if x.plan.None? && u.ref in x.active && x.active[u.ref] in s.db.sources then
          Set(s, w, x.(plan := Some(Decide(s.db, x.active[u.ref], u, s.now))))
        else s
      else s
    case Write(w, fault) =>
      if BusyAt(s, w) then
        var x := s.workers[w];
        var u := x.batch[x.k];
        if x.plan.Some? && u.ref in x.active && x.active[u.ref] in s.db.sources then
          var (db, out) := Commit(s.db, x.active[u.ref], u, x.plan.value, s.now, fault);
          var next := if out.InfrastructureError? || out.NotAllowed? || out.Raised? then Idle
                      else x.(k := x.k + 1, plan := None);
          Set(s.(db := db, written := if H.Wrote(out) then s.written[out.id := u] else s.written), w, next)
        else s
      else s
    case Skip(w, fault) =>
      if BusyAt(s, w) then
        var x := s.workers[w];
        var u := x.batch[x.k];
        if u.ref in x.active then s
        else if fault || x.conn !in s.db.connections || s.db.connections[x.conn].deleted then Set(s, w, Idle)
        else
          var seen := (if x.conn in s.ignored then s.ignored[x.conn] else {}) + {x.base + x.k};
          Set(s.(db := s.db.(connections := Advance(s.db.connections, x.conn, u.updateId)),
                 ignored := s.ignored[x.conn := seen]), w, x.(k := x.k + 1))
      else s
    case Stop(w) => if w in s.workers then Set(s, w, Idle) else s
    case Open(r) => if H.Openable(s.db, r) then s.(db := s.db.(requests := s.db.requests + [r])) else s
    case SetConnection(c, e, st, d) =>
      if c in s.db.connections then
        var conn := s.db.connections[c].(enabled := e, status := st, deleted := d);
        s.(db := s.db.(connections := s.db.connections[c := conn]))
      else s
    case SetSource(src, e, st, d) =>
      if src in s.db.sources then
        s.(db := s.db.(sources := s.db.sources[src := s.db.sources[src].(enabled := e, status := st, deleted := d)]))
      else s
    case AddSource(src, x) =>
      if src in s.db.sources then s else s.(db := s.db.(sources := s.db.sources[src := x]))
    case Tick(d) => s.(now := s.now + d)
  }

  ghost function Run(s: System, steps: seq<Step>): System {
    if steps == [] then s else Exec(Run(s, steps[..|steps| - 1]), steps[|steps| - 1])
  }

  lemma RunOne(s: System, step: Step)
    ensures Run(s, [step]) == Exec(s, step)
  {
    hide Exec;
    assert [step][..0] == [];
  }

  lemma {:induction false} RunConcat(s: System, a: seq<Step>, b: seq<Step>)
    ensures Run(s, a + b) == Run(Run(s, a), b)
    decreases |b|
  {
    hide Exec;
    if b == [] {
      assert a + b == a;
    } else {
      RunConcat(s, a, b[..|b| - 1]);
      assert (a + b)[..|a + b| - 1] == a + b[..|b| - 1];
    }
  }

  lemma RunOfTwo(s: System, a: Step, b: Step)
    ensures Run(s, [a, b]) == Exec(Exec(s, a), b)
  {
    hide Exec;
    RunOne(s, a);
    RunOne(Exec(s, a), b);
    RunConcat(s, [a], [b]);
    assert [a] + [b] == [a, b];
  }

  // ---------- no loss ----------

  predicate KeyedBy(e: Event, u: Update) {
    e.key.Some? && (e.key == ReplayKey(u) || (u.normalized.Accepted? && e.key == StoreKey(u)))
  }

  // A committed row of a source of this connection, under u's reference and keyed by u.
  predicate Records(db: Db, c: nat, u: Update, id: nat) {
    && id < |db.events| && KeyedBy(db.events[id], u)
    && db.events[id].source in db.sources
    && db.sources[db.events[id].source].connection == c && db.sources[db.events[id].source].ref == u.ref
  }

  // The row a commit of the run wrote for u, or one that answers u.
  predicate Resolves(s: System, c: nat, u: Update, id: nat) {
    && Records(s.db, c, u, id)
    && ((id in s.written && s.written[id] == u) || s.db.events[id].state != Rejected)
  }

  ghost predicate Accounted(s: System, c: nat, i: nat)
    requires c in s.streams && i < |s.streams[c]|
  {
    (c in s.ignored && i in s.ignored[c]) || exists id :: Resolves(s, c, s.streams[c][i], id)
  }

  ghost predicate AccountedUpTo(s: System, c: nat, n: nat)
    requires c in s.streams && n <= |s.streams[c]|
  {
    forall i :: 0 <= i < n ==> Accounted(s, c, i)
  }

  // The committed cursor never stands past an update that is neither stored, rejected nor ignored.
  ghost predicate NoLoss(s: System) {
    forall c :: c in s.db.connections && c in s.streams ==>
      AccountedUpTo(s, c, Position(s.streams[c], s.db.connections[c].cursor))
  }

  ghost predicate CursorOnStream(s: System, c: nat)
    requires c in s.db.connections && c in s.streams
  {
    var cursor := s.db.connections[c].cursor;
    cursor.None? || exists i :: 0 <= i < |s.streams[c]| && s.streams[c][i].updateId == cursor
  }

  // A pending plan to answer or insert is about this update.
  ghost predicate PlanFits(s: System, x: Worker)
    requires x.Busy? && x.k < |x.batch| && x.plan.Some?
  {
    var u := x.batch[x.k];
    && u.ref in x.active
    && match x.plan.value
       case Replay(id) => Records(s.db, x.conn, u, id) && s.db.events[id].state != Rejected
       case Insert(key, _, _) => u.normalized.Accepted? && key == StoreKey(u)
       case _ => true
  }

  ghost predicate WorkerInv(s: System, x: Worker)
    requires x.Busy?
  {
    && x.conn in s.streams && x.conn in s.db.connections
    && x.k <= |x.batch| && x.base + |x.batch| <= |s.streams[x.conn]|
    && x.batch == s.streams[x.conn][x.base..x.base + |x.batch|]
    && AccountedUpTo(s, x.conn, x.base + x.k)
    && (forall ref :: ref in x.active ==>
          && x.active[ref] in s.db.sources
          && s.db.sources[x.active[ref]].connection == x.conn && s.db.sources[x.active[ref]].ref == ref)
    && (x.plan.Some? ==> x.k < |x.batch| && PlanFits(s, x))
  }

  ghost predicate Inv(s: System) {
    && (forall c :: c in s.streams ==> IsStream(s.streams[c]))
    && (forall c :: c in s.db.connections && c in s.streams ==> CursorOnStream(s, c))
    && NoLoss(s)
    && (forall w :: w in s.workers && s.workers[w].Busy? ==> WorkerInv(s, s.workers[w]))
    && (forall id :: id in s.written ==> id < |s.db.events|)
  }

  // Every row of the run is keyed by an update of its connection's stream.
  ghost predicate WrittenFit(s: System) { forall id :: id in s.written ==> RowFits(s, id) }

  ghost predicate RowFits(s: System, id: nat)
    requires id in s.written
  {
    && id < |s.db.events| && s.db.events[id].source in s.db.sources
    && var src := s.db.sources[s.db.events[id].source];
    && src.connection in s.streams && s.written[id] in s.streams[src.connection] && s.written[id].ref == src.ref
    && (s.db.events[id].key == ReplayKey(s.written[id]) || KeyedBy(s.db.events[id], s.written[id]))
  }

  // Nothing that accounts for an update is ever undone.
  ghost predicate Grows(s: System, t: System) {
    && |s.db.events| <= |t.db.events| && (forall i :: 0 <= i < |s.db.events| ==> t.db.events[i] == s.db.events[i])
    && (forall src :: src in s.db.sources ==>
          && src in t.db.sources
          && t.db.sources[src].connection == s.db.sources[src].connection
          && t.db.sources[src].ref == s.db.sources[src].ref)
    && (forall c :: c in s.ignored ==> c in t.ignored && s.ignored[c] <= t.ignored[c])
    && (forall id :: id in s.written ==> id in t.written && t.written[id] == s.written[id])
    && (forall c :: c in s.streams ==> c in t.streams && s.streams[c] <= t.streams[c])
    && (forall c :: c in s.db.connections <==> c in t.db.connections)
    && t.streams.Keys == s.streams.Keys
    && (forall c :: c in t.streams ==> IsStream(t.streams[c]))
    && (forall id :: id in t.written ==> id < |t.db.events|)
  }

  lemma AccountedGrows(s: System, t: System, c: nat, i: nat)
    requires Grows(s, t) && c in s.streams && i < |s.streams[c]| && Accounted(s, c, i)
    ensures Accounted(t, c, i)
  {
    if !(c in s.ignored && i in s.ignored[c]) {
      var id :| Resolves(s, c, s.streams[c][i], id);
      assert Resolves(t, c, t.streams[c][i], id);
    }
  }

  lemma AccountedUpToGrows(s: System, t: System, c: nat, n: nat)
    requires Grows(s, t) && c in s.streams && n <= |s.streams[c]| && AccountedUpTo(s, c, n)
    ensures AccountedUpTo(t, c, n)
  {
    forall i | 0 <= i < n
      ensures Accounted(t, c, i)
    {
      AccountedGrows(s, t, c, i);
    }
  }

  lemma WorkerInvGrows(s: System, t: System, x: Worker)
    requires Grows(s, t) && x.Busy? && WorkerInv(s, x)
    ensures WorkerInv(t, x)
  {
    AccountedUpToGrows(s, t, x.conn, x.base + x.k);
    assert s.streams[x.conn] <= t.streams[x.conn];
    if x.plan.Some? && x.plan.value.Replay? {
      assert Records(t.db, x.conn, x.batch[x.k], x.plan.value.event);
    }
  }

  // The position of an update id in a stream with distinct ids, and under appending.
  lemma PositionOf(stream: seq<Update>, i: nat)
    requires IsStream(stream) && i < |stream|
    ensures Position(stream, stream[i].updateId) == i + 1
  {
    var p := Position(stream, stream[i].updateId);
    assert p > 0 && stream[p - 1].updateId == stream[i].updateId;
  }

  lemma CursorGrows(s: System, t: System, c: nat)
    requires Grows(s, t) && c in s.db.connections && c in s.streams
    requires t.db.connections[c].cursor == s.db.connections[c].cursor
    requires CursorOnStream(s, c) && AccountedUpTo(s, c, Position(s.streams[c], s.db.connections[c].cursor))
    ensures CursorOnStream(t, c) && AccountedUpTo(t, c, Position(t.streams[c], t.db.connections[c].cursor))
  {
    var cursor := s.db.connections[c].cursor;
    AccountedUpToGrows(s, t, c, Position(s.streams[c], cursor));
    if cursor.Some? {
      var i :| 0 <= i < |s.streams[c]| && s.streams[c][i].updateId == cursor;
      assert t.streams[c][i] == s.streams[c][i];
      PositionOf(t.streams[c], i);
      assert forall j :: 0 <= j < |s.streams[c]| ==> s.streams[c][j] == t.streams[c][j];
      PositionOf(s.streams[c], i);
    }
  }

  // A step that moves no cursor and changes no busy worker.
  lemma QuietStep(s: System, t: System)
    requires Inv(s) && Grows(s, t)
    requires forall c :: c in s.db.connections ==> t.db.connections[c].cursor == s.db.connections[c].cursor
    requires forall w :: w in t.workers && t.workers[w].Busy? ==>
      (w in s.workers && t.workers[w] == s.workers[w]) || WorkerInv(t, t.workers[w])
    ensures Inv(t)
  {
    forall c | c in t.db.connections && c in t.streams
      ensures CursorOnStream(t, c) && AccountedUpTo(t, c, Position(t.streams[c], t.db.connections[c].cursor))
    {
      CursorGrows(s, t, c);
    }
    forall w | w in t.workers && t.workers[w].Busy?
      ensures WorkerInv(t, t.workers[w])
    {
      if w in s.workers && t.workers[w] == s.workers[w] {
        WorkerInvGrows(s, t, s.workers[w]);
      }
    }
  }

  // A step in which worker w accounts for its current update, and may set the cursor to it.
  lemma AdvancingStep(s: System, t: System, w: nat)
    requires Inv(s) && Grows(s, t) && BusyAt(s, w) && t.streams == s.streams
    requires t.workers == s.workers[w := s.workers[w].(k := s.workers[w].k + 1, plan := None)]
    requires Accounted(t, s.workers[w].conn, s.workers[w].base + s.workers[w].k)
    requires forall c :: c in s.db.connections ==>
      || t.db.connections[c].cursor == s.db.connections[c].cursor
      || (c == s.workers[w].conn && t.db.connections[c].cursor == s.workers[w].batch[s.workers[w].k].updateId)
    ensures Inv(t)
  {
    var x := s.workers[w];
    var i := x.base + x.k;
    assert t.streams[x.conn][i] == x.batch[x.k];
    AccountedUpToGrows(s, t, x.conn, i);
    assert AccountedUpTo(t, x.conn, i + 1);
    WorkerInvGrows(s, t, x);
    forall c | c in t.db.connections && c in t.streams
      ensures CursorOnStream(t, c) && AccountedUpTo(t, c, Position(t.streams[c], t.db.connections[c].cursor))
    {
      if t.db.connections[c].cursor == s.db.connections[c].cursor {
        CursorGrows(s, t, c);
      } else {
        PositionOf(t.streams[c], i);
      }
    }
    forall v | v in t.workers && t.workers[v].Busy?
      ensures WorkerInv(t, t.workers[v])
    {
      if v != w {
        WorkerInvGrows(s, t, s.workers[v]);
      }
    }
  }

  // The row a finished commit leaves, or found, records the update.
  lemma CommitRecords(s: System, w: nat, fault: bool)
    requires Inv(s) && BusyAt(s, w) && s.workers[w].plan.Some?
    ensures var x := s.workers[w]; var u := x.batch[x.k];
      && u.ref in x.active && x.active[u.ref] in s.db.sources
      && var (db, out) := Commit(s.db, x.active[u.ref], u, x.plan.value, s.now, fault);
      !out.InfrastructureError? && !out.NotAllowed? && !out.Raised? && (out.Deduplicated? || CursorValue(u).Some?) ==>
        exists id :: Resolves(Exec(s, Write(w, fault)), x.conn, u, id)
  {
    var x := s.workers[w];
    var u := x.batch[x.k];
    assert WorkerInv(s, x) && PlanFits(s, x);
    var src, p := x.active[u.ref], x.plan.value;
    var (db, out) := Commit(s.db, src, u, p, s.now, fault);
    var t := Exec(s, Write(w, fault));
    if H.Wrote(out) && CursorValue(u).Some? {
      assert Resolves(t, x.conn, u, |s.db.events|);
    } else if out.Deduplicated? {
      assert Resolves(t, x.conn, u, out.id);
    }
  }

  // A commit only appends a row and sets the one cursor.
  lemma CommitGrows(s: System, t: System, src: nat, u: Update, p: Plan, fault: bool)
    requires (forall c :: c in s.streams ==> IsStream(s.streams[c])) && src in s.db.sources
    requires forall id :: id in s.written ==> id < |s.db.events|
    requires t.db == Commit(s.db, src, u, p, s.now, fault).0
    requires t.streams == s.streams && t.ignored == s.ignored
    requires var out := Commit(s.db, src, u, p, s.now, fault).1;
      t.written == if H.Wrote(out) then s.written[out.id := u] else s.written
    ensures Grows(s, t)
    ensures forall c :: c in s.db.connections ==>
      || t.db.connections[c].cursor == s.db.connections[c].cursor
      || (H.Wrote(Commit(s.db, src, u, p, s.now, fault).1)
          && c == s.db.sources[src].connection && t.db.connections[c].cursor == CursorValue(u))
  {
    RowAndCursorTogether(s.db, src, u, p, s.now, fault);
    assert t.db.events != s.db.events ==>
        forall i :: 0 <= i < |s.db.events| ==> t.db.events[i] == t.db.events[..|s.db.events|][i];
  }

  lemma WriteKeepsInv(s: System, w: nat, fault: bool)
    requires Inv(s)
    ensures Inv(Exec(s, Write(w, fault)))
  {
    hide Commit, Position;
    var t := Exec(s, Write(w, fault));
    if BusyAt(s, w) && t != s {
      var x := s.workers[w];
      var u := x.batch[x.k];
      assert WorkerInv(s, x);
      assert s.streams[x.conn][x.base + x.k] == u && u.updateId.Some?;
      CommitRecords(s, w, fault);
      var (db, out) := Commit(s.db, x.active[u.ref], u, x.plan.value, s.now, fault);
      CommitGrows(s, t, x.active[u.ref], u, x.plan.value, fault);
      if out.InfrastructureError? || out.NotAllowed? || out.Raised? {
        QuietStep(s, t);
      } else {
        var id :| Resolves(t, x.conn, u, id);
        AdvancingStep(s, t, w);
      }
    }
  }

  // Passing an ignored update ends the worker's cycle, or notes the position and moves the cursor.
  lemma SkipEffect(s: System, w: nat, fault: bool)
    requires BusyAt(s, w)
    ensures var t, x := Exec(s, Skip(w, fault)), s.workers[w];
      || t == s
      || t == Set(s, w, Idle)
      || (&& x.batch[x.k].ref !in x.active && x.conn in t.ignored && x.base + x.k in t.ignored[x.conn]
          && (forall c :: c in s.ignored ==> c in t.ignored && s.ignored[c] <= t.ignored[c])
          && t.workers == s.workers[w := x.(k := x.k + 1)] && t.streams == s.streams && t.written == s.written
          && t.db == s.db.(connections := Advance(s.db.connections, x.conn, x.batch[x.k].updateId)))
  {
    hide Position, Decide, Commit, IsActiveMap;
  }

  lemma SkipKeepsInv(s: System, w: nat, fault: bool)
    requires Inv(s)
    ensures Inv(Exec(s, Skip(w, fault)))
  {
    hide Position, NoLoss, CursorOnStream, AccountedUpTo, Exec;
    var t := Exec(s, Skip(w, fault));
    if !BusyAt(s, w) {
      NoSkip(s, w, fault);
    } else if t != s {
      SkipEffect(s, w, fault);
      assert WorkerInv(s, s.workers[w]);
      if t.workers[w].Idle? {
        QuietStep(s, t);
      } else {
        assert s.workers[w].plan.None?;
        AdvancingStep(s, t, w);
      }
    }
  }

  lemma NoSkip(s: System, w: nat, fault: bool)
    requires !BusyAt(s, w)
    ensures Exec(s, Skip(w, fault)) == s
  {
  }

  lemma ReadKeepsInv(s: System, w: nat)
    requires Inv(s)
    ensures Inv(Exec(s, Read(w)))
  {
    hide Position, IsActiveMap, NoLoss, CursorOnStream, AccountedUpTo, Commit, Accounted;
    var t := Exec(s, Read(w));
    if BusyAt(s, w) && t != s {
      var x := s.workers[w];
      var u := x.batch[x.k];
      assert WorkerInv(s, x);
      var p := Decide(s.db, x.active[u.ref], u, s.now);
      if p.Replay? {
        assert Records(t.db, x.conn, u, p.event);
      }
      WorkerInvGrows(s, t, x);
      assert WorkerInv(t, t.workers[w]);
      QuietStep(s, t);
    }
  }

  lemma PollKeepsInv(s: System, w: nat, c: nat, count: nat, active: map<string, nat>)
    requires Inv(s)
    ensures Inv(Exec(s, Poll(w, c, count, active)))
  {
    var t := Exec(s, Poll(w, c, count, active));
    if t != s {
      var from := Position(s.streams[c], s.db.connections[c].cursor);
      AccountedUpToGrows(s, t, c, from);
      assert WorkerInv(t, t.workers[w]);
      QuietStep(s, t);
    }
  }

  lemma ArriveKeepsInv(s: System, c: nat, u: Update)
    requires Inv(s)
    ensures Inv(Exec(s, Arrive(c, u)))
  {
    var t := Exec(s, Arrive(c, u));
    if t != s {
      assert s.streams[c] <= t.streams[c] && IsStream(t.streams[c]);
      QuietStep(s, t);
    }
  }

  // Administration, the clock, opening a handshake and stopping a worker touch neither cursors nor events.
  lemma OpenOrTickKeepsInv(s: System, step: Step)
    requires Inv(s) && (step.Open? || step.Tick?)
    ensures Inv(Exec(s, step))
  {
    hide Position, IsActiveMap, NoLoss, CursorOnStream, AccountedUpTo, Decide, Commit, IsStream, Accounted;
    QuietStep(s, Exec(s, step));
  }

  lemma StopKeepsInv(s: System, w: nat)
    requires Inv(s)
    ensures Inv(Exec(s, Stop(w)))
  {
    hide Position, IsActiveMap, NoLoss, CursorOnStream, AccountedUpTo, Decide, Commit, IsStream, Accounted;
    QuietStep(s, Exec(s, Stop(w)));
  }

  lemma SetConnectionKeepsInv(s: System, step: Step)
    requires Inv(s) && step.SetConnection?
    ensures Inv(Exec(s, step))
  {
    hide Position, IsActiveMap, AccountedUpTo, Decide, Commit, IsStream, Accounted;
    QuietStep(s, Exec(s, step));
  }

  // The step changes the sources only, and no source's connection or reference.
  lemma SourcesOnly(s: System, step: Step)
    requires step.SetSource? || step.AddSource?
    ensures var t := Exec(s, step);
      && t == s.(db := s.db.(sources := t.db.sources))
      && (forall src :: src in s.db.sources ==>
            && src in t.db.sources
            && t.db.sources[src].connection == s.db.sources[src].connection
            && t.db.sources[src].ref == s.db.sources[src].ref)
  {
    hide Position, IsActiveMap, Decide, Commit, BusyAt, Runnable;
  }

  lemma SourcesGrow(s: System, step: Step)
    requires Inv(s) && (step.SetSource? || step.AddSource?)
    ensures Grows(s, Exec(s, step)) && Exec(s, step).workers == s.workers
    ensures Exec(s, step).db.connections == s.db.connections
  {
    hide Exec, NoLoss, CursorOnStream, WorkerInv, IsStream;
    SourcesOnly(s, step);
  }

  lemma SourcesKeepInv(s: System, step: Step)
    requires Inv(s) && (step.SetSource? || step.AddSource?)
    ensures Inv(Exec(s, step))
  {
    hide Exec, Inv, Grows, WorkerInv;
    SourcesGrow(s, step);
    QuietStep(s, Exec(s, step));
  }

  lemma ExecKeepsInv(s: System, step: Step)
    requires Inv(s)
    ensures Inv(Exec(s, step))
  {
    match step
    case Arrive(c, u) => ArriveKeepsInv(s, c, u);
    case Poll(w, c, count, active) => PollKeepsInv(s, w, c, count, active);
    case Read(w) => ReadKeepsInv(s, w);
    case Write(w, fault) => WriteKeepsInv(s, w, fault);
    case Skip(w, fault) => SkipKeepsInv(s, w, fault);
    case Stop(w) => StopKeepsInv(s, w);
    case SetConnection(_, _, _, _) => SetConnectionKeepsInv(s, step);
    case SetSource(_, _, _, _) => SourcesKeepInv(s, step);
    case AddSource(_, _) => SourcesKeepInv(s, step);
    case _ => OpenOrTickKeepsInv(s, step);
  }

  ghost predicate Initial(s: System) {
    && (forall c :: c in s.streams ==> IsStream(s.streams[c]))
    && (forall c :: c in s.db.connections ==> s.db.connections[c].cursor.None?)
    && (forall w :: w in s.workers ==> s.workers[w].Idle?)
    && s.written == map[]
  }

  lemma {:induction false} RunKeepsInv(s: System, steps: seq<Step>)
    requires Inv(s)
    ensures Inv(Run(s, steps))
    decreases |steps|
  {
    if steps != [] {
      RunKeepsInv(s, steps[..|steps| - 1]);
      ExecKeepsInv(Run(s, steps[..|steps| - 1]), steps[|steps| - 1]);
    }
  }

  lemma InitialInv(s: System)
    requires Initial(s)
    ensures Inv(s)
  {
  }

  // No update is lost, over every interleaving of workers, failures and administration.
  lemma NothingIsLost(s: System, steps: seq<Step>)
    requires Initial(s)
    ensures NoLoss(Run(s, steps))
  {
    InitialInv(s);
    RunKeepsInv(s, steps);
  }

  // ---------- whose row an update has ----------

  // A step that is no commit writes no row.
  lemma OtherStepWrites(s: System, step: Step)
    requires !step.Write?
    ensures var t := Exec(s, step);
      && t.written == s.written && t.db.events == s.db.events
      && (forall src :: src in s.db.sources ==>
            && src in t.db.sources
            && t.db.sources[src].connection == s.db.sources[src].connection
            && t.db.sources[src].ref == s.db.sources[src].ref)
      && (forall c :: c in s.streams ==> c in t.streams && s.streams[c] <= t.streams[c])
  {
    hide Position, IsActiveMap, Decide;
  }

  // Every row of the run was written for an update; a commit writes at most one, for its worker's update.
  lemma ExecWrites(s: System, step: Step)
    requires Inv(s) && WrittenFit(s)
    ensures var t := Exec(s, step);
      && WrittenFit(t) && |s.db.events| <= |t.db.events| && s.written.Keys <= t.written.Keys
      && forall id :: |s.db.events| <= id < |t.db.events| ==> id in t.written
  {
    hide Exec, Inv;
    var t := Exec(s, step);
    if step.Write? {
      WriteWrites(s, step.w, step.fault);
    } else {
      OtherStepWrites(s, step);
      forall id | id in t.written
        ensures RowFits(t, id)
      {
        assert RowFits(s, id);
      }
    }
  }

  // A row fits its update from the moment it is written.
  lemma NewRowFits(s: System, t: System, src: nat, u: Update, p: Plan, fault: bool)
    requires src in s.db.sources && u.ref == s.db.sources[src].ref
    requires s.db.sources[src].connection in s.streams && u in s.streams[s.db.sources[src].connection]
    requires p.Insert? ==> u.normalized.Accepted? && p.key == StoreKey(u)
    requires t.db == Commit(s.db, src, u, p, s.now, fault).0 && t.streams == s.streams
    requires H.Wrote(Commit(s.db, src, u, p, s.now, fault).1)
    requires |s.db.events| in t.written && t.written[|s.db.events|] == u
    ensures RowFits(t, |s.db.events|)
  {
    hide FindExisting, Position;
  }

  lemma WriteWrites(s: System, w: nat, fault: bool)
    requires Inv(s) && WrittenFit(s)
    ensures var t := Exec(s, Write(w, fault));
      && WrittenFit(t) && |s.db.events| <= |t.db.events| && s.written.Keys <= t.written.Keys
      && forall id :: |s.db.events| <= id < |t.db.events| ==> id in t.written
  {
    hide Position, NoLoss, CursorOnStream, IsActiveMap, Decide, Commit, RowFits, AccountedUpTo;
    var t := Exec(s, Write(w, fault));
    if BusyAt(s, w) && t != s {
      var x := s.workers[w];
      assert WorkerInv(s, x);
      var u := x.batch[x.k];
      var src, p := x.active[u.ref], x.plan.value;
      assert s.streams[x.conn][x.base + x.k] == u;
      RowAndCursorTogether(s.db, src, u, p, s.now, fault);
      if H.Wrote(Commit(s.db, src, u, p, s.now, fault).1) { NewRowFits(s, t, src, u, p, fault); }
      forall id | id in s.written
        ensures RowFits(t, id)
      {
        OldRowFits(s, t, id);
      }
    }
  }

  lemma OldRowFits(s: System, t: System, id: nat)
    requires id in s.written && RowFits(s, id) && id in t.written && t.written[id] == s.written[id]
    requires |s.db.events| <= |t.db.events| && s.db.events == t.db.events[..|s.db.events|]
    requires t.streams == s.streams && t.db.sources == s.db.sources
    ensures RowFits(t, id)
  {
    assert t.db.events[id] == t.db.events[..|s.db.events|][id];
  }

  lemma {:induction false} RunWrites(s: System, steps: seq<Step>)
    requires Inv(s) && WrittenFit(s)
    ensures var t := Run(s, steps);
      && WrittenFit(t) && |s.db.events| <= |t.db.events|
      && forall id :: |s.db.events| <= id < |t.db.events| ==> id in t.written
    decreases |steps|
  {
    if steps != [] {
      hide Exec, Inv, WrittenFit;
      var n := |steps| - 1;
      RunWrites(s, steps[..n]);
      RunKeepsInv(s, steps[..n]);
      ExecWrites(Run(s, steps[..n]), steps[n]);
    }
  }

  // Two updates that share a key: the look-up key or the key of storing.
  predicate ShareKey(u: Update, v: Update) {
    || (ReplayKey(u).Some? && ReplayKey(u) == ReplayKey(v))
    || (v.normalized.Accepted? && ReplayKey(u).Some? && ReplayKey(u) == StoreKey(v))
    || (u.normalized.Accepted? && StoreKey(u).Some? && StoreKey(u) == ReplayKey(v))
    || (u.normalized.Accepted? && v.normalized.Accepted? && StoreKey(u).Some? && StoreKey(u) == StoreKey(v))
  }

  // A commit of the run wrote a row for u.
  ghost predicate HasOwnRow(s: System, c: nat, u: Update) {
    exists id :: id in s.written && s.written[id] == u && Records(s.db, c, u, id)
  }

  // A row written for another update of the same stream and reference answers u: the two share a key.
  ghost predicate Shares(s: System, c: nat, u: Update) {
    && c in s.streams
    && exists id :: id in s.written && Records(s.db, c, u, id) && s.db.events[id].state != Rejected
         && var v := s.written[id]; v != u && v in s.streams[c] && v.ref == u.ref && ShareKey(u, v)
  }

  ghost predicate HasOlderRow(s: System, c: nat, u: Update) { exists id :: id !in s.written && Records(s.db, c, u, id) }

  lemma Resolved(s: System, c: nat, i: nat)
    requires WrittenFit(s) && c in s.streams && i < |s.streams[c]| && Accounted(s, c, i)
    ensures var u := s.streams[c][i];
      (c in s.ignored && i in s.ignored[c]) || HasOwnRow(s, c, u) || Shares(s, c, u) || HasOlderRow(s, c, u)
  {
    var u := s.streams[c][i];
    if !(c in s.ignored && i in s.ignored[c]) {
      var id :| Resolves(s, c, u, id);
      if id in s.written {
        assert RowFits(s, id);
        assert s.written[id] != u ==> ShareKey(u, s.written[id]);
      }
    }
  }

  // Over every interleaving from empty tables: each update before the cursor was skipped as ignored, or has the row a
  // commit wrote for it, or shares a key with the update of its source whose row answers it.
  lemma EachIsResolved(s: System, steps: seq<Step>, c: nat, i: nat)
    requires Initial(s) && s.db.events == []
    requires var t := Run(s, steps);
      c in t.streams && c in t.db.connections && i < Position(t.streams[c], t.db.connections[c].cursor)
    ensures var t := Run(s, steps);
      var u := t.streams[c][i];
      (c in t.ignored && i in t.ignored[c]) || HasOwnRow(t, c, u) || Shares(t, c, u)
  {
    hide Run, Position;
    NothingIsLost(s, steps);
    assert Inv(s) by { InitialInv(s); }
    RunWrites(s, steps);
    Resolved(Run(s, steps), c, i);
  }

  // So where no two updates share a key, each has its own row unless it was ignored.
  lemma EachHasItsOwnRow(s: System, steps: seq<Step>, c: nat, i: nat)
    requires Initial(s) && s.db.events == []
    requires var t := Run(s, steps);
      && c in t.streams && c in t.db.connections && i < Position(t.streams[c], t.db.connections[c].cursor)
      && forall u, v :: u in t.streams[c] && v in t.streams[c] && u != v && u.ref == v.ref ==> !ShareKey(u, v)
    ensures var t := Run(s, steps); (c in t.ignored && i in t.ignored[c]) || HasOwnRow(t, c, t.streams[c][i])
  {
    hide Run, Position, ShareKey;
    EachIsResolved(s, steps, c, i);
  }

  // ---------- handshakes under interleaving ----------

  // The step commits a plan whose request another commit has verified since.
  ghost predicate StaleCommit(s: System, step: Step) {
    && step.Write? && BusyAt(s, step.w) && s.workers[step.w].plan.Some?
    && var x := s.workers[step.w];
    var u := x.batch[x.k];
    && u.ref in x.active && x.active[u.ref] in s.db.sources
    && H.Stale(s.db, x.plan.value)
    && H.Wrote(Commit(s.db, x.active[u.ref], u, x.plan.value, s.now, step.fault).1)
  }

  ghost function StaleCommits(s: System, steps: seq<Step>): nat {
    if steps == [] then 0
    else
      var n := |steps| - 1;
      StaleCommits(s, steps[..n]) + if StaleAt(s, steps, n) then 1 else 0
  }

  ghost predicate StaleAt(s: System, steps: seq<Step>, n: nat)
    requires n < |steps|
  {
    StaleCommit(Run(s, steps[..n]), steps[n])
  }

  ghost predicate PlansInBounds(s: System) {
    forall w :: w in s.workers && s.workers[w].Busy? && s.workers[w].plan.Some? ==>
      H.InBounds(s.db, s.workers[w].plan.value)
  }

  lemma WriteBalance(s: System, w: nat, fault: bool)
    requires PlansInBounds(s)
    ensures var t := Exec(s, Write(w, fault));
      && PlansInBounds(t)
      && H.Surplus(t.db) == H.Surplus(s.db) + if StaleCommit(s, Write(w, fault)) then 1 else 0
  {
    if BusyAt(s, w) && s.workers[w].plan.Some? {
      var x := s.workers[w];
      var u := x.batch[x.k];
      if u.ref in x.active && x.active[u.ref] in s.db.sources {
        H.CommitBalance(s.db, x.active[u.ref], u, x.plan.value, s.now, fault);
      }
    }
  }

  lemma ReadBalance(s: System, w: nat)
    requires PlansInBounds(s)
    ensures PlansInBounds(Exec(s, Read(w))) && H.Surplus(Exec(s, Read(w)).db) == H.Surplus(s.db)
  {
    if BusyAt(s, w) {
      var x := s.workers[w];
      var u := x.batch[x.k];
      if u.ref in x.active && x.active[u.ref] in s.db.sources {
        H.DecisionIsFresh(s.db, x.active[u.ref], u, s.now);
      }
    }
  }

  lemma OtherBalance(s: System, step: Step)
    requires PlansInBounds(s) && !step.Write? && !step.Read?
    ensures PlansInBounds(Exec(s, step)) && H.Surplus(Exec(s, step).db) == H.Surplus(s.db) && !StaleCommit(s, step)
  {
    hide Commit, Decide, Position, IsActiveMap, Runnable;
    if step.Open? { H.VerifiedsAppend(s.db.requests, step.request); }
  }

  lemma ExecBalance(s: System, step: Step)
    requires PlansInBounds(s)
    ensures PlansInBounds(Exec(s, step))
    ensures H.Surplus(Exec(s, step).db) == H.Surplus(s.db) + if StaleCommit(s, step) then 1 else 0
  {
    hide Exec, PlansInBounds, H.Surplus, Commit;
    match step
    case Write(w, fault) => WriteBalance(s, w, fault);
    case Read(w) => ReadBalance(s, w);
    case _ => OtherBalance(s, step);
  }

  lemma {:induction false} BalanceOfRun(s: System, steps: seq<Step>)
    requires PlansInBounds(s)
    ensures PlansInBounds(Run(s, steps)) && H.Surplus(Run(s, steps).db) == H.Surplus(s.db) + StaleCommits(s, steps)
    decreases |steps|
  {
    if steps != [] {
      hide Exec, StaleCommit;
      var n := |steps| - 1;
      BalanceOfRun(s, steps[..n]);
      ExecBalance(Run(s, steps[..n]), steps[n]);
    }
  }

  lemma StaleAtPrefix(s: System, steps: seq<Step>, m: nat, n: nat)
    requires m < n <= |steps|
    ensures StaleAt(s, steps[..n], m) == StaleAt(s, steps, m)
  {
    assert steps[..n][..m] == steps[..m];
  }

  lemma {:induction false} NoStaleCommits(s: System, steps: seq<Step>)
    ensures StaleCommits(s, steps) == 0 <==> forall n :: 0 <= n < |steps| ==> !StaleAt(s, steps, n)
    decreases |steps|
  {
    if steps != [] {
      hide StaleAt;
      var n := |steps| - 1;
      NoStaleCommits(s, steps[..n]);
      forall m | 0 <= m < n
        ensures StaleAt(s, steps[..n], m) == StaleAt(s, steps, m)
      {
        StaleAtPrefix(s, steps, m, n);
      }
    }
  }

  // Control events equal verified requests at the end of a run exactly when no commit of the run was stale.
  lemma BalancedIffNoStaleCommit(s: System, steps: seq<Step>)
    requires PlansInBounds(s) && H.Surplus(s.db) == 0
    ensures H.Surplus(Run(s, steps).db) == 0 <==> forall n :: 0 <= n < |steps| ==> !StaleAt(s, steps, n)
  {
    BalanceOfRun(s, steps);
    NoStaleCommits(s, steps);
  }
}
