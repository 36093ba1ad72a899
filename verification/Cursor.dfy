/** How a connection's cursor moves, and exactly when it goes back (app/collection/ingest.py, worker.py). */
module Cursor {
  import opened Wrappers
  import opened Tables
  import opened Ingest
  import opened Workers
  import H = Handshake

  // The number of updates of the stream up to the committed cursor.
  function At(s: System, c: nat): nat
    requires c in s.streams && c in s.db.connections
  {
    Position(s.streams[c], s.db.connections[c].cursor)
  }

  // ---------- the cursor may go back ----------

  // An ignored update that is passed.
  ghost predicate Skips(s: System, step: Step, c: nat) {
    && step.Skip? && !step.fault && BusyAt(s, step.w)
    && var x := s.workers[step.w];
    && x.conn == c && x.batch[x.k].ref !in x.active
    && c in s.db.connections && !s.db.connections[c].deleted
  }

  // A commit that writes a row.
  ghost predicate Writes(s: System, step: Step, c: nat) {
    && step.Write? && BusyAt(s, step.w)
    && var x := s.workers[step.w];
    var u := x.batch[x.k];
    && x.conn == c && x.plan.Some? && u.ref in x.active && x.active[u.ref] in s.db.sources
    && H.Wrote(Commit(s.db, x.active[u.ref], u, x.plan.value, s.now, step.fault).1)
  }

  // The position of the update that a worker is at.
  function Current(s: System, w: nat): nat
    requires w in s.workers && s.workers[w].Busy?
  {
    s.workers[w].base + s.workers[w].k
  }

  lemma PositionGrows(stream: seq<Update>, more: seq<Update>, cursor: Option<string>)
    requires IsStream(more) && stream <= more
    requires cursor.None? || exists i :: 0 <= i < |stream| && stream[i].updateId == cursor
    ensures Position(more, cursor) == Position(stream, cursor)
  {
    if cursor.Some? {
      var i :| 0 <= i < |stream| && stream[i].updateId == cursor;
      assert IsStream(stream) by {
        assert forall j :: 0 <= j < |stream| ==> stream[j] == more[j];
      }
      assert more[i] == stream[i];
      PositionOf(stream, i);
      PositionOf(more, i);
    }
  }

  lemma WriteMoves(s: System, step: Step, c: nat)
    requires Inv(s) && step.Write? && c in s.streams && c in s.db.connections
    ensures var t := Exec(s, step);
      && t.streams == s.streams && c in t.db.connections
      && if Writes(s, step, c) then t.db.connections[c].cursor == s.streams[c][Current(s, step.w)].updateId
         else t.db.connections[c].cursor == s.db.connections[c].cursor
  {
    hide Commit, Position, NoLoss, CursorOnStream;
    var t := Exec(s, step);
    if BusyAt(s, step.w) {
      var x := s.workers[step.w];
      var u := x.batch[x.k];
      assert WorkerInv(s, x);
      assert s.streams[x.conn][x.base + x.k] == u && u.updateId.Some?;
      if x.plan.Some? && u.ref in x.active {
        CommitGrows(s, t, x.active[u.ref], u, x.plan.value, step.fault);
        RowAndCursorTogether(s.db, x.active[u.ref], u, x.plan.value, s.now, step.fault);
      }
    }
  }

  lemma SkipMoves(s: System, step: Step, c: nat)
    requires Inv(s) && step.Skip? && c in s.streams && c in s.db.connections
    ensures var t := Exec(s, step);
      && t.streams == s.streams && c in t.db.connections
      && if Skips(s, step, c) then t.db.connections[c].cursor == s.streams[c][Current(s, step.w)].updateId
         else t.db.connections[c].cursor == s.db.connections[c].cursor
  {
    hide Position, NoLoss, CursorOnStream, AccountedUpTo;
    if BusyAt(s, step.w) {
      var x := s.workers[step.w];
      assert WorkerInv(s, x);
      assert s.streams[x.conn][x.base + x.k] == x.batch[x.k];
    }
  }

  // No other step touches a cursor.
  lemma OtherStepStays(s: System, step: Step, c: nat)
    requires !step.Write? && !step.Skip? && c in s.streams && c in s.db.connections
    ensures var t := Exec(s, step);
      && c in t.streams && s.streams[c] <= t.streams[c] && c in t.db.connections
      && t.db.connections[c].cursor == s.db.connections[c].cursor
  {
    hide Position, IsActiveMap, Decide;
  }

  lemma InRange(s: System, w: nat)
    requires Inv(s) && BusyAt(s, w)
    ensures s.workers[w].conn in s.streams && Current(s, w) < |s.streams[s.workers[w].conn]|
  {
    assert WorkerInv(s, s.workers[w]);
  }

  // Passing an ignored update or writing a row puts the cursor on the worker's update; nothing else moves it.
  lemma CursorAfter(s: System, step: Step, c: nat)
    requires Inv(s) && c in s.streams && c in s.db.connections
    ensures var t := Exec(s, step);
      && c in t.streams && c in t.db.connections
      && At(t, c) == if Skips(s, step, c) || Writes(s, step, c) then Current(s, step.w) + 1 else At(s, c)
  {
    ExecKeepsInv(s, step);
    var t := Exec(s, step);
    hide Exec, Position;
    if step.Write? || step.Skip? {
      if step.Write? { WriteMoves(s, step, c); } else { SkipMoves(s, step, c); }
      if Skips(s, step, c) || Writes(s, step, c) {
        InRange(s, step.w);
        PositionOf(s.streams[c], Current(s, step.w));
      }
    } else {
      OtherStepStays(s, step, c);
      assert CursorOnStream(s, c);
      PositionGrows(s.streams[c], t.streams[c], s.db.connections[c].cursor);
    }
  }

  // The cursor goes back exactly when a worker behind it passes an ignored update or writes a row.
  lemma CursorGoesBackIff(s: System, step: Step, c: nat)
    requires Inv(s) && c in s.streams && c in s.db.connections
    ensures c in Exec(s, step).streams && c in Exec(s, step).db.connections
    ensures At(Exec(s, step), c) < At(s, c)
       <==> (Skips(s, step, c) || Writes(s, step, c)) && Current(s, step.w) + 1 < At(s, c)
  {
    hide Exec, Inv, Skips, Writes, At;
    CursorAfter(s, step, c);
  }

  // ---------- a run in which it does ----------

  function Unsourced(updateId: string): Update { Update(Some(updateId), None, None, "ref", None, Invalid) }

  const TWO := [Unsourced("1"), Unsourced("2")]

  const EMPTY := Db(map[0 := Connection(0, true, Active, false, None)], map[], [], [])

  const BEFORE := System(EMPTY, map[0 := TWO], map[], map[], map[0 := Idle, 1 := Idle], 0)

  const POLLS := [Poll(0, 0, 2, map[]), Poll(1, 0, 2, map[])]
  const PASSES := [Skip(0, false), Skip(0, false)]

  // The system with the cursor and the two workers at these places.
  function Midway(cursor: Option<string>, skipped: set<nat>, first: nat, second: nat): System {
    BEFORE.(db := EMPTY.(connections := map[0 := EMPTY.connections[0].(cursor := cursor)]),
            ignored := if skipped == {} then map[] else map[0 := skipped],
            workers := map[0 := Busy(0, 0, TWO, first, map[], None), 1 := Busy(0, 0, TWO, second, map[], None)])
  }

  lemma Polled()
    ensures Run(BEFORE, POLLS) == Midway(None, {}, 0, 0)
  {
    assert TWO[0..2] == TWO;
    assert IsActiveMap(EMPTY, 0, map[]);
    assert Position(TWO, None) == 0;
    var one := BEFORE.(workers := map[0 := Busy(0, 0, TWO, 0, map[], None), 1 := Idle]);
    assert Exec(BEFORE, POLLS[0]) == one;
    RunOfTwo(BEFORE, POLLS[0], POLLS[1]);
  }

  lemma FirstSkips(cursor: Option<string>, skipped: set<nat>, first: nat, second: nat)
    requires first < 2
    ensures Exec(Midway(cursor, skipped, first, second), Skip(0, false))
         == Midway(TWO[first].updateId, skipped + {first}, first + 1, second)
  {
  }

  lemma SecondSkips(cursor: Option<string>, skipped: set<nat>, first: nat, second: nat)
    requires second < 2
    ensures Exec(Midway(cursor, skipped, first, second), Skip(1, false))
         == Midway(TWO[second].updateId, skipped + {second}, first, second + 1)
  {
  }

  lemma TwoIsStream()
    ensures IsStream(TWO) && Initial(BEFORE)
  {
  }

  lemma FirstPassesBoth()
    ensures Run(BEFORE, POLLS + PASSES) == Midway(TWO[1].updateId, {} + {0} + {1}, 2, 0)
  {
    hide Exec, Run, Midway;
    Polled();
    RunConcat(BEFORE, POLLS, PASSES);
    FirstSkips(None, {}, 0, 0);
    FirstSkips(TWO[0].updateId, {} + {0}, 1, 0);
    RunOfTwo(Midway(None, {}, 0, 0), Skip(0, false), Skip(0, false));
  }

  lemma SecondPassesOne()
    ensures Run(BEFORE, POLLS + PASSES + [Skip(1, false)]) == Midway(TWO[0].updateId, {} + {0} + {1} + {0}, 2, 1)
  {
    hide Exec, Run, Midway, POLLS, PASSES;
    FirstPassesBoth();
    RunConcat(BEFORE, POLLS + PASSES, [Skip(1, false)]);
    RunOne(Midway(TWO[1].updateId, {} + {0} + {1}, 2, 0), Skip(1, false));
    SecondSkips(TWO[1].updateId, {} + {0} + {1}, 2, 0);
  }

  // Two workers poll the same two updates of no source; the first passes both, and then the second its first.
  lemma SlowWorkerSetsCursorBack()
    ensures Initial(BEFORE)
    ensures var s, t := Run(BEFORE, POLLS + PASSES), Run(BEFORE, POLLS + PASSES + [Skip(1, false)]);
      && 0 in s.streams && 0 in s.db.connections && 0 in t.streams && 0 in t.db.connections
      && At(s, 0) == 2 && At(t, 0) == 1
  {
    TwoIsStream();
    PositionOf(TWO, 0);
    PositionOf(TWO, 1);
    FirstPassesBoth();
    SecondPassesOne();
    hide Run, Position;
  }
}
