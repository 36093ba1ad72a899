/** A run in which two workers confirm one test request, each with a control event (app/collection/ingest.py). */
module StaleHandshake {
  import opened Wrappers
  import opened Tables
  import opened Ingest
  import opened Workers
  import H = Handshake
  import Verify

  const NONCE := "abcdefgh"

  // The same handshake text posted to two sources.
  function Posted(updateId: string, ref: string): Update {
    Update(Some(updateId), None, Some(Verify.Message(NONCE)), ref, None, Invalid)
  }

  const FIRST := Posted("1", "x")
  const SECOND := Posted("2", "y")

  const OPEN := Request(0, 0, None, Verify.NonceHash(NONCE), Awaiting, None, None)

  // The tables with the first source enabled or not, these events, and the one request.
  function Rows(enabled: bool, cursor: Option<string>, events: seq<Event>, request: Request): Db {
    Db(map[0 := Connection(0, true, Active, false, cursor)],
       map[0 := Source(0, 0, "x", enabled, Active, false), 1 := Source(0, 0, "y", true, Active, false)],
       events, [request])
  }

  const BEFORE := System(Rows(true, None, [], OPEN), map[0 := [FIRST, SECOND]], map[], map[],
      map[0 := Idle, 1 := Idle], 0)

  const BOTH: map<string, nat> := map["x" := 0, "y" := 1]
  const ONE: map<string, nat> := map["y" := 1]

  // The first worker reads the first update; the first source is disabled, so the second worker passes that
  // update as ignored and reads the second; both commit.
  const FIRST_READS := [Poll(0, 0, 2, BOTH), Read(0)]
  const SECOND_POLLS := [SetSource(0, false, Active, false), Poll(1, 0, 2, ONE)]
  const SECOND_READS := [Skip(1, false), Read(1)]
  const BOTH_COMMIT := [Write(0, false), Write(1, false)]
  const STEPS := FIRST_READS + SECOND_POLLS + SECOND_READS + BOTH_COMMIT

  function First(k: nat, plan: Option<Plan>): Worker { Busy(0, 0, [FIRST, SECOND], k, BOTH, plan) }
  function Second(k: nat, plan: Option<Plan>): Worker { Busy(0, 0, [FIRST, SECOND], k, ONE, plan) }

  lemma ReadsNonce()
    ensures Verify.ParseVerifyNonce(Some(Verify.Message(NONCE))) == Some(NONCE)
  {
    Verify.MessageReadBackIff(NONCE);
  }

  lemma Confirms(enabled: bool, cursor: Option<string>, src: nat, u: Update)
    requires (src == 0 && enabled) || src == 1
    requires u.text == Some(Verify.Message(NONCE))
    ensures Decide(Rows(enabled, cursor, [], OPEN), src, u, 0) == Confirm(0)
  {
    hide Verify.ParseVerifyNonce, Verify.Message;
    ReadsNonce();
    var db := Rows(enabled, cursor, [], OPEN);
    assert FindExisting(db.events, 0, src, ReplayKey(u)).None?;
    assert FindAwaiting(db.requests, 0, 0, Verify.NonceHash(NONCE), 0) == Some(0);
  }

  // The control event of an update of source src.
  function ControlRow(src: nat, u: Update): Event { NewEvent(0, src, ReplayKey(u), Control, u.date, 0) }

  lemma Commits(cursor: Option<string>, events: seq<Event>, request: Request, src: nat, u: Update)
    requires src < 2 && FindExisting(events, 0, src, ReplayKey(u)).None? && u.updateId.Some?
    ensures Commit(Rows(false, cursor, events, request), src, u, Confirm(0), 0, false)
         == (Rows(false, u.updateId, events + [ControlRow(src, u)], Confirmed(request, 0)), ControlStored(|events|))
  {
    hide FindExisting;
    assert [request][0 := Confirmed(request, 0)] == [Confirmed(request, 0)];
    var db := Rows(false, cursor, events, request);
    assert Advance(db.connections, 0, u.updateId) == Rows(false, u.updateId, events, request).connections;
  }

  function Mid(db: Db, ignored: map<nat, set<nat>>, written: map<nat, Update>, x: Worker, y: Worker): System {
    System(db, BEFORE.streams, ignored, written, map[0 := x, 1 := y], 0)
  }

  // Polling from an unset cursor takes the whole stream.
  lemma Polls(s: System, w: nat, c: nat, count: nat, active: map<string, nat>)
    requires w in s.workers && s.workers[w].Idle? && c in s.streams && Runnable(s.db, c) && IsActiveMap(s.db, c, active)
    requires s.db.connections[c].cursor.None? && count == |s.streams[c]|
    ensures Exec(s, Poll(w, c, count, active)) == Set(s, w, Busy(c, 0, s.streams[c], 0, active, None))
  {
    hide IsActiveMap;
    assert Position(s.streams[c], s.db.connections[c].cursor) == 0;
    assert s.streams[c][0..count] == s.streams[c];
  }

  lemma Reads(s: System, w: nat)
    requires BusyAt(s, w) && s.workers[w].plan.None?
    requires var x := s.workers[w]; x.batch[x.k].ref in x.active && x.active[x.batch[x.k].ref] in s.db.sources
    ensures var x := s.workers[w];
      var u := x.batch[x.k];
      Exec(s, Read(w)) == Set(s, w, x.(plan := Some(Decide(s.db, x.active[u.ref], u, s.now))))
  {
    hide Decide;
  }

  lemma FirstReads()
    ensures Exec(Exec(BEFORE, FIRST_READS[0]), FIRST_READS[1]) == Mid(Rows(true, None, [], OPEN), map[], map[],
        First(0, Some(Confirm(0))), Idle)
  {
    hide Verify.Message, Exec, Decide, IsActiveMap;
    ActiveMaps();
    Polls(BEFORE, 0, 0, 2, BOTH);
    var one := Mid(Rows(true, None, [], OPEN), map[], map[], First(0, None), Idle);
    assert Exec(BEFORE, FIRST_READS[0]) == one;
    Reads(one, 0);
    Confirms(true, None, 0, FIRST);
  }

  lemma ActiveMaps()
    ensures IsActiveMap(Rows(true, None, [], OPEN), 0, BOTH) && IsActiveMap(Rows(false, None, [], OPEN), 0, ONE)
  {
    assert Listed(Rows(true, None, [], OPEN), 0, 0) && Listed(Rows(true, None, [], OPEN), 0, 1);
    assert Listed(Rows(false, None, [], OPEN), 0, 1);
  }

  lemma SecondPolls(s: System)
    requires s == Mid(Rows(true, None, [], OPEN), map[], map[], First(0, Some(Confirm(0))), Idle)
    ensures Exec(Exec(s, SECOND_POLLS[0]), SECOND_POLLS[1])
         == Mid(Rows(false, None, [], OPEN), map[], map[], First(0, Some(Confirm(0))), Second(0, None))
  {
    ActiveMaps();
    hide Verify.Message, Decide, IsActiveMap;
    var off := Mid(Rows(false, None, [], OPEN), map[], map[], First(0, Some(Confirm(0))), Idle);
    assert Exec(s, SECOND_POLLS[0]) == off;
    hide Exec;
    Polls(off, 1, 0, 2, ONE);
  }

  lemma SecondPasses(s: System)
    requires s == Mid(Rows(false, None, [], OPEN), map[], map[], First(0, Some(Confirm(0))), Second(0, None))
    ensures Exec(s, SECOND_READS[0])
         == Mid(Rows(false, FIRST.updateId, [], OPEN), map[0 := {0}], map[], First(0, Some(Confirm(0))),
             Second(1, None))
  {
    hide Verify.Message;
    assert {} + {0} == {0};
  }

  lemma SecondReads(s: System)
    requires s == Mid(Rows(false, FIRST.updateId, [], OPEN), map[0 := {0}], map[], First(0, Some(Confirm(0))),
        Second(1, None))
    ensures Exec(s, SECOND_READS[1])
         == s.(workers := map[0 := First(0, Some(Confirm(0))), 1 := Second(1, Some(Confirm(0)))])
  {
    hide Verify.Message;
    Confirms(false, FIRST.updateId, 1, SECOND);
    hide Decide;
  }

  lemma BothCommit(s: System)
    requires s == Mid(Rows(false, FIRST.updateId, [], OPEN), map[0 := {0}], map[],
                      First(0, Some(Confirm(0))), Second(1, Some(Confirm(0))))
    ensures var t := Exec(Exec(s, BOTH_COMMIT[0]), BOTH_COMMIT[1]);
      t.db == Rows(false, SECOND.updateId, [ControlRow(0, FIRST), ControlRow(1, SECOND)],
          Confirmed(Confirmed(OPEN, 0), 0))
  {
    hide Verify.Message;
    Commits(FIRST.updateId, [], OPEN, 0, FIRST);
    Commits(FIRST.updateId, [ControlRow(0, FIRST)], Confirmed(OPEN, 0), 1, SECOND);
    assert [] + [ControlRow(0, FIRST)] == [ControlRow(0, FIRST)];
    assert [ControlRow(0, FIRST)] + [ControlRow(1, SECOND)] == [ControlRow(0, FIRST), ControlRow(1, SECOND)];
    hide Commit;
    assert Exec(s, BOTH_COMMIT[0]).workers[1] == Second(1, Some(Confirm(0)));
  }

  lemma SurplusOfTwo(e: Event, f: Event, r: Request)
    requires e.state == Control && f.state == Control && r.status == Verified
    ensures H.Controls([e, f]) == 2 && H.Verifieds([r]) == 1
  {
    assert [e, f][..1] == [e] && [e][..0] == [] && [r][..0] == [];
    assert H.Controls([e]) == 1;
  }

  // From a good initial state to two control events for the one verified request.
  lemma OneRequestTwoControls()
    ensures Initial(BEFORE) && H.Surplus(BEFORE.db) == 0 && PlansInBounds(BEFORE)
    ensures H.Surplus(Run(BEFORE, STEPS).db) == 1
  {
    hide Verify.Message, Exec, Run;
    FirstReads();
    var read := Exec(Exec(BEFORE, FIRST_READS[0]), FIRST_READS[1]);
    SecondPolls(read);
    var polled := Exec(Exec(read, SECOND_POLLS[0]), SECOND_POLLS[1]);
    SecondPasses(polled);
    var passed := Exec(polled, SECOND_READS[0]);
    SecondReads(passed);
    var both := Exec(passed, SECOND_READS[1]);
    BothCommit(both);
    RunOfPairs(read, polled, both);
    SurplusOfTwo(ControlRow(0, FIRST), ControlRow(1, SECOND), Confirmed(Confirmed(OPEN, 0), 0));
  }

  lemma RunOfPairs(read: System, polled: System, both: System)
    requires read == Exec(Exec(BEFORE, FIRST_READS[0]), FIRST_READS[1])
    requires polled == Exec(Exec(read, SECOND_POLLS[0]), SECOND_POLLS[1])
    requires both == Exec(Exec(polled, SECOND_READS[0]), SECOND_READS[1])
    ensures Run(BEFORE, STEPS) == Exec(Exec(both, BOTH_COMMIT[0]), BOTH_COMMIT[1])
  {
    hide Exec, Run, BEFORE;
    RunOfTwo(BEFORE, FIRST_READS[0], FIRST_READS[1]);
    RunOfTwo(read, SECOND_POLLS[0], SECOND_POLLS[1]);
    RunOfTwo(polled, SECOND_READS[0], SECOND_READS[1]);
    RunOfTwo(both, BOTH_COMMIT[0], BOTH_COMMIT[1]);
    RunConcat(BEFORE, FIRST_READS, SECOND_POLLS);
    RunConcat(BEFORE, FIRST_READS + SECOND_POLLS, SECOND_READS);
    RunConcat(BEFORE, FIRST_READS + SECOND_POLLS + SECOND_READS, BOTH_COMMIT);
  }
}
