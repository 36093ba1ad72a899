/**
 Ingestion of one update (app/collection/ingest.py) with the test-request lookup of
 app/collection/service.py.

 A call reads the tables, makes a plan, and commits it.  `Decide` is the reading
 half and `Commit` the transaction: workers interleave between the two, so the
 commit may meet rows that were not there when the plan was made.
 */
module Ingest {
  import opened Wrappers
  import opened Hashing
  import opened Tables
  import Verify

  // The outcome of validator and normalizer on an update, a function of the update.
  datatype Normalization = Accepted(externalId: string, occurredAt: Option<int>) | Invalid | Raises

  datatype Update = Update(updateId: Option<string>, otherId: Option<string>, text: Option<string>, ref: string,
                           date: Option<int>, normalized: Normalization)

  datatype Db = Db(connections: map<nat, Connection>, sources: map<nat, Source>, events: seq<Event>,
                   requests: seq<Request>)

  function CursorValue(u: Update): Option<string> { if u.updateId.Some? then u.updateId else u.otherId }

  function HashOf(value: Option<string>): Option<Digest> {
    match value
    case None => None
    case Some(v) => Some(Sha256(v))
  }

  function ReplayKey(u: Update): Option<Digest> { HashOf(CursorValue(u)) }

  // The key a normalized event is stored under: the provider's id when it gives one.
  function StoreKey(u: Update): Option<Digest>
    requires u.normalized.Accepted?
  {
    if u.normalized.externalId != "" then Some(Sha256(u.normalized.externalId)) else ReplayKey(u)
  }

  // ---------- the unique index uq_coll_event_external ----------

  // e holds the index entry of (tenant, source, key).
  predicate Indexed(e: Event, tenant: nat, source: nat, key: Option<Digest>) {
    key.Some? && e.tenant == tenant && e.source == source && e.key == key && e.state != Rejected
  }

  predicate SameEntry(e: Event, f: Event) {
    e.state != Rejected && Indexed(f, e.tenant, e.source, e.key)
  }

  ghost predicate UniqueKeys(events: seq<Event>) {
    forall i, j :: 0 <= i < j < |events| ==> !SameEntry(events[i], events[j])
  }

  function FindExisting(events: seq<Event>, tenant: nat, source: nat, key: Option<Digest>): (r: Option<nat>)
    ensures r.Some? ==> r.value < |events| && Indexed(events[r.value], tenant, source, key)
    ensures r.Some? ==> forall i :: 0 <= i < r.value ==> !Indexed(events[i], tenant, source, key)
    ensures r.None? ==> forall i :: 0 <= i < |events| ==> !Indexed(events[i], tenant, source, key)
  {
    FindExistingFrom(events, tenant, source, key, 0)
  }

  function FindExistingFrom(events: seq<Event>, tenant: nat, source: nat, key: Option<Digest>, from: nat)
    : (r: Option<nat>)
    requires from <= |events|
    ensures r.Some? ==> from <= r.value < |events| && Indexed(events[r.value], tenant, source, key)
    ensures r.Some? ==> forall i :: from <= i < r.value ==> !Indexed(events[i], tenant, source, key)
    ensures r.None? ==> forall i :: from <= i < |events| ==> !Indexed(events[i], tenant, source, key)
    decreases |events| - from
  {
    if from == |events| then None
    else if Indexed(events[from], tenant, source, key) then Some(from)
    else FindExistingFrom(events, tenant, source, key, from + 1)
  }

  // ---------- test requests ----------

  predicate Awaits(r: Request, tenant: nat, connection: nat, nonce: Digest) {
    r.tenant == tenant && r.connection == connection && r.nonce == nonce && r.status == Awaiting
  }

  function FindAwaiting(rs: seq<Request>, tenant: nat, connection: nat, nonce: Digest, from: nat): (r: Option<nat>)
    requires from <= |rs|
    ensures r.Some? ==> from <= r.value < |rs| && Awaits(rs[r.value], tenant, connection, nonce)
    ensures r.None? ==> forall i :: from <= i < |rs| ==> !Awaits(rs[i], tenant, connection, nonce)
    decreases |rs| - from
  {
    if from == |rs| then None
    else if Awaits(rs[from], tenant, connection, nonce) then Some(from)
    else FindAwaiting(rs, tenant, connection, nonce, from + 1)
  }

  datatype Match = NoMatch | Lapsed(request: nat) | Matched(request: nat)

  predicate Unexpired(r: Request, now: int) { r.expiresAt.None? || r.expiresAt.value >= now }

  function FindMatching(rs: seq<Request>, tenant: nat, connection: nat, source: nat, nonce: Digest, now: int)
    : (m: Match)
    ensures m.Matched? ==>
      && m.request < |rs|
      && Awaits(rs[m.request], tenant, connection, nonce) && Unexpired(rs[m.request], now)
    ensures m.Lapsed? ==> m.request < |rs| && rs[m.request].status == Awaiting && !Unexpired(rs[m.request], now)
  {
    match FindAwaiting(rs, tenant, connection, nonce, 0)
    case None => NoMatch
    case Some(i) =>
      if rs[i].source.Some? && rs[i].source.value != source then NoMatch
      else if !Unexpired(rs[i], now) then Lapsed(i)
      else Matched(i)
  }

  function MatchFor(db: Db, src: nat, u: Update, now: int): (m: Match)
    requires src in db.sources
    ensures !m.NoMatch? ==> m.request < |db.requests| && db.requests[m.request].status == Awaiting
    ensures m.Matched? ==> Unexpired(db.requests[m.request], now)
  {
    var s := db.sources[src];
    match Verify.ParseVerifyNonce(u.text)
    case None => NoMatch
    case Some(nonce) => FindMatching(db.requests, s.tenant, s.connection, src, Verify.NonceHash(nonce), now)
  }

  // ---------- reading ----------

  datatype Plan =
    | Refuse
    | Replay(event: nat)
    | Confirm(request: nat)
    | Reject(lapsed: Option<nat>)
    | Insert(key: Option<Digest>, occurredAt: Option<int>, lapsed: Option<nat>)
    | Crash

  predicate ActivePair(db: Db, src: nat)
    requires src in db.sources
  {
    var s := db.sources[src];
    && s.connection in db.connections
    && var c := db.connections[s.connection];
    && c.tenant == s.tenant
    && !c.deleted && c.enabled && c.status != Revoked
    && !s.deleted && s.enabled && s.status != Revoked
  }

  function Decide(db: Db, src: nat, u: Update, now: int): Plan
    requires src in db.sources
  {
    var s := db.sources[src];
    if !ActivePair(db, src) then Refuse
    else
      var existing := FindExisting(db.events, s.tenant, src, ReplayKey(u));
      if existing.Some? then Replay(existing.value)
      else
        var m := MatchFor(db, src, u, now);
        if m.Matched? then Confirm(m.request)
        else
          var lapsed := if m.Lapsed? then Some(m.request) else None;
          match u.normalized
          case Raises => Crash
          case Invalid => Reject(lapsed)
          case Accepted(_, at) => Insert(StoreKey(u), at, lapsed)
  }

  // ---------- committing ----------

  datatype Outcome =
    | NotAllowed
    | Stored(id: nat)
    | ControlStored(id: nat)
    | RejectionStored(id: nat)
    | Deduplicated(id: nat)
    | InfrastructureError
    | Raised

  function Advance(cs: map<nat, Connection>, c: nat, cursor: Option<string>): map<nat, Connection> {
    if cursor.Some? && c in cs then cs[c := cs[c].(cursor := cursor)] else cs
  }

  function Expire(rs: seq<Request>, lapsed: Option<nat>): (r: seq<Request>)
    ensures |r| == |rs|
  {
    if lapsed.Some? && lapsed.value < |rs| then rs[lapsed.value := rs[lapsed.value].(status := Expired)] else rs
  }

  function Confirmed(r: Request, now: int): Request { r.(status := Verified, verifiedAt := Some(now)) }

  // The new row of a plan that writes one.
  function RowOf(db: Db, src: nat, u: Update, p: Plan, now: int): Event
    requires src in db.sources && (p.Confirm? || p.Reject? || p.Insert?)
  {
    var t := db.sources[src].tenant;
    match p
    case Confirm(_) => NewEvent(t, src, ReplayKey(u), Control, u.date, now)
    case Reject(_) => NewEvent(t, src, ReplayKey(u), Rejected, None, now)
    case Insert(key, at, _) => NewEvent(t, src, key, Normalized, at, now)
  }

  // The transaction that appends the row of p, moves the cursor and updates the requests.
  function Write(db: Db, src: nat, u: Update, p: Plan, now: int): Db
    requires src in db.sources && (p.Confirm? || p.Reject? || p.Insert?)
  {
    var requests := match p
      case Confirm(r) => if r < |db.requests| then db.requests[r := Confirmed(db.requests[r], now)] else db.requests
      case Reject(lapsed) => Expire(db.requests, lapsed)
      case Insert(_, _, lapsed) => Expire(db.requests, lapsed);
    db.(events := db.events + [RowOf(db, src, u, p, now)],
        requests := requests,
        connections := Advance(db.connections, db.sources[src].connection, CursorValue(u)))
  }

  // `fault` is a database failure anywhere in the transaction: it rolls back.
  function Commit(db: Db, src: nat, u: Update, p: Plan, now: int, fault: bool): (r: (Db, Outcome))
    requires src in db.sources
    ensures r.0.sources == db.sources
  {
    var t, id := db.sources[src].tenant, |db.events|;
    match p
    case Refuse => (db, NotAllowed)
    case Crash => (db, Raised)
    case Replay(i) => (db, Deduplicated(i))
    case Confirm(_) =>
      if fault || FindExisting(db.events, t, src, ReplayKey(u)).Some? then (db, InfrastructureError)
      else (Write(db, src, u, p, now), ControlStored(id))
    case Reject(_) =>
      if fault then (db, InfrastructureError)
      else (Write(db, src, u, p, now), RejectionStored(id))
    case Insert(key, _, _) =>
      var existing := FindExisting(db.events, t, src, key);
      if fault then (db, InfrastructureError)
      else if existing.Some? then (db, Deduplicated(existing.value))
      else (Write(db, src, u, p, now), Stored(id))
  }

  function IngestOnce(db: Db, src: nat, u: Update, now: int, fault: bool): (r: (Db, Outcome))
    requires src in db.sources
    ensures r.0.sources == db.sources
  {
    Commit(db, src, u, Decide(db, src, u, now), now, fault)
  }

  // ---------- the session ----------

  class Store {
    var connections: map<nat, Connection>
    var sources: map<nat, Source>
    var events: seq<Event>
    var requests: seq<Request>

    ghost function Abs(): Db reads this { Db(connections, sources, events, requests) }

    constructor (db: Db)
      ensures Abs() == db
    {
      connections, sources, events, requests := db.connections, db.sources, db.events, db.requests;
    }

    method FindExistingEvent(tenant: nat, source: nat, key: Option<Digest>) returns (r: Option<nat>)
      ensures r == FindExisting(events, tenant, source, key)
    {
      if key.None? { return None; }
      for i := 0 to |events|
        invariant forall j :: 0 <= j < i ==> !Indexed(events[j], tenant, source, key)
      {
        if Indexed(events[i], tenant, source, key) { return Some(i); }
      }
      return None;
    }

    method AdvanceCursor(c: nat, cursor: Option<string>)
      modifies this`connections
      ensures connections == Advance(old(connections), c, cursor)
    {
      if cursor.Some? && c in connections {
        connections := connections[c := connections[c].(cursor := cursor)];
      }
    }

    method RecordRejection(src: nat, u: Update, lapsed: Option<nat>, now: int, fault: bool) returns (r: Outcome)
      requires src in sources
      modifies this
      ensures (Abs(), r) == Commit(old(Abs()), src, u, Reject(lapsed), now, fault)
    {
      if fault { return InfrastructureError; }
      var id := |events|;
      events := events + [NewEvent(sources[src].tenant, src, ReplayKey(u), Rejected, None, now)];
      requests := Expire(requests, lapsed);
      AdvanceCursor(sources[src].connection, CursorValue(u));
      return RejectionStored(id);
    }

    method IngestUpdate(src: nat, u: Update, now: int, fault: bool) returns (r: Outcome)
      requires src in sources
      modifies this
      ensures (Abs(), r) == IngestOnce(old(Abs()), src, u, now, fault)
      ensures sources == old(sources)
    {
      ghost var before := Abs();
      if !ActivePair(Db(connections, sources, events, requests), src) { return NotAllowed; }
      var s := sources[src];
      var existing := FindExistingEvent(s.tenant, src, ReplayKey(u));
      if existing.Some? { return Deduplicated(existing.value); }
      var lapsed: Option<nat> := None;
      var nonce := Verify.ParseVerifyNonce(u.text);
      if nonce.Some? {
        var m := FindMatching(requests, s.tenant, s.connection, src, Verify.NonceHash(nonce.value), now);
        if m.Matched? {
          if fault { return InfrastructureError; }
          var id := |events|;
          events := events + [NewEvent(s.tenant, src, ReplayKey(u), Control, u.date, now)];
          requests := requests[m.request := Confirmed(requests[m.request], now)];
          AdvanceCursor(s.connection, CursorValue(u));
          return ControlStored(id);
        }
        if m.Lapsed? { lapsed := Some(m.request); }
      }
      if u.normalized.Raises? { return Raised; }
      if u.normalized.Invalid? {
        r := RecordRejection(src, u, lapsed, now, fault);
        return;
      }
      var key := StoreKey(u);
      if fault { return InfrastructureError; }
      var clash := FindExistingEvent(s.tenant, src, key);
      if clash.Some? { return Deduplicated(clash.value); }
      var id := |events|;
      events := events + [NewEvent(s.tenant, src, key, Normalized, u.normalized.occurredAt, now)];
      requests := Expire(requests, lapsed);
      AdvanceCursor(s.connection, CursorValue(u));
      return Stored(id);
    }
  }

  // ---------- what one commit keeps and moves ----------

  lemma CommitKeepsUniqueKeys(db: Db, src: nat, u: Update, p: Plan, now: int, fault: bool)
    requires src in db.sources && UniqueKeys(db.events)
    ensures UniqueKeys(Commit(db, src, u, p, now, fault).0.events)
  {
    var after := Commit(db, src, u, p, now, fault).0.events;
    if after != db.events {
      var e := RowOf(db, src, u, p, now);
      assert after == db.events + [e];
      forall i | 0 <= i < |db.events|
        ensures !SameEntry(db.events[i], e)
      {
        assert !Indexed(db.events[i], e.tenant, e.source, e.key) || e.state == Rejected;
      }
    }
  }

  // One transaction: either nothing changes, or a row is appended and the cursor stands on the update.
  lemma RowAndCursorTogether(db: Db, src: nat, u: Update, p: Plan, now: int, fault: bool)
    requires src in db.sources
    ensures var (after, out) := Commit(db, src, u, p, now, fault);
      && after.sources == db.sources
      && if out.Stored? || out.ControlStored? || out.RejectionStored? then
           && |after.events| == |db.events| + 1 && out.id == |db.events|
           && after.events[..|db.events|] == db.events
           && after.events[out.id].source == src
           && (db.sources[src].connection in db.connections && CursorValue(u).Some? ==>
                 after.connections[db.sources[src].connection].cursor == CursorValue(u))
         else
           after == db
  {
  }

  // ---------- replay ----------

  // A non-rejected row that a call for u may have written: under its update id, or under the provider's id.
  predicate RowFor(db: Db, src: nat, u: Update, id: nat)
    requires src in db.sources
  {
    && id < |db.events|
    && var t := db.sources[src].tenant;
    || Indexed(db.events[id], t, src, ReplayKey(u))
    || (u.normalized.Accepted? && Indexed(db.events[id], t, src, StoreKey(u)))
  }

  // No other row of the tenant and source holds the key under which u is looked up.
  predicate SoleHolder(db: Db, src: nat, u: Update, id: nat)
    requires src in db.sources
  {
    forall j :: 0 <= j < |db.events| && j != id ==> !Indexed(db.events[j], db.sources[src].tenant, src, ReplayKey(u))
  }

  lemma EntryIsUnique(events: seq<Event>, tenant: nat, source: nat, key: Option<Digest>, id: nat)
    requires UniqueKeys(events) && id < |events| && Indexed(events[id], tenant, source, key)
    ensures FindExisting(events, tenant, source, key) == Some(id)
  {
    var r := FindExisting(events, tenant, source, key);
    assert r.Some?;
    if r.value < id {
      assert SameEntry(events[r.value], events[id]);
    }
  }

  lemma FindAfterAppend(events: seq<Event>, e: Event, tenant: nat, source: nat, key: Option<Digest>)
    ensures FindExisting(events + [e], tenant, source, key)
         == if FindExisting(events, tenant, source, key).Some? then FindExisting(events, tenant, source, key)
            else if Indexed(e, tenant, source, key) then Some(|events|) else None
  {
    var r := FindExisting(events + [e], tenant, source, key);
    assert forall i :: 0 <= i < |events| ==> (events + [e])[i] == events[i];
    assert (events + [e])[|events|] == e;
  }

  // Replay of an update that has a row: nothing changes, and the answer is that row exactly when
  // no other row holds the update's look-up key.
  lemma ReplayIsAnswered(db: Db, src: nat, u: Update, id: nat, now: int)
    requires src in db.sources && UniqueKeys(db.events) && RowFor(db, src, u, id)
    requires ActivePair(db, src) && !MatchFor(db, src, u, now).Matched?
    ensures var (after, out) := IngestOnce(db, src, u, now, false);
      && after == db && out.Deduplicated?
      && (out == Deduplicated(id) <==> SoleHolder(db, src, u, id))
  {
    hide MatchFor;
    var t := db.sources[src].tenant;
    var r := FindExisting(db.events, t, src, ReplayKey(u));
    if Indexed(db.events[id], t, src, ReplayKey(u)) {
      EntryIsUnique(db.events, t, src, ReplayKey(u), id);
      OthersDiffer(db, src, u, id);
    } else {
      EntryIsUnique(db.events, t, src, StoreKey(u), id);
    }
  }

  lemma OthersDiffer(db: Db, src: nat, u: Update, id: nat)
    requires src in db.sources && UniqueKeys(db.events) && id < |db.events|
    requires Indexed(db.events[id], db.sources[src].tenant, src, ReplayKey(u))
    ensures SoleHolder(db, src, u, id)
  {
    forall j | 0 <= j < |db.events| && j != id
      ensures !Indexed(db.events[j], db.sources[src].tenant, src, ReplayKey(u))
    {
      assert !SameEntry(db.events[if j < id then j else id], db.events[if j < id then id else j]);
    }
  }

  // The lost race: the plan was to insert, and by the commit another worker's row is there.
  lemma LostRaceIsAnswered(db: Db, src: nat, u: Update, at: Option<int>, lapsed: Option<nat>, id: nat, now: int)
    requires src in db.sources && UniqueKeys(db.events) && u.normalized.Accepted?
    requires id < |db.events| && Indexed(db.events[id], db.sources[src].tenant, src, StoreKey(u))
    ensures Commit(db, src, u, Insert(StoreKey(u), at, lapsed), now, false) == (db, Deduplicated(id))
  {
    EntryIsUnique(db.events, db.sources[src].tenant, src, StoreKey(u), id);
  }

  datatype Call = Call(src: nat, update: Update, now: int, fault: bool)

  predicate Sourced(db: Db, calls: seq<Call>) { forall c :: c in calls ==> c.src in db.sources }

  function IngestAll(db: Db, calls: seq<Call>): (r: (Db, seq<Outcome>))
    requires Sourced(db, calls)
    ensures r.0.sources == db.sources && |r.1| == |calls|
  {
    if calls == [] then (db, [])
    else
      var (mid, outs) := IngestAll(db, calls[..|calls| - 1]);
      var c := calls[|calls| - 1];
      var (after, out) := IngestOnce(mid, c.src, c.update, c.now, c.fault);
      (after, outs + [out])
  }

  // A replay of an update that row id may have been written for.
  predicate IsReplay(db: Db, c: Call, id: nat) {
    Replays(db, c) && RowFor(db, c.src, c.update, id)
  }

  // The answer is that row exactly when no other row holds the look-up key.
  predicate OwnAnswer(db: Db, c: Call, id: nat, out: Outcome)
    requires c.src in db.sources
  {
    out == Deduplicated(id) <==> SoleHolder(db, c.src, c.update, id)
  }

  // Any number of replays of updates that have a row, in any order: no row and no cursor changes, and each is
  // answered with that row exactly when no other row holds its look-up key.
  lemma {:induction false} ReplaysChangeNothing(db: Db, calls: seq<Call>, ids: seq<nat>)
    requires UniqueKeys(db.events) && Sourced(db, calls) && |ids| == |calls|
    requires forall i :: 0 <= i < |calls| ==> IsReplay(db, calls[i], ids[i])
    ensures IngestAll(db, calls).0 == db
    ensures forall i :: 0 <= i < |calls| ==> OwnAnswer(db, calls[i], ids[i], IngestAll(db, calls).1[i])
    decreases |calls|
  {
    hide IngestAll, UniqueKeys, IsReplay, OwnAnswer;
    NoCalls(db);
    if calls != [] {
      var n := |calls| - 1;
      ReplaysChangeNothing(db, calls[..n], ids[..n]);
      assert calls == calls[..n] + [calls[n]];
      OneMoreReplay(db, calls[..n], calls[n], ids[n]);
    }
  }

  lemma OneMoreReplay(db: Db, calls: seq<Call>, c: Call, id: nat)
    requires UniqueKeys(db.events) && Sourced(db, calls) && IsReplay(db, c, id) && IngestAll(db, calls).0 == db
    ensures var (after, outs) := IngestAll(db, calls + [c]);
      && after == db && outs[..|calls|] == IngestAll(db, calls).1 && OwnAnswer(db, c, id, outs[|calls|])
  {
    hide IngestAll, IngestOnce, UniqueKeys, SoleHolder, RowFor, MatchFor, ActivePair;
    Then(db, calls, c);
    ReplayIsAnswered(db, c.src, c.update, id, c.now);
  }

  // An active, faultless call whose text matches no open test request.
  predicate Replays(db: Db, c: Call) {
    c.src in db.sources && !c.fault && ActivePair(db, c.src) && !MatchFor(db, c.src, c.update, c.now).Matched?
  }

  // ---------- runs that mix new updates and replays ----------

  // After the first n calls.
  function AllTo(db: Db, calls: seq<Call>, n: nat): (r: (Db, seq<Outcome>))
    requires n <= |calls| && Sourced(db, calls)
    ensures r.0.sources == db.sources && |r.1| == n
  {
    IngestAll(db, calls[..n])
  }

  lemma OneMore(db: Db, calls: seq<Call>, n: nat)
    requires n < |calls| && Sourced(db, calls)
    ensures var (mid, outs) := AllTo(db, calls, n);
      var (after, out) := IngestOnce(mid, calls[n].src, calls[n].update, calls[n].now, calls[n].fault);
      AllTo(db, calls, n + 1) == (after, outs + [out])
  {
    Then(db, calls[..n], calls[n]);
    assert calls[..n + 1] == calls[..n] + [calls[n]];
  }

  // Rows are only appended, and keys stay unique.
  lemma {:induction false} RunAppends(db: Db, calls: seq<Call>, i: nat, n: nat)
    requires i <= n <= |calls| && Sourced(db, calls) && UniqueKeys(db.events)
    ensures var (mid, outs) := AllTo(db, calls, i);
      var (after, all) := AllTo(db, calls, n);
      mid.events <= after.events && UniqueKeys(mid.events) && UniqueKeys(after.events) && outs <= all
    decreases n
  {
    hide IngestOnce, UniqueKeys;
    if n > 0 {
      RunAppends(db, calls, if i < n then i else n - 1, n - 1);
      var mid := AllTo(db, calls, n - 1).0;
      var c := calls[n - 1];
      OneMore(db, calls, n - 1);
      OnceAppends(mid, c);
    }
  }

  lemma OnceAppends(db: Db, c: Call)
    requires c.src in db.sources && UniqueKeys(db.events)
    ensures var after := IngestOnce(db, c.src, c.update, c.now, c.fault).0;
      after.sources == db.sources && db.events <= after.events && UniqueKeys(after.events)
  {
    hide UniqueKeys, Decide, Commit;
    var p := Decide(db, c.src, c.update, c.now);
    CommitKeepsUniqueKeys(db, c.src, c.update, p, c.now, c.fault);
    RowAndCursorTogether(db, c.src, c.update, p, c.now, c.fault);
  }

  // The row a call stores for its update.
  lemma StoredRow(db: Db, c: Call)
    requires c.src in db.sources
    ensures var (after, out) := IngestOnce(db, c.src, c.update, c.now, c.fault);
      out.Stored? || out.ControlStored? ==>
        && out.id < |after.events| && after.sources == db.sources
        && (after.events[out.id].key.Some? ==> RowFor(after, c.src, c.update, out.id))
        && (after.events[out.id].key.None? ==> ReplayKey(c.update).None?)
  {
    hide MatchFor, FindExisting, ActivePair;
  }

  lemma KeylessIsNotAnswered(db: Db, src: nat, u: Update, id: nat, now: int)
    requires src in db.sources && id < |db.events| && db.events[id].key.None? && !MatchFor(db, src, u, now).Matched?
    ensures IngestOnce(db, src, u, now, false).1 != Deduplicated(id)
  {
  }

  // Over runs that mix any new updates, replays, rejections and failures: call i stored a row for its update.
  // Every later replay of it is answered with that row exactly when the row has a key and no other row
  // has come to hold the update's look-up key; and where the row has a key, the replay changes nothing.
  lemma StoredIsAnsweredIff(db: Db, calls: seq<Call>, i: nat, n: nat)
    requires UniqueKeys(db.events) && Sourced(db, calls) && i < n < |calls|
    requires calls[n].src == calls[i].src && calls[n].update == calls[i].update
    requires Replays(AllTo(db, calls, n).0, calls[n])
    requires var out := AllTo(db, calls, i + 1).1[i]; out.Stored? || out.ControlStored?
    ensures var id := AllTo(db, calls, i + 1).1[i].id;
      var (mid, outs) := AllTo(db, calls, n);
      var (after, all) := AllTo(db, calls, n + 1);
      && id < |mid.events|
      && (all[n] == Deduplicated(id)
          <==> mid.events[id].key.Some? && SoleHolder(mid, calls[n].src, calls[n].update, id))
      && (mid.events[id].key.Some? ==> after == mid && all[n].Deduplicated?)
  {
    hide IngestOnce, UniqueKeys, SoleHolder, MatchFor, ActivePair, AllTo;
    var src, u := calls[n].src, calls[n].update;
    RunAppends(db, calls, i, n);
    RunAppends(db, calls, i + 1, n);
    OneMore(db, calls, i);
    OneMore(db, calls, n);
    StoredRow(AllTo(db, calls, i).0, calls[i]);
    var id := AllTo(db, calls, i + 1).1[i].id;
    var mid := AllTo(db, calls, n).0;
    assert mid.events[id] == AllTo(db, calls, i + 1).0.events[id];
    if mid.events[id].key.Some? {
      ReplayIsAnswered(mid, src, u, id, calls[n].now);
    } else {
      KeylessIsNotAnswered(mid, src, u, id, calls[n].now);
    }
  }

  // A provider that repeats the update id keeps every answer its own.
  lemma SameKeyIsSoleHolder(db: Db, src: nat, u: Update, id: nat)
    requires src in db.sources && UniqueKeys(db.events) && RowFor(db, src, u, id)
    requires u.normalized.Accepted? ==> StoreKey(u) == ReplayKey(u)
    ensures SoleHolder(db, src, u, id)
  {
    OthersDiffer(db, src, u, id);
  }

  // ---------- update ids and provider ids share one name space ----------

  const EXAMPLE := Db(map[0 := Connection(0, true, Active, false, None)],
      map[0 := Source(0, 0, "ref", true, Active, false)], [], [])

  function Numbered(updateId: string, externalId: string): Update {
    Update(Some(updateId), None, None, "ref", None, Accepted(externalId, None))
  }

  // The row that the update leaves when nothing is in its way.
  lemma StoresUpdate(db: Db, u: Update)
    requires db.sources == EXAMPLE.sources && 0 in db.connections
        && db.connections[0].(cursor := None) == EXAMPLE.connections[0]
    requires u.text.None? && u.normalized.Accepted?
    requires FindExisting(db.events, 0, 0, ReplayKey(u)).None? && FindExisting(db.events, 0, 0, StoreKey(u)).None?
    ensures var (after, out) := IngestOnce(db, 0, u, 0, false);
      && out == Stored(|db.events|) && after.sources == db.sources
      && after.events == db.events + [NewEvent(0, 0, StoreKey(u), Normalized, u.normalized.occurredAt, 0)]
      && 0 in after.connections && after.connections[0].(cursor := None) == EXAMPLE.connections[0]
  {
    hide FindExisting;
  }

  // Update "1" is stored as row 0 under its provider id; update "2" has the provider id "1".  Replaying
  // update "1" is then answered with row 1.
  lemma ReplayAnsweredWithAnotherRow()
    ensures var one, two := Call(0, Numbered("1", "E"), 0, false), Call(0, Numbered("2", "1"), 0, false);
      IngestAll(EXAMPLE, [one, two, one]).1 == [Stored(0), Stored(1), Deduplicated(1)]
  {
    var u, v := Numbered("1", "E"), Numbered("2", "1");
    var one, two := Call(0, u, 0, false), Call(0, v, 0, false);
    hide IngestOnce, Numbered, FindExisting;
    NumberedKeys("1", "E");
    NumberedKeys("2", "1");
    StoresUpdate(EXAMPLE, u);
    var first := IngestOnce(EXAMPLE, 0, u, 0, false).0;
    StoresUpdate(first, v);
    var second := IngestOnce(first, 0, v, 0, false).0;
    assert Indexed(second.events[1], 0, 0, ReplayKey(u));
    assert UniqueKeys(second.events);
    ReplayIsAnswered(second, 0, u, 1, 0);
    OthersDiffer(second, 0, u, 1);
    ThreeCalls(EXAMPLE, one, two, one);
  }

  // In the other order update "1" is answered with the row of update "2" and never stored.
  lemma UpdateSwallowed()
    ensures var one, two := Call(0, Numbered("1", "E"), 0, false), Call(0, Numbered("2", "1"), 0, false);
      var (after, outs) := IngestAll(EXAMPLE, [two, one]);
      outs == [Stored(0), Deduplicated(0)] && |after.events| == 1
  {
    var u, v := Numbered("1", "E"), Numbered("2", "1");
    var one, two := Call(0, u, 0, false), Call(0, v, 0, false);
    hide IngestOnce, Numbered, FindExisting;
    NumberedKeys("1", "E");
    NumberedKeys("2", "1");
    StoresUpdate(EXAMPLE, v);
    var first := IngestOnce(EXAMPLE, 0, v, 0, false).0;
    assert Indexed(first.events[0], 0, 0, ReplayKey(u));
    ReplayIsAnswered(first, 0, u, 0, 0);
    OthersDiffer(first, 0, u, 0);
    TwoCalls(EXAMPLE, two, one);
  }

  lemma NumberedKeys(updateId: string, externalId: string)
    requires externalId != ""
    ensures var u := Numbered(updateId, externalId);
      && u.text.None? && u.normalized.Accepted?
      && ReplayKey(u) == Some(Sha256(updateId)) && StoreKey(u) == Some(Sha256(externalId))
  {
  }

  lemma NoCalls(db: Db)
    ensures Sourced(db, []) && IngestAll(db, []) == (db, [])
  {
  }

  lemma TwoCalls(db: Db, a: Call, b: Call)
    requires a.src in db.sources && b.src in db.sources
    ensures var (mid, out) := IngestOnce(db, a.src, a.update, a.now, a.fault);
      var (after, out2) := IngestOnce(mid, b.src, b.update, b.now, b.fault);
      IngestAll(db, [a, b]) == (after, [out, out2])
  {
    hide IngestAll, IngestOnce;
    NoCalls(db);
    Then(db, [], a);
    Then(db, [a], b);
    assert [] + [a] == [a] && [a] + [b] == [a, b];
    var (mid, out) := IngestOnce(db, a.src, a.update, a.now, a.fault);
    assert IngestAll(db, [a]).0 == mid && IngestAll(db, [a]).1 == [out];
    var (after, out2) := IngestOnce(mid, b.src, b.update, b.now, b.fault);
    assert IngestAll(db, [a, b]).1 == [out, out2];
    assert IngestAll(db, [a, b]).0 == after;
  }

  lemma Then(db: Db, calls: seq<Call>, c: Call)
    requires Sourced(db, calls) && c.src in db.sources
    ensures var (mid, outs) := IngestAll(db, calls);
      var (after, out) := IngestOnce(mid, c.src, c.update, c.now, c.fault);
      IngestAll(db, calls + [c]) == (after, outs + [out])
  {
    hide IngestOnce;
    assert (calls + [c])[..|calls|] == calls;
  }

  lemma ThreeCalls(db: Db, a: Call, b: Call, c: Call)
    requires a.src in db.sources && b.src in db.sources && c.src in db.sources
    ensures var (two, outs) := IngestAll(db, [a, b]);
      IngestAll(db, [a, b, c]).1 == outs + [IngestOnce(two, c.src, c.update, c.now, c.fault).1]
    ensures var mid := IngestOnce(db, a.src, a.update, a.now, a.fault);
      var last := IngestOnce(mid.0, b.src, b.update, b.now, b.fault);
      IngestAll(db, [a, b]) == (last.0, [mid.1, last.1])
  {
    hide IngestAll, IngestOnce;
    TwoCalls(db, a, b);
    Then(db, [a, b], c);
    assert [a, b] + [c] == [a, b, c];
  }

  // A rejected update is outside the index: every replay appends a row and rewrites the cursor.
  lemma RejectionIsRepeated(db: Db, src: nat, u: Update, now: int, later: int)
    requires src in db.sources && IngestOnce(db, src, u, now, false).1.RejectionStored?
    requires !MatchFor(IngestOnce(db, src, u, now, false).0, src, u, later).Matched?
    ensures var once := IngestOnce(db, src, u, now, false).0;
      var (twice, out) := IngestOnce(once, src, u, later, false);
      && out == RejectionStored(|once.events|)
      && |twice.events| == |db.events| + 2
      && (CursorValue(u).Some? ==> twice.connections[db.sources[src].connection].cursor == CursorValue(u))
  {
    FindAfterAppend(db.events, RowOf(db, src, u, Decide(db, src, u, now), now), db.sources[src].tenant, src,
        ReplayKey(u));
    assert ActivePair(IngestOnce(db, src, u, now, false).0, src);
  }
}
