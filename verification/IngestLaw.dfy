/** What one ingestion does, case by case (app/collection/ingest.py): which answer, which row, which requests. */
module IngestLaw {
  import opened Wrappers
  import opened Tables
  import opened Hashing
  import opened Ingest
  import opened Confirmation

  // The provider's update id is v: the update's own, or the other one when it has none.
  predicate IsId(u: Update, v: string) {
    u.updateId == Some(v) || (u.updateId == None && u.otherId == Some(v))
  }

  // e stands in the index under the name v.
  predicate Under(e: Event, tenant: nat, source: nat, v: string) {
    e.tenant == tenant && e.source == source && e.key == Some(Sha256(v)) && e.state != Rejected
  }

  ghost predicate Taken(db: Db, src: nat, v: string)
    requires src in db.sources
  {
    exists j :: 0 <= j < |db.events| && Under(db.events[j], db.sources[src].tenant, src, v)
  }

  // A row stands under the update's own id.
  ghost predicate Seen(db: Db, src: nat, u: Update)
    requires src in db.sources
  {
    exists v :: IsId(u, v) && Taken(db, src, v)
  }

  // A normalized event is named by the provider's id of it, or else by the update's.
  predicate IsName(u: Update, v: string) {
    u.normalized.Accepted? && if u.normalized.externalId == "" then IsId(u, v) else v == u.normalized.externalId
  }

  ghost predicate Clashes(db: Db, src: nat, u: Update)
    requires src in db.sources
  {
    u.normalized.Accepted? && exists v :: IsName(u, v) && Taken(db, src, v)
  }

  predicate Confirmable(db: Db, src: nat, u: Update, r: Request, now: int)
    requires src in db.sources
  {
    Carries(u, r) && OfSource(r, db.sources[src], src) && Open_(r, now)
  }

  ghost predicate SomeConfirmable(db: Db, src: nat, u: Update, now: int)
    requires src in db.sources
  {
    exists i :: 0 <= i < |db.requests| && Confirmable(db, src, u, db.requests[i], now)
  }

  // A faultless ingestion gets to the update itself: an active source, no row, and no request to confirm.
  ghost predicate Reads(db: Db, src: nat, u: Update, now: int)
    requires src in db.sources
  {
    Active_(db, src) && !Seen(db, src, u) && !SomeConfirmable(db, src, u, now)
  }

  lemma SeenIs(db: Db, src: nat, u: Update)
    requires src in db.sources
    ensures Seen(db, src, u) <==> FindExisting(db.events, db.sources[src].tenant, src, ReplayKey(u)).Some?
  {
    var r := FindExisting(db.events, db.sources[src].tenant, src, ReplayKey(u));
    if r.Some? {
      var v := CursorValue(u).value;
      assert IsId(u, v) && Under(db.events[r.value], db.sources[src].tenant, src, v);
    }
    if Seen(db, src, u) {
      var v :| IsId(u, v) && Taken(db, src, v);
      var j :| 0 <= j < |db.events| && Under(db.events[j], db.sources[src].tenant, src, v);
      assert Indexed(db.events[j], db.sources[src].tenant, src, ReplayKey(u));
    }
  }

  lemma ClashesIs(db: Db, src: nat, u: Update)
    requires src in db.sources
    ensures Clashes(db, src, u) <==>
      u.normalized.Accepted? && FindExisting(db.events, db.sources[src].tenant, src, StoreKey(u)).Some?
  {
    if !u.normalized.Accepted? { return; }
    var r := FindExisting(db.events, db.sources[src].tenant, src, StoreKey(u));
    if r.Some? {
      var v := if u.normalized.externalId != "" then u.normalized.externalId else CursorValue(u).value;
      assert IsName(u, v) && Under(db.events[r.value], db.sources[src].tenant, src, v);
    }
    if Clashes(db, src, u) {
      var v :| IsName(u, v) && Taken(db, src, v);
      var j :| 0 <= j < |db.events| && Under(db.events[j], db.sources[src].tenant, src, v);
      assert Indexed(db.events[j], db.sources[src].tenant, src, StoreKey(u));
    }
  }

  lemma ConfirmableIs(db: Db, src: nat, u: Update, now: int)
    requires src in db.sources && UniqueNonces(db.requests)
    ensures SomeConfirmable(db, src, u, now) <==> MatchFor(db, src, u, now).Matched?
  {
    hide MatchFor, Carries, OfSource, Open_;
    var m := MatchFor(db, src, u, now);
    if m.Matched? { MatchIff(db, src, u, now, m.request); }
    if i :| 0 <= i < |db.requests| && Confirmable(db, src, u, db.requests[i], now) {
      MatchIff(db, src, u, now, i);
    }
  }

  // ---------- the answer ----------

  // Which answer a faultless ingestion gives, case by case.
  lemma AnswerIff(db: Db, src: nat, u: Update, now: int)
    requires src in db.sources && UniqueNonces(db.requests)
    ensures var out := IngestOnce(db, src, u, now, false).1;
      && out != InfrastructureError
      && (out == NotAllowed <==> !Active_(db, src))
      && (out.Deduplicated? <==>
            && Active_(db, src)
            && (Seen(db, src, u) || (Reads(db, src, u, now) && Clashes(db, src, u))))
      && (out.ControlStored? <==> Active_(db, src) && !Seen(db, src, u) && SomeConfirmable(db, src, u, now))
      && (out == Raised <==> Reads(db, src, u, now) && u.normalized.Raises?)
      && (out.RejectionStored? <==> Reads(db, src, u, now) && u.normalized.Invalid?)
      && (out.Stored? <==> Reads(db, src, u, now) && u.normalized.Accepted? && !Clashes(db, src, u))
  {
    hide FindExisting, MatchFor, Seen, Clashes, SomeConfirmable, StoreKey, ReplayKey;
    SeenIs(db, src, u);
    ConfirmableIs(db, src, u, now);
    ClashesIs(db, src, u);
  }

  // The call needs the database for more than reading.
  ghost predicate Writes(db: Db, src: nat, u: Update, now: int)
    requires src in db.sources
  {
    && Active_(db, src) && !Seen(db, src, u)
    && (SomeConfirmable(db, src, u, now) || !u.normalized.Raises?)
  }

  // Which answer an ingestion gives that meets a failure in its transaction.
  lemma FailureIff(db: Db, src: nat, u: Update, now: int)
    requires src in db.sources && UniqueNonces(db.requests)
    ensures var out := IngestOnce(db, src, u, now, true).1;
      && (out == NotAllowed <==> !Active_(db, src))
      && (out.Deduplicated? <==> Active_(db, src) && Seen(db, src, u))
      && (out == Raised <==> Reads(db, src, u, now) && u.normalized.Raises?)
      && (out == InfrastructureError <==> Writes(db, src, u, now))
  {
    hide FindExisting, MatchFor, Seen, SomeConfirmable, StoreKey, ReplayKey;
    SeenIs(db, src, u);
    ConfirmableIs(db, src, u, now);
  }

  // ---------- the row ----------

  // The key of the update's own id; without an id there is no key.
  ghost predicate KeyedById(e: Event, u: Update) {
    (forall v :: IsId(u, v) ==> e.key == Some(Sha256(v))) && (e.key.Some? ==> exists v :: IsId(u, v))
  }

  ghost predicate KeyedByName(e: Event, u: Update) {
    (forall v :: IsName(u, v) ==> e.key == Some(Sha256(v))) && (e.key.Some? ==> exists v :: IsName(u, v))
  }

  lemma KeysAre(e: Event, u: Update)
    ensures e.key == ReplayKey(u) ==> KeyedById(e, u)
    ensures u.normalized.Accepted? && e.key == StoreKey(u) ==> KeyedByName(e, u)
  {
    if CursorValue(u).Some? { assert IsId(u, CursorValue(u).value); }
    if u.normalized.Accepted? && e.key == StoreKey(u) && e.key.Some? {
      assert IsName(u, if u.normalized.externalId != "" then u.normalized.externalId else CursorValue(u).value);
    }
  }

  // The row that an ingestion appends: of the source and its tenant, named, fresh, due at once, not yet analysed.
  lemma RowIs(db: Db, src: nat, u: Update, now: int)
    requires src in db.sources && Handshake.Wrote(IngestOnce(db, src, u, now, false).1)
    ensures var (after, out) := IngestOnce(db, src, u, now, false);
      && |after.events| == |db.events| + 1
      && var e := after.events[|db.events|];
      && e.tenant == db.sources[src].tenant && e.source == src && e.createdAt == now
      && e.attempts == 0 && e.nextAttempt == None && e.lockedBy == None && e.lockedAt == None
      && e.analysis == None && e.finding == None && e.caseId == None && !e.purged
      && (out.Stored? ==>
            && u.normalized.Accepted? && e.state == Normalized && !e.isControl
            && e.occurredAt == u.normalized.occurredAt && KeyedByName(e, u))
      && (out.ControlStored? ==> e.state == Control && e.isControl && e.occurredAt == u.date && KeyedById(e, u))
      && (out.RejectionStored? ==>
            e.state == Rejected && !e.isControl && e.occurredAt == None && KeyedById(e, u))
  {
    hide FindExisting, MatchFor, KeyedById, KeyedByName, StoreKey, ReplayKey, ActivePair, Expire, Advance;
    KeysAre(IngestOnce(db, src, u, now, false).0.events[|db.events|], u);
  }

  // ---------- the requests ----------

  // Request i lapses: it would have been confirmed, had it not expired.
  predicate Lapses(db: Db, src: nat, u: Update, r: Request, now: int)
    requires src in db.sources
  {
    && Carries(u, r) && OfSource(r, db.sources[src], src)
    && r.status == Awaiting && r.expiresAt.Some? && r.expiresAt.value < now
  }

  lemma LapsedIff(db: Db, src: nat, u: Update, now: int, i: nat)
    requires src in db.sources && UniqueNonces(db.requests) && i < |db.requests|
    ensures MatchFor(db, src, u, now) == Lapsed(i) <==> Lapses(db, src, u, db.requests[i], now)
  {
    hide Verify.ParseVerifyNonce, FindAwaiting;
    var s, r := db.sources[src], db.requests[i];
    if Lapses(db, src, u, r, now) {
      FoundIs(db.requests, s.tenant, s.connection, r.nonce, i);
    }
  }

  // Every request after a faultless ingestion: verified, expired, or as it was.
  lemma RequestsAre(db: Db, src: nat, u: Update, now: int, i: nat)
    requires src in db.sources && UniqueNonces(db.requests) && i < |db.requests|
    ensures var (after, out) := IngestOnce(db, src, u, now, false);
      && |after.requests| == |db.requests|
      && after.requests[i] ==
           if out.ControlStored? && Confirmable(db, src, u, db.requests[i], now) then
             db.requests[i].(status := Verified, verifiedAt := Some(now))
           else if (out.Stored? || out.RejectionStored?) && Lapses(db, src, u, db.requests[i], now) then
             db.requests[i].(status := Expired)
           else
             db.requests[i]
  {
    hide MatchFor, FindExisting, Carries, OfSource, Open_, Lapses, StoreKey, ReplayKey, ActivePair, Advance, NewEvent;
    LapsedIff(db, src, u, now, i);
    MatchIff(db, src, u, now, i);
  }

  // ---------- the cursor, and failures ----------

  // The cursor of the source's connection stands on the update's id after a row was written; nothing else of the
  // connections changes, and a call that writes no row, or meets a failure, changes nothing at all.
  lemma CursorIs(db: Db, src: nat, u: Update, now: int, fault: bool, c: nat)
    requires src in db.sources
    ensures var (after, out) := IngestOnce(db, src, u, now, fault);
      && after.connections.Keys == db.connections.Keys && after.sources == db.sources
      && (fault || !Handshake.Wrote(out) ==> after == db)
      && (c in db.connections ==>
            && (forall v :: Handshake.Wrote(out) && c == db.sources[src].connection && IsId(u, v) ==>
                  after.connections[c] == db.connections[c].(cursor := Some(v)))
            && (c != db.sources[src].connection || (u.updateId == None && u.otherId == None) ==>
                  after.connections[c] == db.connections[c]))
  {
    hide MatchFor, FindExisting, NewEvent, Expire, StoreKey;
  }
}
