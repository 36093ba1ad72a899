/** Exactly which imports the unique index refuses: sessions that do not autoflush may queue one key twice. */
module Aborts {
  import opened Wrappers
  import opened Hashing
  import opened Redaction
  import opened Dossier
  import opened DossierRuns
  import opened Imports
  import P = Parsers
  import T = Text

  // Storing the record flushes the session: a credential with an email address does.
  predicate Flushes(r: Record) {
    r.Rec? && r.kind == CredentialExposure && '@' in EmailOf(Redacted(r.items))
  }

  predicate HasKey(r: Record, tenant: nat, key: Digest) { r.Rec? && Key(tenant, r) == key }

  ghost predicate Occurs(tenant: nat, recs: seq<Record>, n: nat, key: Digest)
    requires n <= |recs|
  {
    exists i :: 0 <= i < n && HasKey(recs[i], tenant, key)
  }

  // Among the first n records, one flushes with the key before it or at it.
  ghost predicate FlushedWith(tenant: nat, recs: seq<Record>, n: nat, key: Digest)
    requires n <= |recs|
  {
    exists k :: 0 <= k < n && Flushes(recs[k]) && Occurs(tenant, recs, k + 1, key)
  }

  // After n records a query finds the key.
  ghost predicate Seen(db: Db, tenant: nat, recs: seq<Record>, n: nat, key: Digest)
    requires n <= |recs|
  {
    Has(db.findings, tenant, key) || FlushedWith(tenant, recs, n, key)
  }

  // Record n repeats a key that is new to the database, and nothing flushed in between.
  ghost predicate Repeats(db: Db, tenant: nat, recs: seq<Record>, n: nat)
    requires n < |recs|
  {
    && recs[n].Rec?
    && var key := Key(tenant, recs[n]);
    Occurs(tenant, recs, n, key) && !Seen(db, tenant, recs, n, key)
  }

  lemma OccursNext(tenant: nat, recs: seq<Record>, n: nat, key: Digest)
    requires n < |recs|
    ensures Occurs(tenant, recs, n + 1, key) <==> Occurs(tenant, recs, n, key) || HasKey(recs[n], tenant, key)
  {
    hide HasKey;
    if HasKey(recs[n], tenant, key) {
      assert Occurs(tenant, recs, n + 1, key);
    }
  }

  lemma SeenNext(db: Db, tenant: nat, recs: seq<Record>, n: nat, key: Digest)
    requires n < |recs|
    ensures Seen(db, tenant, recs, n + 1, key)
       <==> Seen(db, tenant, recs, n, key) || (Flushes(recs[n]) && Occurs(tenant, recs, n + 1, key))
  {
    hide Flushes, Occurs, Has;
  }

  // ---------- a single intake ----------

  // A finding taken in by itself is never refused for its key: it is created exactly when none of its key is stored,
  // with nothing else changed among the findings.
  lemma IntakeIs(db: Db, tenant: nat, r: Record, ever: seq<Finding>)
    requires DbFits(db, ever)
    ensures var (after, created) := Intake(db, tenant, r);
      && (created.None? <==> r.Bad?) && after.batches == db.batches
      && (r.Bad? ==> after == db)
      && (r.Rec? ==>
            && (created.value <==> !Has(db.findings, tenant, Key(tenant, r)))
            && after.findings == db.findings +
                 if created.value then
                   [Finding(db.nextId, tenant, r.kind, Key(tenant, r), EmailOf(Redacted(r.items)),
                            HashOf(Redacted(r.items)), None)]
                 else [])
  {
    hide DedupKey, EmailOf, HashOf, Redacted, Touch, UniqueFindings, DossiersFit, WellKeyed;
    if r.Rec? {
      var d := Redacted(r.items);
      if Has(db.findings, tenant, Key(tenant, r)) {
        PersistKnown(Open(db), tenant, r.kind, d, None, ever);
        FlushOfNothing(Open(db));
      } else {
        var f := NewFinding(db.nextId, tenant, r.kind, d, None);
        UniqueMore(db.findings, f);
        assert db.findings + ([] + [f]) == db.findings + [f];
        assert (db.findings + [f]) + [] == db.findings + [f];
      }
    }
  }

  // ---------- the session while nothing repeats ----------

  ghost predicate Plain(fs: seq<Finding>) { forall f :: f in fs ==> WellKeyed(f) && '|' !in f.hash }

  ghost predicate PlainRecord(r: Record) { r.Rec? ==> '|' !in HashOf(Redacted(r.items)) }

  ghost predicate Tracks(db: Db, tenant: nat, recs: seq<Record>, n: nat, s: Session)
    requires n <= |recs|
  {
    && UniqueFindings(All(s)) && Plain(All(s))
    && (forall key :: Has(s.flushed, tenant, key) <==> Seen(db, tenant, recs, n, key))
    && (forall key :: Has(s.pending, tenant, key) <==> !Seen(db, tenant, recs, n, key) && Occurs(tenant, recs, n, key))
  }

  // Persisting under an index that allows it: the new finding waits, unless the record flushes.
  lemma PersistResult(s: Session, tenant: nat, r: Record, ingest: Option<nat>)
    requires r.Rec? && Plain(All(s)) && PlainRecord(r)
    ensures var p := Persist(s, tenant, r.kind, Redacted(r.items), ingest);
      var created := if Has(s.flushed, tenant, Key(tenant, r)) then []
                     else [NewFinding(s.nextId, tenant, r.kind, Redacted(r.items), ingest)];
      var all := All(s) + created;
      && (p.Some? <==> !Flushes(r) || UniqueFindings(all))
      && (p.Some? ==>
            && All(p.value.0) == all
            && (if Flushes(r) then p.value.0.flushed == all && p.value.0.pending == []
                else p.value.0.flushed == s.flushed))
  {
    hide DedupKey, EmailOf, HashOf, Redacted, Touch, WellKeyed, UniqueFindings;
    var d := Redacted(r.items);
    var i := Find(s.flushed, tenant, Key(tenant, r), |s.flushed|);
    if i.Some? {
      var f := s.flushed[i.value];
      assert f in All(s);
      KeyTellsKind(f, r.kind, d);
      if r.kind == CredentialExposure { CredentialKeyInjective(f.email, f.hash, EmailOf(d), HashOf(d)); }
      assert All(s) + [] == All(s);
    } else {
      var f := NewFinding(s.nextId, tenant, r.kind, d, ingest);
      assert s.flushed + (s.pending + [f]) == All(s) + [f];
    }
  }

  lemma UniqueMore(fs: seq<Finding>, f: Finding)
    requires UniqueFindings(fs)
    ensures UniqueFindings(fs + [f]) <==> !Has(fs, f.tenant, f.key)
  {
    if Has(fs, f.tenant, f.key) {
      var i :| 0 <= i < |fs| && fs[i].tenant == f.tenant && fs[i].key == f.key;
      assert SameKey((fs + [f])[i], (fs + [f])[|fs|]);
    }
  }

  lemma UniquePrefix(fs: seq<Finding>, gs: seq<Finding>)
    requires fs <= gs && UniqueFindings(gs)
    ensures UniqueFindings(fs)
  {
  }

  // Whether a query would find the key or it waits to be flushed.
  lemma HasAll(db: Db, tenant: nat, recs: seq<Record>, n: nat, s: Session, key: Digest)
    requires n <= |recs| && Tracks(db, tenant, recs, n, s)
    ensures Has(All(s), tenant, key) <==> Seen(db, tenant, recs, n, key) || Occurs(tenant, recs, n, key)
  {
    hide Has, Seen, Occurs, Plain, UniqueFindings;
    HasMore(s.flushed, s.pending, tenant, key);
  }

  lemma PlainMore(fs: seq<Finding>, id: nat, tenant: nat, r: Record, ingest: Option<nat>)
    requires r.Rec? && Plain(fs) && PlainRecord(r)
    ensures Plain(fs + [NewFinding(id, tenant, r.kind, Redacted(r.items), ingest)])
  {
    hide WellKeyed, DedupKey, EmailOf, HashOf, Redacted;
    NewIsWellKeyed(id, tenant, r.kind, Redacted(r.items), ingest);
  }

  // How the session's findings change when the record's finding is f.
  ghost predicate Moves(s: Session, t: Session, found: bool, f: Finding, flushes: bool) {
    var all := if found then All(s) else All(s) + [f];
    && All(t) == all
    && (if flushes then t.flushed == all && t.pending == [] else t.flushed == s.flushed)
  }

  lemma PersistMoves(db: Db, tenant: nat, recs: seq<Record>, n: nat, s: Session, ingest: Option<nat>)
    requires n < |recs| && recs[n].Rec? && PlainRecord(recs[n])
    requires Tracks(db, tenant, recs, n, s) && !Repeats(db, tenant, recs, n)
    ensures var r := recs[n];
      var p := Persist(s, tenant, r.kind, Redacted(r.items), ingest);
      var f := NewFinding(s.nextId, tenant, r.kind, Redacted(r.items), ingest);
      && p.Some? && UniqueFindings(All(p.value.0)) && Plain(All(p.value.0))
      && f.tenant == tenant && f.key == Key(tenant, r)
      && Moves(s, p.value.0, Seen(db, tenant, recs, n, f.key), f, Flushes(r))
  {
    var r := recs[n];
    hide Persist, Has, Seen, Occurs, Plain, UniqueFindings, PlainRecord, Flushes, Redacted, DedupKey, EmailOf, HashOf;
    PersistResult(s, tenant, r, ingest);
    HasAll(db, tenant, recs, n, s, Key(tenant, r));
    UniqueMore(All(s), NewFinding(s.nextId, tenant, r.kind, Redacted(r.items), ingest));
    PlainMore(All(s), s.nextId, tenant, r, ingest);
    assert All(s) + [] == All(s);
  }

  // A record that repeats nothing is stored, and the session goes on as described.
  lemma PersistTracks(db: Db, tenant: nat, recs: seq<Record>, n: nat, s: Session, ingest: Option<nat>)
    requires n < |recs| && recs[n].Rec? && PlainRecord(recs[n])
    requires Tracks(db, tenant, recs, n, s) && !Repeats(db, tenant, recs, n)
    ensures var p := Persist(s, tenant, recs[n].kind, Redacted(recs[n].items), ingest);
      p.Some? && Tracks(db, tenant, recs, n + 1, p.value.0)
  {
    hide Persist, Has, Seen, Occurs, Plain, UniqueFindings, PlainRecord, Flushes, Redacted, NewFinding, Repeats, Key,
        Moves, All;
    PersistMoves(db, tenant, recs, n, s, ingest);
    var f := NewFinding(s.nextId, tenant, recs[n].kind, Redacted(recs[n].items), ingest);
    var t := Persist(s, tenant, recs[n].kind, Redacted(recs[n].items), ingest).value.0;
    forall k
      ensures Has(t.flushed, tenant, k) <==> Seen(db, tenant, recs, n + 1, k)
      ensures Has(t.pending, tenant, k) <==> !Seen(db, tenant, recs, n + 1, k) && Occurs(tenant, recs, n + 1, k)
    {
      PersistTracksKey(db, tenant, recs, n, s, t, f, k);
    }
  }

  lemma HasOne(f: Finding, tenant: nat, key: Digest)
    ensures Has([f], tenant, key) <==> f.tenant == tenant && f.key == key
    ensures !Has([], tenant, key)
  {
    if f.tenant == tenant && f.key == key { assert [f][0] == f; }
  }

  lemma PersistTracksKey(db: Db, tenant: nat, recs: seq<Record>, n: nat, s: Session, t: Session, f: Finding, k: Digest)
    requires n < |recs| && recs[n].Rec? && Tracks(db, tenant, recs, n, s)
    requires f.tenant == tenant && f.key == Key(tenant, recs[n])
    requires Moves(s, t, Seen(db, tenant, recs, n, f.key), f, Flushes(recs[n]))
    ensures Has(t.flushed, tenant, k) <==> Seen(db, tenant, recs, n + 1, k)
    ensures Has(t.pending, tenant, k) <==> !Seen(db, tenant, recs, n + 1, k) && Occurs(tenant, recs, n + 1, k)
  {
    hide Has, Seen, Occurs, Plain, UniqueFindings, Flushes, Redacted, DedupKey;
    OccursNext(tenant, recs, n, k);
    SeenNext(db, tenant, recs, n, k);
    HasAll(db, tenant, recs, n, s, k);
    HasMore(All(s), [f], tenant, k);
    HasMore(s.pending, [f], tenant, k);
    HasOne(f, tenant, k);
    if !Flushes(recs[n]) {
      assert t.pending == All(t)[|s.flushed|..];
      assert s.pending == All(s)[|s.flushed|..];
      assert !Seen(db, tenant, recs, n, f.key) ==> t.pending == s.pending + [f];
    }
  }

  lemma {:induction false} ImportTracks(db: Db, tenant: nat, recs: seq<Record>, n: nat)
    requires n <= |recs| && UniqueFindings(db.findings) && Plain(db.findings)
    requires forall j :: 0 <= j < |recs| ==> PlainRecord(recs[j])
    requires forall j :: 0 <= j < n ==> !Repeats(db, tenant, recs, j)
    ensures ImportTo(db, tenant, recs, n).Some? && Tracks(db, tenant, recs, n, ImportTo(db, tenant, recs, n).value.0)
    decreases n
  {
    hide Persist, Seen, Plain, UniqueFindings, PlainRecord, Repeats, Tracks, Redacted;
    if n == 0 {
      OpenTracks(db, tenant, recs);
    } else {
      ImportTracks(db, tenant, recs, n - 1);
      var s := ImportTo(db, tenant, recs, n - 1).value.0;
      if recs[n - 1].Rec? {
        PersistTracks(db, tenant, recs, n - 1, s, Some(|db.batches|));
      } else {
        BadTracks(db, tenant, recs, n - 1, s);
      }
    }
  }

  lemma OpenTracks(db: Db, tenant: nat, recs: seq<Record>)
    requires UniqueFindings(db.findings) && Plain(db.findings)
    ensures Tracks(db, tenant, recs, 0, Open(db))
  {
    hide Has, UniqueFindings, Plain, HasKey, Flushes;
    assert All(Open(db)) == db.findings;
    forall key
      ensures !Has([], tenant, key)
    {
      HasNone(tenant, key);
    }
  }

  lemma HasNone(tenant: nat, key: Digest)
    ensures !Has([], tenant, key)
  {
  }

  lemma BadTracks(db: Db, tenant: nat, recs: seq<Record>, n: nat, s: Session)
    requires n < |recs| && recs[n].Bad? && Tracks(db, tenant, recs, n, s)
    ensures Tracks(db, tenant, recs, n + 1, s)
  {
    hide Has, UniqueFindings, Plain, Seen, Occurs;
    forall key
      ensures Seen(db, tenant, recs, n + 1, key) == Seen(db, tenant, recs, n, key)
      ensures Occurs(tenant, recs, n + 1, key) == Occurs(tenant, recs, n, key)
    {
      OccursNext(tenant, recs, n, key);
      SeenNext(db, tenant, recs, n, key);
    }
  }

  // ---------- once something repeats ----------

  // Refused already, or bound to be at the next flush.
  ghost predicate Doomed(db: Db, tenant: nat, recs: seq<Record>, n: nat)
    requires n <= |recs|
  {
    var p := ImportTo(db, tenant, recs, n);
    p.None? || !UniqueFindings(All(p.value.0))
  }

  lemma PersistGrows(s: Session, tenant: nat, kind: ExposureKind, d: Detail, ingest: Option<nat>)
    requires Persist(s, tenant, kind, d, ingest).Some?
    ensures All(s) <= All(Persist(s, tenant, kind, d, ingest).value.0)
  {
    hide DedupKey, EmailOf, HashOf, Touch, UniqueFindings, Find;
  }

  lemma {:induction false} DoomedStays(db: Db, tenant: nat, recs: seq<Record>, n: nat, m: nat)
    requires n <= m <= |recs| && Doomed(db, tenant, recs, n)
    ensures Doomed(db, tenant, recs, m)
    decreases m
  {
    hide Persist, UniqueFindings, Redacted;
    if m > n {
      DoomedStays(db, tenant, recs, n, m - 1);
      var p, r := ImportTo(db, tenant, recs, m - 1), recs[m - 1];
      if ImportTo(db, tenant, recs, m).Some? && r.Rec? {
        PersistGrows(p.value.0, tenant, r.kind, Redacted(r.items), Some(|db.batches|));
        if UniqueFindings(All(ImportTo(db, tenant, recs, m).value.0)) {
          UniquePrefix(All(p.value.0), All(ImportTo(db, tenant, recs, m).value.0));
        }
      }
    }
  }

  lemma RepeatDooms(db: Db, tenant: nat, recs: seq<Record>, n: nat)
    requires n < |recs| && UniqueFindings(db.findings) && Plain(db.findings)
    requires forall j :: 0 <= j < |recs| ==> PlainRecord(recs[j])
    requires (forall j :: 0 <= j < n ==> !Repeats(db, tenant, recs, j)) && Repeats(db, tenant, recs, n)
    ensures Doomed(db, tenant, recs, n + 1)
  {
    hide Persist, Seen, Occurs, Plain, UniqueFindings, PlainRecord, Redacted, DedupKey, EmailOf, HashOf, Has;
    ImportTracks(db, tenant, recs, n);
    var s, r := ImportTo(db, tenant, recs, n).value.0, recs[n];
    PersistResult(s, tenant, r, Some(|db.batches|));
    HasAll(db, tenant, recs, n, s, Key(tenant, r));
    UniqueMore(All(s), NewFinding(s.nextId, tenant, r.kind, Redacted(r.items), Some(|db.batches|)));
  }

  lemma RefusedIffNotUnique(db: Db, tenant: nat, recs: seq<Record>)
    ensures Import(db, tenant, recs).1.None? <==> Doomed(db, tenant, recs, |recs|)
  {
    hide ImportTo, UniqueFindings;
  }

  // An import is refused exactly when some record repeats a key new to the database with no flush in between.
  lemma RefusedIffRepeats(db: Db, tenant: nat, recs: seq<Record>, ever: seq<Finding>)
    requires DbFits(db, ever) && DigestHashes(db.findings) && forall j :: 0 <= j < |recs| ==> PlainRecord(recs[j])
    ensures Import(db, tenant, recs).1.None? <==> exists j :: 0 <= j < |recs| && Repeats(db, tenant, recs, j)
  {
    hide Import, ImportTo, PlainRecord, Repeats, UniqueFindings, WellKeyed, DossiersFit, Doomed, Tracks;
    assert Plain(db.findings) by { assert All(Open(db)) == db.findings; }
    RefusedIffNotUnique(db, tenant, recs);
    if exists j :: 0 <= j < |recs| && Repeats(db, tenant, recs, j) {
      var j := LeastRepeat(db, tenant, recs);
      RepeatDooms(db, tenant, recs, j);
      DoomedStays(db, tenant, recs, j + 1, |recs|);
    } else {
      ImportTracks(db, tenant, recs, |recs|);
      NotDoomed(db, tenant, recs);
    }
  }

  lemma NotDoomed(db: Db, tenant: nat, recs: seq<Record>)
    requires ImportTo(db, tenant, recs, |recs|).Some?
    requires Tracks(db, tenant, recs, |recs|, ImportTo(db, tenant, recs, |recs|).value.0)
    ensures !Doomed(db, tenant, recs, |recs|)
  {
  }

  lemma LeastRepeat(db: Db, tenant: nat, recs: seq<Record>) returns (j: nat)
    requires exists j :: 0 <= j < |recs| && Repeats(db, tenant, recs, j)
    ensures j < |recs| && Repeats(db, tenant, recs, j) && forall i :: 0 <= i < j ==> !Repeats(db, tenant, recs, i)
  {
    hide Repeats;
    j := 0;
    while !Repeats(db, tenant, recs, j)
      invariant j < |recs| && forall i :: 0 <= i < j ==> !Repeats(db, tenant, recs, i)
      decreases |recs| - j
    {
      j := j + 1;
    }
  }

  lemma OccurrenceFlushes(tenant: nat, recs: seq<Record>, n: nat, key: Digest)
    requires n <= |recs| && Occurs(tenant, recs, n, key) && forall j :: 0 <= j < n && recs[j].Rec? ==> Flushes(recs[j])
    ensures FlushedWith(tenant, recs, n, key)
  {
    hide Flushes, Key;
    var i :| 0 <= i < n && HasKey(recs[i], tenant, key);
    assert Occurs(tenant, recs, i + 1, key);
  }

  lemma NothingRepeats(db: Db, tenant: nat, recs: seq<Record>)
    requires forall j :: 0 <= j < |recs| && recs[j].Rec? ==> Flushes(recs[j])
    ensures forall j :: 0 <= j < |recs| ==> !Repeats(db, tenant, recs, j)
  {
    hide Flushes, Redacted, Key, Has;
    forall j | 0 <= j < |recs|
      ensures !Repeats(db, tenant, recs, j)
    {
      if recs[j].Rec? && Occurs(tenant, recs, j, Key(tenant, recs[j])) {
        OccurrenceFlushes(tenant, recs, j, Key(tenant, recs[j]));
      }
    }
  }

  // A file of credentials with email addresses is never refused, and adds digests to the hash column.
  lemma CredentialFilesAreAccepted(db: Db, tenant: nat, recs: seq<Record>, ever: seq<Finding>)
    requires DbFits(db, ever) && DigestHashes(db.findings)
    requires forall j :: 0 <= j < |recs| ==> PlainRecord(recs[j]) && (recs[j].Rec? ==> Flushes(recs[j]))
    ensures Import(db, tenant, recs).1.Some? && DigestHashes(Import(db, tenant, recs).0.findings)
  {
    NothingRepeats(db, tenant, recs);
    RefusedIffRepeats(db, tenant, recs, ever);
    PlainAtFirst(db, ever);
    hide PlainRecord, Flushes, Redacted, Repeats, Persist, WellKeyed, UniqueFindings, DossiersFit;
    ImportTracks(db, tenant, recs, |recs|);
    hide ImportTo;
    assert Import(db, tenant, recs).0.findings == All(ImportTo(db, tenant, recs, |recs|).value.0);
  }

  lemma PlainAtFirst(db: Db, ever: seq<Finding>)
    requires DbFits(db, ever) && DigestHashes(db.findings)
    ensures Plain(db.findings)
  {
    assert All(Open(db)) == db.findings;
  }

  // ---------- an import that is refused ----------

  // An identity record twice in one file, its key new: nothing flushes between the two.
  lemma IdentityTwiceIsRefused(db: Db, tenant: nat, r: Record, ever: seq<Finding>)
    requires DbFits(db, ever) && DigestHashes(db.findings) && PlainRecord(r)
    requires r.Rec? && r.kind == IdentityExposure && !Has(db.findings, tenant, Key(tenant, r))
    ensures Import(db, tenant, [r, r]).1.None?
  {
    hide Import, Key, Has, DbFits, Redacted, PlainRecord;
    var recs, key := [r, r], Key(tenant, r);
    assert HasKey(recs[0], tenant, key);
    assert Occurs(tenant, recs, 1, key);
    assert forall k :: 0 <= k < |recs| ==> !Flushes(recs[k]);
    assert Repeats(db, tenant, recs, 1);
    RefusedIffRepeats(db, tenant, recs, ever);
  }

  // An identity of nothing but an email.
  lemma EmailOnlyIsPlain(email: string)
    ensures PlainRecord(Rec(IdentityExposure, [("email", Chars(email))]))
  {
    RecordKeyClasses();
    hide ClassOf, T.Lower;
    var items := [("email", Chars(email))];
    assert RedactTo(items, 1) == RedactOne(RedactTo(items, 0), items[0].0, items[0].1);
    assert "password_sha256"[5] != "email"[1 - 1];
    assert Redacted(items).Keys == {"email"};
    assert |"password_sha256"| != |"email"|;
  }

  lemma EmailTwiceIsRefused()
    ensures var r := Rec(IdentityExposure, [("email", Chars("a@b"))]); Import(INITIAL.db, 0, [r, r]).1.None?
  {
    hide Import, DbFits, PlainRecord, Key;
    var r := Rec(IdentityExposure, [("email", Chars("a@b"))]);
    StartFits();
    EmailOnlyIsPlain("a@b");
    HasNone(0, Key(0, r));
    IdentityTwiceIsRefused(INITIAL.db, 0, r, []);
  }

  // ---------- a leak count that is inflated ----------

  const LEAK := Rec(CredentialExposure, RecordItems("a@b", "s"))

  lemma NormOfLeak()
    ensures '@' in P.Norm("a@b")
  {
    assert T.Lower("a@b") == "a@b" && T.IsStripped("a@b");
    T.StripOfStripped("a@b");
    assert "a@b"[1] == '@';
  }

  lemma LeakFits()
    ensures LEAK.Rec? && LEAK.kind == CredentialExposure
    ensures '@' in EmailOf(Redacted(LEAK.items)) && '|' !in HashOf(Redacted(LEAK.items))
    ensures PlainRecord(LEAK) && Flushes(LEAK)
  {
    hide Redacted, RecordItems, Hex, P.Norm, EmailOf, HashOf;
    RecordRedacted("a@b", "s");
    NormOfLeak();
  }

  lemma DigestsTogether(fs: seq<Finding>, gs: seq<Finding>)
    requires DigestHashes(fs) && DigestHashes(gs)
    ensures DigestHashes(fs + gs)
  {
  }

  // One credential imported into an empty store, rolled back and imported again: both imports are accepted, and the
  // count of leaks exceeds the number of distinct leaks.
  lemma OneLeakCountedTwice()
    ensures var t := Run(INITIAL, [ImportAll(0, [LEAK]), RollBack(0, 0), ImportAll(0, [LEAK])]);
      var h := IdentityHash(0, EmailOf(Redacted(LEAK.items)));
      h in t.db.identities && t.db.identities[h].leakCount > Formula(t.db.identities[h], "" in Leaks(t.ever, h))
  {
    LeakFits();
    StartFits();
    hide Import, Rollback, DbFits, PlainRecord, Flushes, LEAK, Leaks, Formula, IdentityHash, Key, Redacted, EmailOf,
        HashOf, Has;
    var recs, imp, roll := [LEAK], ImportAll(0, [LEAK]), RollBack(0, 0);
    CredentialFilesAreAccepted(INITIAL.db, 0, recs, []);
    ExecKeeps(INITIAL, imp);
    var s1 := Exec(INITIAL, imp);
    ImportAddsUp(INITIAL.db, 0, recs, []);
    RollbackRestores(INITIAL.db, 0, recs, []);
    ExecKeeps(s1, roll);
    var s2 := Exec(s1, roll);
    CredentialFilesAreAccepted(s2.db, 0, recs, s2.ever);
    ImportAddsUp(s2.db, 0, recs, s2.ever);
    RunOfThree(INITIAL, imp, roll, imp);
    HasNone(0, Key(0, LEAK));
    EverOfTwo(INITIAL, s1, s2, Exec(s2, imp), imp, roll);
    RollbackInflatesLeakCount(INITIAL, 0, recs, 0);
  }

  lemma EverOfTwo(s0: State, s1: State, s2: State, t: State, imp: Step, roll: Step)
    requires imp.ImportAll? && roll.RollBack? && s1 == Exec(s0, imp) && s2 == Exec(s1, roll) && t == Exec(s2, imp)
    requires s0.ever == [] && s0.db.findings == [] && s2.db.findings == []
    requires DigestHashes(s1.db.findings) && DigestHashes(t.db.findings)
    ensures DigestHashes(t.ever)
  {
    hide Import, Rollback;
    assert s1.ever == [] + s1.db.findings && t.ever == s1.ever + t.db.findings;
    DigestsTogether(s1.ever, t.db.findings);
  }
}
