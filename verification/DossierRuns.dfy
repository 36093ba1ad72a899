/** What every run of intakes, imports and rollbacks keeps true of findings and dossiers. */
module DossierRuns {
  import opened Wrappers
  import opened Hashing
  import opened Sequences
  import opened Redaction
  import opened Dossier
  import Text
  import Decimal

  // ---------- the leaks of an identity ----------

  predicate LeakOf(f: Finding, h: Digest) {
    f.kind == CredentialExposure && '@' in f.email && IdentityHash(f.tenant, f.email) == h
  }

  // The password hashes of the identity's findings in the order of creation, "" for a leak without password.
  function Leaks(ever: seq<Finding>, h: Digest): seq<string> {
    if ever == [] then []
    else
      var n := |ever| - 1;
      if LeakOf(ever[n], h) then Leaks(ever[..n], h) + [ever[n].hash] else Leaks(ever[..n], h)
  }

  function Given(hashes: seq<string>): seq<string> {
    if hashes == [] then []
    else
      var n := |hashes| - 1;
      if hashes[n] != "" then Given(hashes[..n]) + [hashes[n]] else Given(hashes[..n])
  }

  // The dossier of h counts the creations and lists their hashes, each once, in the order they came.
  ghost predicate DossierFits(ids: map<Digest, Identity>, ever: seq<Finding>, h: Digest) {
    var leaks := Leaks(ever, h);
    && (h in ids <==> leaks != [])
    && (h in ids ==> ids[h].leakCount == |leaks| && ids[h].hashes == FirstSeen(Given(leaks)))
  }

  ghost predicate DossiersFit(ids: map<Digest, Identity>, ever: seq<Finding>) {
    forall h :: DossierFits(ids, ever, h)
  }

  lemma LeaksStep(ever: seq<Finding>, f: Finding, h: Digest)
    ensures Leaks(ever + [f], h) == if LeakOf(f, h) then Leaks(ever, h) + [f.hash] else Leaks(ever, h)
  {
    assert (ever + [f])[..|ever|] == ever;
  }

  lemma GivenStep(hashes: seq<string>, x: string)
    ensures Given(hashes + [x]) == if x != "" then Given(hashes) + [x] else Given(hashes)
  {
    assert (hashes + [x])[..|hashes|] == hashes;
  }

  lemma {:induction false} GivenHolds(hashes: seq<string>, x: string)
    ensures x in Given(hashes) <==> x in hashes && x != ""
  {
    if hashes != [] {
      var n := |hashes| - 1;
      GivenHolds(hashes[..n], x);
      assert hashes == hashes[..n] + [hashes[n]];
    }
  }

  lemma {:induction false} LeaksHold(ever: seq<Finding>, f: Finding)
    requires f in ever && LeakOf(f, IdentityHash(f.tenant, f.email))
    ensures f.hash in Leaks(ever, IdentityHash(f.tenant, f.email))
  {
    var n := |ever| - 1;
    assert ever == ever[..n] + [ever[n]];
    if ever[n] != f { LeaksHold(ever[..n], f); }
  }

  function TouchNew(ids: map<Digest, Identity>, f: Finding): map<Digest, Identity> {
    if f.kind == CredentialExposure && '@' in f.email then Touch(ids, f, true) else ids
  }

  lemma CreationFitsOne(ids: map<Digest, Identity>, ever: seq<Finding>, f: Finding, h: Digest)
    requires DossierFits(ids, ever, h)
    ensures DossierFits(TouchNew(ids, f), ever + [f], h)
  {
    hide FirstSeen, Given, Leaks, IdentityHash;
    LeaksStep(ever, f, h);
    GivenStep(Leaks(ever, h), f.hash);
    FirstSeenStep(Given(Leaks(ever, h)), f.hash);
    NoLeaks();
  }

  // A new finding enters its identity's dossier and no other.
  lemma CreationFits(ids: map<Digest, Identity>, ever: seq<Finding>, f: Finding)
    requires DossiersFit(ids, ever)
    ensures DossiersFit(TouchNew(ids, f), ever + [f])
  {
    hide DossierFits, TouchNew;
    forall h
      ensures DossierFits(TouchNew(ids, f), ever + [f], h)
    {
      CreationFitsOne(ids, ever, f, h);
    }
  }

  lemma NoLeaks()
    ensures Given([]) == [] && FirstSeen<string>([]) == []
  {
  }

  // Seeing a stored finding again changes no dossier.
  lemma SightingFits(ids: map<Digest, Identity>, ever: seq<Finding>, f: Finding)
    requires DossiersFit(ids, ever) && f in ever && f.kind == CredentialExposure && '@' in f.email
    ensures Touch(ids, f, false) == ids
  {
    var h := IdentityHash(f.tenant, f.email);
    LeaksHold(ever, f);
    assert DossierFits(ids, ever, h);
    GivenHolds(Leaks(ever, h), f.hash);
    hide FirstSeen, Given, Leaks, IdentityHash;
    assert f.hash != "" ==> f.hash in ids[h].hashes;
  }

  // ---------- the count formula ----------

  lemma {:induction false} FirstSeenIsAllIff(s: seq<string>)
    ensures |FirstSeen(s)| <= |s| && (|FirstSeen(s)| == |s| <==> Distinct(s))
  {
    if s != [] {
      var n := |s| - 1;
      FirstSeenIsAllIff(s[..n]);
      FirstSeenStep(s[..n], s[n]);
      assert s == s[..n] + [s[n]];
      if Distinct(s) {
        assert s[n] !in s[..n];
      } else if Distinct(s[..n]) {
        var i, j :| 0 <= i < j < |s| && s[i] == s[j];
        assert j == n && s[i] == s[..n][i];
      }
    }
  }

  lemma {:induction false} DistinctLeaks(s: seq<string>)
    ensures |FirstSeen(s)| == |FirstSeen(Given(s))| + if "" in s then 1 else 0
  {
    if s != [] {
      var n := |s| - 1;
      DistinctLeaks(s[..n]);
      assert s == s[..n] + [s[n]];
      FirstSeenStep(s[..n], s[n]);
      GivenStep(s[..n], s[n]);
      FirstSeenStep(Given(s[..n]), s[n]);
      GivenHolds(s[..n], s[n]);
    }
  }

  // The promised value of leak_count.
  function Formula(id: Identity, passwordless: bool): nat { |id.hashes| + if passwordless then 1 else 0 }

  // leak_count is never below the number of distinct leaks, and is that number exactly when no leak was created twice.
  lemma LeakCountIff(ids: map<Digest, Identity>, ever: seq<Finding>, h: Digest)
    requires DossiersFit(ids, ever) && h in ids
    ensures var leaks := Leaks(ever, h);
      && ids[h].leakCount >= Formula(ids[h], "" in leaks)
      && (ids[h].leakCount == Formula(ids[h], "" in leaks) <==> Distinct(leaks))
  {
    hide Leaks, Given, FirstSeen;
    assert DossierFits(ids, ever, h);
    FirstSeenIsAllIff(Leaks(ever, h));
    DistinctLeaks(Leaks(ever, h));
  }

  // By how much leak_count exceeds that number.
  function Overcount(ids: map<Digest, Identity>, ever: seq<Finding>, h: Digest): int {
    if h in ids then ids[h].leakCount - Formula(ids[h], "" in Leaks(ever, h)) else 0
  }

  // The dossier lists the hash, or has counted a leak without password.
  predicate Listed(ids: map<Digest, Identity>, ever: seq<Finding>, h: Digest, hash: string) {
    h in ids && if hash == "" then "" in Leaks(ever, h) else hash in ids[h].hashes
  }

  lemma OvercountIs(ids: map<Digest, Identity>, ever: seq<Finding>, h: Digest)
    requires DossiersFit(ids, ever)
    ensures Overcount(ids, ever, h) == |Leaks(ever, h)| - |FirstSeen(Leaks(ever, h))|
    ensures forall hash :: Listed(ids, ever, h, hash) <==> hash in Leaks(ever, h)
  {
    hide Leaks, Given, FirstSeen;
    assert DossierFits(ids, ever, h);
    DistinctLeaks(Leaks(ever, h));
    NoLeaks();
    forall hash
      ensures hash in Given(Leaks(ever, h)) <==> hash in Leaks(ever, h) && hash != ""
    {
      GivenHolds(Leaks(ever, h), hash);
    }
  }

  // A new leak adds to the excess exactly when the dossier lists its hash already.
  lemma CreationOvercountsIff(ids: map<Digest, Identity>, ever: seq<Finding>, f: Finding, h: Digest)
    requires DossiersFit(ids, ever) && LeakOf(f, h)
    ensures Overcount(TouchNew(ids, f), ever + [f], h)
         == Overcount(ids, ever, h) + if Listed(ids, ever, h, f.hash) then 1 else 0
  {
    hide DossiersFit, Overcount, Listed, TouchNew, Leaks, FirstSeen;
    CreationFits(ids, ever, f);
    OvercountIs(ids, ever, h);
    OvercountIs(TouchNew(ids, f), ever + [f], h);
    LeaksStep(ever, f, h);
    FirstSeenStep(Leaks(ever, h), f.hash);
  }

  // ---------- keys ----------

  ghost predicate WellKeyed(f: Finding) {
    match f.kind
    case CredentialExposure => f.key == KeyOf(f.tenant, f.kind, CredentialParts(f.email, f.hash))
    case IdentityExposure => exists p :: f.key == KeyOf(f.tenant, f.kind, p)
  }

  lemma NewIsWellKeyed(id: nat, tenant: nat, kind: ExposureKind, d: Detail, ingest: Option<nat>)
    ensures WellKeyed(NewFinding(id, tenant, kind, d, ingest))
  {
    hide KeyOf, IdentityParts, CredentialParts, EmailOf, HashOf;
    var f := NewFinding(id, tenant, kind, d, ingest);
    assert f.key == KeyOf(tenant, kind, Parts(kind, d));
  }

  lemma KeyTellsKind(f: Finding, kind: ExposureKind, d: Detail)
    requires WellKeyed(f) && f.key == DedupKey(f.tenant, kind, d)
    ensures f.kind == kind
    ensures kind == CredentialExposure ==> CredentialParts(f.email, f.hash) == CredentialParts(EmailOf(d), HashOf(d))
  {
    hide KeyOf, IdentityParts, CredentialParts, EmailOf, HashOf;
    if f.kind == CredentialExposure {
      KeyApart(f.tenant, f.kind, CredentialParts(f.email, f.hash), f.tenant, kind, Parts(kind, d));
    } else {
      var p :| f.key == KeyOf(f.tenant, f.kind, p);
      KeyApart(f.tenant, f.kind, p, f.tenant, kind, Parts(kind, d));
    }
  }

  // Stored findings with distinct keys are distinct leaks.
  lemma {:induction false} UniqueFindingsAreDistinctLeaks(fs: seq<Finding>, h: Digest)
    requires UniqueFindings(fs) && forall i :: 0 <= i < |fs| ==> WellKeyed(fs[i])
    ensures Distinct(Leaks(fs, h))
    ensures forall x :: x in Leaks(fs, h) ==> exists i :: 0 <= i < |fs| && LeakOf(fs[i], h) && fs[i].hash == x
  {
    hide WellKeyed;
    if fs != [] {
      var n := |fs| - 1;
      UniqueFindingsAreDistinctLeaks(fs[..n], h);
      var before := Leaks(fs[..n], h);
      if LeakOf(fs[n], h) && fs[n].hash in before {
        var i :| 0 <= i < n && LeakOf(fs[i], h) && fs[i].hash == fs[n].hash;
        SameLeakSameKey(fs[i], fs[n], h);
      }
    }
  }

  lemma SameLeakSameKey(f: Finding, g: Finding, h: Digest)
    requires WellKeyed(f) && WellKeyed(g) && LeakOf(f, h) && LeakOf(g, h)
    ensures SameKey(f, g) <==> f.hash == g.hash
  {
    IdentityHashInjective(f.tenant, f.email, g.tenant, g.email);
    KeyApart(f.tenant, f.kind, CredentialParts(f.email, f.hash), g.tenant, g.kind, CredentialParts(g.email, g.hash));
    SameEmailKey(f.email, f.hash, g.hash);
    hide KeyOf, IdentityHash, CredentialParts;
  }

  lemma IdentityHashInjective(t: nat, e: string, u: nat, f: string)
    requires IdentityHash(t, e) == IdentityHash(u, f)
    ensures t == u && e == f
  {
    Text.CutUnique(Decimal.Str(t), e, Decimal.Str(u), f, '|');
    Decimal.StrInjective(t, u);
  }

  // ---------- one session ----------

  function All(s: Session): seq<Finding> { s.flushed + s.pending }

  // All that a session relies on: dossiers that fit `ever`, where every finding of the session is.
  ghost predicate SessionFits(s: Session, ever: seq<Finding>) {
    && DossiersFit(s.identities, ever)
    && (forall i :: 0 <= i < |ever| ==> WellKeyed(ever[i]))
    && (forall f :: f in All(s) ==> f in ever)
    && UniqueFindings(s.flushed)
  }

  lemma FlushKeeps(s: Session, ever: seq<Finding>)
    requires SessionFits(s, ever) && Flush(s).Some?
    ensures SessionFits(Flush(s).value, ever) && All(Flush(s).value) == All(s)
    ensures s.flushed <= Flush(s).value.flushed
  {
    hide DossiersFit, WellKeyed, UniqueFindings;
  }

  // What a record adds to the findings.
  function Added(s: Session, tenant: nat, kind: ExposureKind, d: Detail, ingest: Option<nat>, created: bool)
    : seq<Finding>
  {
    if created then [NewFinding(s.nextId, tenant, kind, d, ingest)] else []
  }

  lemma UpdateKeeps(s: Session, f: Finding, created: bool, ever: seq<Finding>)
    requires SessionFits(s.(identities := if '@' in f.email then Touch(s.identities, f, created) else s.identities),
        ever)
    requires UpdateIdentity(s, f, created).Some?
    ensures var t := UpdateIdentity(s, f, created).value;
      SessionFits(t, ever) && All(t) == All(s) && s.flushed <= t.flushed
  {
    hide Touch, SessionFits;
    if '@' in f.email { FlushKeeps(s.(identities := Touch(s.identities, f, created)), ever); }
  }

  lemma CreateKeeps(s: Session, f: Finding, ever: seq<Finding>)
    requires SessionFits(s, ever) && WellKeyed(f)
    ensures SessionFits(Session(s.flushed, s.pending + [f], TouchNew(s.identities, f), s.nextId + 1), ever + [f])
  {
    hide TouchNew, DossiersFit, WellKeyed, UniqueFindings, Touch;
    CreationFits(s.identities, ever, f);
    assert forall g :: g in s.flushed + (s.pending + [f]) ==> g in All(s) || g == f;
  }

  lemma DedupKeeps(s: Session, i: nat, ever: seq<Finding>)
    requires SessionFits(s, ever) && i < |s.flushed| && s.flushed[i].kind == CredentialExposure
    ensures var f := s.flushed[i];
      SessionFits(s.(identities := if '@' in f.email then Touch(s.identities, f, false) else s.identities), ever)
  {
    hide DossiersFit, WellKeyed, UniqueFindings, Touch;
    assert s.flushed[i] in All(s);
    if '@' in s.flushed[i].email { SightingFits(s.identities, ever, s.flushed[i]); }
  }

  lemma PersistKeeps(s: Session, tenant: nat, kind: ExposureKind, d: Detail, ingest: Option<nat>, ever: seq<Finding>)
    requires SessionFits(s, ever) && Persist(s, tenant, kind, d, ingest).Some?
    ensures var (t, created) := Persist(s, tenant, kind, d, ingest).value;
      && SessionFits(t, ever + Added(s, tenant, kind, d, ingest, created))
      && All(t) == All(s) + Added(s, tenant, kind, d, ingest, created)
      && s.flushed <= t.flushed
  {
    hide SessionFits, UpdateIdentity, Find, Touch, EmailOf, HashOf, DedupKey;
    var r := Find(s.flushed, tenant, DedupKey(tenant, kind, d), |s.flushed|);
    assert ever + [] == ever && All(s) + [] == All(s);
    if r.Some? {
      var f := s.flushed[r.value];
      if kind == CredentialExposure {
        StoredIsWellKeyed(s, ever, r.value);
        KeyTellsKind(f, kind, d);
        DedupKeeps(s, r.value, ever);
        UpdateKeeps(s, f, false, ever);
      }
    } else {
      var f := NewFinding(s.nextId, tenant, kind, d, ingest);
      var added := s.(pending := s.pending + [f], nextId := s.nextId + 1);
      NewIsWellKeyed(s.nextId, tenant, kind, d, ingest);
      CreateKeeps(s, f, ever);
      assert All(added) == All(s) + [f];
      if kind == CredentialExposure { UpdateKeeps(added, f, true, ever + [f]); }
    }
  }

  lemma StoredIsWellKeyed(s: Session, ever: seq<Finding>, i: nat)
    requires SessionFits(s, ever) && i < |s.flushed|
    ensures WellKeyed(s.flushed[i])
  {
    assert s.flushed[i] in All(s);
  }

  // ---------- a whole request ----------

  function Since(before: seq<Finding>, now: seq<Finding>): seq<Finding> {
    if |before| <= |now| then now[|before|..] else []
  }

  function Errors(recs: seq<Record>, n: nat): nat
    requires n <= |recs|
  {
    if n == 0 then 0 else Errors(recs, n - 1) + if recs[n - 1].Bad? then 1 else 0
  }

  ghost predicate DbFits(db: Db, ever: seq<Finding>) {
    && SessionFits(Open(db), ever)
    && forall f :: f in db.findings && f.ingest.Some? ==> f.ingest.value < |db.batches|
  }

  // How far an import has come: what it added, and its counters.
  ghost predicate Imported(db: Db, tenant: nat, s: Session, c: Counts, n: nat, ever: seq<Finding>) {
    var added := Since(db.findings, All(s));
    && db.findings <= s.flushed
    && SessionFits(s, ever + added)
    && (forall f :: f in added ==> OfBatch(f, tenant, |db.batches|))
    && c.total == n && c.created == |added| && c.created + c.deduped + c.errors == n
  }

  lemma ImportOneKeeps(db: Db, tenant: nat, r: Record, p: (Session, Counts), n: nat, ever: seq<Finding>)
    requires Imported(db, tenant, p.0, p.1, n, ever) && ImportOne(p, tenant, r, |db.batches|).Some?
    ensures var q := ImportOne(p, tenant, r, |db.batches|).value;
      Imported(db, tenant, q.0, q.1, n + 1, ever) && q.1.errors == p.1.errors + if r.Bad? then 1 else 0
  {
    hide SessionFits, Persist, DedupKey, EmailOf, HashOf, Redacted;
    if r.Rec? {
      var s, d, batch := p.0, Redacted(r.items), Some(|db.batches|);
      var before := Since(db.findings, All(s));
      PersistKeeps(s, tenant, r.kind, d, batch, ever + before);
      var (t, created) := Persist(s, tenant, r.kind, d, batch).value;
      var more := Added(s, tenant, r.kind, d, batch, created);
      assert Since(db.findings, All(t)) == before + more;
      assert (ever + before) + more == ever + (before + more);
    }
  }

  lemma {:induction false} ImportToKeeps(db: Db, tenant: nat, recs: seq<Record>, n: nat, ever: seq<Finding>)
    requires DbFits(db, ever) && n <= |recs| && ImportTo(db, tenant, recs, n).Some?
    ensures var (s, c) := ImportTo(db, tenant, recs, n).value;
      Imported(db, tenant, s, c, n, ever) && c.errors == Errors(recs, n)
    decreases n
  {
    hide SessionFits, ImportOne;
    if n == 0 {
      assert ever + Since(db.findings, All(Open(db))) == ever;
    } else {
      ImportToKeeps(db, tenant, recs, n - 1, ever);
      ImportOneKeeps(db, tenant, recs[n - 1], ImportTo(db, tenant, recs, n - 1).value, n - 1, ever);
    }
  }

  // A file's records are all counted: those created, those seen before, and those in error.
  lemma ImportAddsUp(db: Db, tenant: nat, recs: seq<Record>, ever: seq<Finding>)
    requires DbFits(db, ever) && Import(db, tenant, recs).1.Some?
    ensures var (after, c) := Import(db, tenant, recs);
      var added := Since(db.findings, after.findings);
      && c.value.total == |recs| == c.value.created + c.value.deduped + c.value.errors
      && c.value.created == |added| && c.value.errors == Errors(recs, |recs|)
      && after.findings == db.findings + added && (forall f :: f in added ==> OfBatch(f, tenant, |db.batches|))
      && after.batches == db.batches + [tenant]
      && DbFits(after, ever + added)
  {
    hide SessionFits, ImportTo;
    ImportToKeeps(db, tenant, recs, |recs|, ever);
    var (s, c) := ImportTo(db, tenant, recs, |recs|).value;
    var added := Since(db.findings, All(s));
    FlushKeeps(s, ever + added);
    var t := Flush(s).value;
    assert t.flushed == All(s) == db.findings + added;
    assert Open(Import(db, tenant, recs).0) == t;
  }

  lemma IntakeKeeps(db: Db, tenant: nat, r: Record, ever: seq<Finding>)
    requires DbFits(db, ever)
    ensures var after := Intake(db, tenant, r).0;
      && db.findings <= after.findings
      && DbFits(after, ever + Since(db.findings, after.findings)) && after.batches == db.batches
  {
    hide SessionFits, Persist, DedupKey, EmailOf, HashOf, Redacted;
    assert ever + Since(db.findings, db.findings) == ever;
    if r.Rec? && Persist(Open(db), tenant, r.kind, Redacted(r.items), None).Some? {
      PersistKeeps(Open(db), tenant, r.kind, Redacted(r.items), None, ever);
      var (s, created) := Persist(Open(db), tenant, r.kind, Redacted(r.items), None).value;
      var more := Added(Open(db), tenant, r.kind, Redacted(r.items), None, created);
      if Flush(s).Some? {
        FlushKeeps(s, ever + more);
        assert Since(db.findings, All(s)) == more;
        assert Open(Close(db, s, db.batches).value) == Flush(s).value;
      }
    }
  }

  // ---------- rollback ----------

  lemma {:induction false} WithoutKeeps(fs: seq<Finding>, tenant: nat, batch: nat, n: nat)
    requires n <= |fs|
    ensures |Without(fs, tenant, batch, n)| <= n
    ensures forall f :: f in Without(fs, tenant, batch, n) <==> f in fs[..n] && !OfBatch(f, tenant, batch)
    ensures UniqueFindings(fs) ==> UniqueFindings(Without(fs, tenant, batch, n))
    decreases n
  {
    if n > 0 {
      WithoutKeeps(fs, tenant, batch, n - 1);
      assert fs[..n] == fs[..n - 1] + [fs[n - 1]];
      var kept := Without(fs, tenant, batch, n - 1);
      forall i | 0 <= i < |kept| && UniqueFindings(fs)
        ensures !SameKey(kept[i], fs[n - 1])
      {
        assert kept[i] in fs[..n - 1];
      }
    }
  }

  lemma {:induction false} WithoutOthers(fs: seq<Finding>, more: seq<Finding>, tenant: nat, batch: nat, n: nat)
    requires n <= |fs + more|
    requires forall f :: f in fs ==> !OfBatch(f, tenant, batch)
    requires forall f :: f in more ==> OfBatch(f, tenant, batch)
    ensures Without(fs + more, tenant, batch, n) == if n <= |fs| then fs[..n] else fs
    decreases n
  {
    if n > 0 {
      WithoutOthers(fs, more, tenant, batch, n - 1);
      var f := (fs + more)[n - 1];
      if n <= |fs| {
        assert f in fs && fs[..n] == fs[..n - 1] + [f];
      } else {
        assert f == more[n - 1 - |fs|];
      }
    }
  }

  // Importing a file and rolling it back leaves exactly the findings there were, and every dossier as the import
  // left it.
  lemma RollbackRestores(db: Db, tenant: nat, recs: seq<Record>, ever: seq<Finding>)
    requires DbFits(db, ever) && Import(db, tenant, recs).1.Some?
    ensures var (mid, c) := Import(db, tenant, recs);
      var (after, removed) := Rollback(mid, tenant, |db.batches|);
      && after.findings == db.findings && removed == Some(c.value.created)
      && after.identities == mid.identities
  {
    hide Import, SessionFits;
    ImportAddsUp(db, tenant, recs, ever);
    var mid := Import(db, tenant, recs).0;
    var added := Since(db.findings, mid.findings);
    WithoutOthers(db.findings, added, tenant, |db.batches|, |mid.findings|);
  }

  // A rollback is refused exactly for a batch that is not the tenant's; it removes exactly the batch's findings, says
  // how many, and leaves the others in their order and every dossier as it was.
  lemma RollbackIs(db: Db, tenant: nat, batch: nat)
    ensures var (after, removed) := Rollback(db, tenant, batch);
      && (removed.Some? <==> batch < |db.batches| && db.batches[batch] == tenant)
      && after.identities == db.identities && after.batches == db.batches && after.nextId == db.nextId
      && (removed.None? ==> after == db)
      && (removed.Some? ==>
            && |after.findings| + removed.value == |db.findings|
            && (forall f :: f in after.findings <==>
                  f in db.findings && !(f.tenant == tenant && f.ingest == Some(batch)))
            && IsPart(after.findings, db.findings))
  {
    WithoutKeeps(db.findings, tenant, batch, |db.findings|);
    WithoutIsPart(db.findings, tenant, batch, |db.findings|);
    assert db.findings[..|db.findings|] == db.findings;
    hide Without, IsPart;
  }

  // Some of fs, in their order.
  predicate IsPart(part: seq<Finding>, fs: seq<Finding>) {
    if fs == [] then part == []
    else
      var n := |fs| - 1;
      || IsPart(part, fs[..n])
      || (part != [] && part[|part| - 1] == fs[n] && IsPart(part[..|part| - 1], fs[..n]))
  }

  lemma {:induction false} WithoutIsPart(fs: seq<Finding>, tenant: nat, batch: nat, n: nat)
    requires n <= |fs|
    ensures IsPart(Without(fs, tenant, batch, n), fs[..n])
    decreases n
  {
    if n > 0 {
      WithoutIsPart(fs, tenant, batch, n - 1);
      assert fs[..n][..n - 1] == fs[..n - 1];
      var kept := Without(fs, tenant, batch, n);
      if !OfBatch(fs[n - 1], tenant, batch) {
        assert kept[..|kept| - 1] == Without(fs, tenant, batch, n - 1);
      }
    }
  }

  lemma RollbackKeeps(db: Db, tenant: nat, batch: nat, ever: seq<Finding>)
    requires DbFits(db, ever)
    ensures DbFits(Rollback(db, tenant, batch).0, ever)
  {
    hide DossiersFit, WellKeyed, UniqueFindings;
    WithoutKeeps(db.findings, tenant, batch, |db.findings|);
    assert db.findings[..|db.findings|] == db.findings;
  }

  // ---------- runs ----------

  datatype State = State(db: Db, ever: seq<Finding>)

  datatype Step =
    | TakeIn(tenant: nat, record: Record)
    | ImportAll(tenant: nat, records: seq<Record>)
    | RollBack(tenant: nat, batch: nat)

  function Exec(s: State, step: Step): State {
    match step
    case TakeIn(t, r) => var db := Intake(s.db, t, r).0; State(db, s.ever + Since(s.db.findings, db.findings))
    case ImportAll(t, recs) => var db := Import(s.db, t, recs).0; State(db, s.ever + Since(s.db.findings, db.findings))
    case RollBack(t, b) => s.(db := Rollback(s.db, t, b).0)
  }

  function Run(s: State, steps: seq<Step>): State {
    if steps == [] then s else Exec(Run(s, steps[..|steps| - 1]), steps[|steps| - 1])
  }

  const INITIAL := State(Db([], map[], 0, []), [])

  lemma ExecKeeps(s: State, step: Step)
    requires DbFits(s.db, s.ever)
    ensures DbFits(Exec(s, step).db, Exec(s, step).ever)
    ensures !step.RollBack? && s.db.findings == s.ever ==> Exec(s, step).db.findings == Exec(s, step).ever
  {
    hide DbFits, Intake, Import, Rollback;
    match step
    case TakeIn(t, r) => IntakeKeeps(s.db, t, r, s.ever);
    case RollBack(t, b) => RollbackKeeps(s.db, t, b, s.ever);
    case ImportAll(t, recs) =>
      if Import(s.db, t, recs).1.Some? {
        ImportAddsUp(s.db, t, recs, s.ever);
      } else {
        RefusedImport(s.db, t, recs);
        assert s.ever + Since(s.db.findings, s.db.findings) == s.ever;
      }
  }

  lemma RefusedImport(db: Db, tenant: nat, recs: seq<Record>)
    requires Import(db, tenant, recs).1.None?
    ensures Import(db, tenant, recs).0 == db
  {
  }

  lemma {:induction false} RunFits(steps: seq<Step>)
    ensures DbFits(Run(INITIAL, steps).db, Run(INITIAL, steps).ever)
    ensures (forall k :: 0 <= k < |steps| ==> !steps[k].RollBack?) ==>
      Run(INITIAL, steps).db.findings == Run(INITIAL, steps).ever
    decreases |steps|
  {
    hide Exec;
    if steps != [] {
      RunFits(steps[..|steps| - 1]);
      ExecKeeps(Run(INITIAL, steps[..|steps| - 1]), steps[|steps| - 1]);
    } else {
      hide DbFits;
      StartFits();
    }
  }

  lemma StartFits()
    ensures DbFits(INITIAL.db, INITIAL.ever)
  {
  }

  // With no rollback, every dossier lists exactly the distinct hashes of its findings, and leak_count is
  // their number plus one if a leak without password was seen.
  lemma LeakCountWithoutRollback(steps: seq<Step>, h: Digest)
    requires forall k :: 0 <= k < |steps| ==> !steps[k].RollBack?
    requires h in Run(INITIAL, steps).db.identities
    ensures var db := Run(INITIAL, steps).db;
      var id := db.identities[h];
      && Distinct(id.hashes)
      && (forall x :: x in id.hashes <==> x != "" && x in Leaks(db.findings, h))
      && id.leakCount == Formula(id, "" in Leaks(db.findings, h))
  {
    hide Run, Leaks, Given, FirstSeen, UniqueFindings, WellKeyed;
    RunFits(steps);
    var s := Run(INITIAL, steps);
    assert DossierFits(s.db.identities, s.ever, h);
    UniqueFindingsAreDistinctLeaks(s.ever, h);
    LeakCountIff(s.db.identities, s.ever, h);
    forall x
      ensures x in Given(Leaks(s.ever, h)) <==> x != "" && x in Leaks(s.ever, h)
    {
      GivenHolds(Leaks(s.ever, h), x);
    }
  }
}
