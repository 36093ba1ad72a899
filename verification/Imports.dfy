/** Importing a file twice, and importing it again after a rollback. */
module Imports {
  import opened Wrappers
  import opened Hashing
  import opened Sequences
  import opened Redaction
  import opened Dossier
  import opened DossierRuns

  function Key(tenant: nat, r: Record): Digest
    requires r.Rec?
  {
    DedupKey(tenant, r.kind, Redacted(r.items))
  }

  // ---------- importing again ----------

  // Every record of the file is stored already.
  ghost predicate Known(db: Db, tenant: nat, recs: seq<Record>) {
    forall k :: 0 <= k < |recs| && recs[k].Rec? ==> Has(db.findings, tenant, Key(tenant, recs[k]))
  }

  lemma FlushOfNothing(s: Session)
    requires s.pending == [] && UniqueFindings(s.flushed)
    ensures Flush(s) == Some(s)
  {
    assert s.flushed + s.pending == s.flushed;
  }

  lemma PersistKnown(s: Session, tenant: nat, kind: ExposureKind, d: Detail, ingest: Option<nat>, ever: seq<Finding>)
    requires SessionFits(s, ever) && s.pending == [] && Has(s.flushed, tenant, DedupKey(tenant, kind, d))
    ensures Persist(s, tenant, kind, d, ingest) == Some((s, false))
  {
    hide Find, Touch, DedupKey, EmailOf, HashOf, DossiersFit, WellKeyed, UniqueFindings, Flush;
    FlushOfNothing(s);
    var r := Find(s.flushed, tenant, DedupKey(tenant, kind, d), |s.flushed|);
    if kind == CredentialExposure {
      var f := s.flushed[r.value];
      StoredIsWellKeyed(s, ever, r.value);
      KeyTellsKind(f, kind, d);
      assert f in All(s);
      if '@' in f.email { SightingFits(s.identities, ever, f); }
    }
  }

  lemma ImportOneKnown(db: Db, tenant: nat, r: Record, p: (Session, Counts), ever: seq<Finding>)
    requires DbFits(db, ever) && p.0 == Open(db) && (r.Rec? ==> Has(db.findings, tenant, Key(tenant, r)))
    ensures var c := p.1.(total := p.1.total + 1);
      ImportOne(p, tenant, r, |db.batches|)
        == Some((p.0, if r.Bad? then c.(errors := c.errors + 1) else c.(deduped := c.deduped + 1)))
  {
    hide SessionFits, Persist, Has, DedupKey, Redacted;
    if r.Rec? { PersistKnown(Open(db), tenant, r.kind, Redacted(r.items), Some(|db.batches|), ever); }
  }

  lemma {:induction false} ImportKnownTo(db: Db, tenant: nat, recs: seq<Record>, n: nat, ever: seq<Finding>)
    requires DbFits(db, ever) && Known(db, tenant, recs) && n <= |recs|
    ensures Errors(recs, n) <= n
    ensures ImportTo(db, tenant, recs, n) == Some((Open(db), Counts(n, 0, n - Errors(recs, n), Errors(recs, n))))
    decreases n
  {
    hide SessionFits, Persist, Has, ImportOne, DedupKey, Redacted;
    if n > 0 {
      ImportKnownTo(db, tenant, recs, n - 1, ever);
      ImportOneKnown(db, tenant, recs[n - 1], ImportTo(db, tenant, recs, n - 1).value, ever);
    }
  }

  lemma ImportOfKnown(db: Db, tenant: nat, recs: seq<Record>, ever: seq<Finding>)
    requires DbFits(db, ever) && Known(db, tenant, recs)
    ensures Errors(recs, |recs|) <= |recs|
    ensures var errors := Errors(recs, |recs|);
      Import(db, tenant, recs) == (db.(batches := db.batches + [tenant]),
          Some(Counts(|recs|, 0, |recs| - errors, errors)))
  {
    hide Known, ImportTo, Flush;
    ImportKnownTo(db, tenant, recs, |recs|, ever);
    FlushOfNothing(Open(db));
  }

  lemma HasMore(fs: seq<Finding>, more: seq<Finding>, tenant: nat, key: Digest)
    ensures Has(fs + more, tenant, key) <==> Has(fs, tenant, key) || Has(more, tenant, key)
  {
    var all := fs + more;
    if Has(fs, tenant, key) {
      var i :| 0 <= i < |fs| && fs[i].tenant == tenant && fs[i].key == key;
      assert all[i] == fs[i];
    }
    if Has(more, tenant, key) {
      var i :| 0 <= i < |more| && more[i].tenant == tenant && more[i].key == key;
      assert all[|fs| + i] == more[i];
    }
  }

  lemma PersistCreatesIff(s: Session, tenant: nat, kind: ExposureKind, d: Detail, ingest: Option<nat>)
    requires Persist(s, tenant, kind, d, ingest).Some?
    ensures Persist(s, tenant, kind, d, ingest).value.1 <==> !Has(s.flushed, tenant, DedupKey(tenant, kind, d))
  {
    hide UpdateIdentity, DedupKey, NewFinding;
  }

  lemma PersistStores(s: Session, tenant: nat, kind: ExposureKind, d: Detail, ingest: Option<nat>, ever: seq<Finding>)
    requires SessionFits(s, ever) && Persist(s, tenant, kind, d, ingest).Some?
    ensures Has(All(Persist(s, tenant, kind, d, ingest).value.0), tenant, DedupKey(tenant, kind, d))
  {
    hide SessionFits, DedupKey, EmailOf, HashOf, Persist, Has;
    PersistKeeps(s, tenant, kind, d, ingest, ever);
    PersistCreatesIff(s, tenant, kind, d, ingest);
    var created := Persist(s, tenant, kind, d, ingest).value.1;
    var added := Added(s, tenant, kind, d, ingest, created);
    HasMore(s.flushed, s.pending, tenant, DedupKey(tenant, kind, d));
    HasMore(All(s), added, tenant, DedupKey(tenant, kind, d));
    if created { HasSingle(added[0]); }
  }

  lemma HasSingle(f: Finding)
    ensures Has([f], f.tenant, f.key)
  {
    assert [f][0] == f;
  }

  ghost predicate Stored(s: Session, tenant: nat, recs: seq<Record>, n: nat)
    requires n <= |recs|
  {
    forall k :: 0 <= k < n && recs[k].Rec? ==> Has(All(s), tenant, Key(tenant, recs[k]))
  }

  lemma {:induction false} ImportToStores(db: Db, tenant: nat, recs: seq<Record>, n: nat, ever: seq<Finding>)
    requires DbFits(db, ever) && n <= |recs| && ImportTo(db, tenant, recs, n).Some?
    ensures Stored(ImportTo(db, tenant, recs, n).value.0, tenant, recs, n)
    decreases n
  {
    hide SessionFits, Persist, Has, All, DedupKey, Redacted;
    if n > 0 {
      ImportToStores(db, tenant, recs, n - 1, ever);
      ImportToKeeps(db, tenant, recs, n - 1, ever);
      var (s, c) := ImportTo(db, tenant, recs, n - 1).value;
      var r, batch := recs[n - 1], Some(|db.batches|);
      if r.Rec? {
        var before := ever + Since(db.findings, All(s));
        PersistStores(s, tenant, r.kind, Redacted(r.items), batch, before);
        PersistKeeps(s, tenant, r.kind, Redacted(r.items), batch, before);
        var (t, created) := Persist(s, tenant, r.kind, Redacted(r.items), batch).value;
        forall k | 0 <= k < n - 1 && recs[k].Rec?
          ensures Has(All(t), tenant, Key(tenant, recs[k]))
        {
          HasMore(All(s), Added(s, tenant, r.kind, Redacted(r.items), batch, created), tenant, Key(tenant, recs[k]));
        }
      }
    }
  }

  lemma ImportStores(db: Db, tenant: nat, recs: seq<Record>, ever: seq<Finding>)
    requires DbFits(db, ever) && Import(db, tenant, recs).1.Some?
    ensures Known(Import(db, tenant, recs).0, tenant, recs)
  {
    hide Has, ImportTo, DedupKey, Redacted, UniqueFindings;
    ImportToStores(db, tenant, recs, |recs|, ever);
    assert Import(db, tenant, recs).0.findings == All(ImportTo(db, tenant, recs, |recs|).value.0);
  }

  lemma {:induction false} KnownStays(s: State, steps: seq<Step>, tenant: nat, recs: seq<Record>)
    requires DbFits(s.db, s.ever) && Known(s.db, tenant, recs) && forall k :: 0 <= k < |steps| ==> !steps[k].RollBack?
    ensures DbFits(Run(s, steps).db, Run(s, steps).ever) && Known(Run(s, steps).db, tenant, recs)
    decreases |steps|
  {
    hide Exec, DbFits, Has, Key;
    if steps != [] {
      var n := |steps| - 1;
      KnownStays(s, steps[..n], tenant, recs);
      var mid := Run(s, steps[..n]);
      ExecKeeps(mid, steps[n]);
      FindingsGrow(mid, steps[n]);
      var before, after := mid.db.findings, Exec(mid, steps[n]).db.findings;
      forall k | 0 <= k < |recs| && recs[k].Rec?
        ensures Has(after, tenant, Key(tenant, recs[k]))
      {
        HasMore(before, after[|before|..], tenant, Key(tenant, recs[k]));
        assert after == before + after[|before|..];
      }
    }
  }

  lemma FindingsGrow(s: State, step: Step)
    requires DbFits(s.db, s.ever) && !step.RollBack?
    ensures s.db.findings <= Exec(s, step).db.findings
  {
    hide DbFits, Intake, Import, Since;
    match step
    case TakeIn(t, r) => IntakeKeeps(s.db, t, r, s.ever);
    case ImportAll(t, recs) =>
      if Import(s.db, t, recs).1.Some? {
        ImportAddsUp(s.db, t, recs, s.ever);
      } else {
        RefusedImport(s.db, t, recs);
      }
  }

  // A file imported before, however long ago: importing it again is accepted, creates nothing, and changes
  // no finding and no dossier, unless something was rolled back since.
  lemma ReimportChangesNothing(s: State, tenant: nat, recs: seq<Record>, steps: seq<Step>)
    requires DbFits(s.db, s.ever) && Import(s.db, tenant, recs).1.Some?
    requires forall k :: 0 <= k < |steps| ==> !steps[k].RollBack?
    ensures var later := Run(Exec(s, ImportAll(tenant, recs)), steps).db;
      var (again, c) := Import(later, tenant, recs);
      && again == later.(batches := later.batches + [tenant])
      && c.Some? && c.value.created == 0 && c.value.errors == Errors(recs, |recs|)
      && c.value.deduped == |recs| - c.value.errors
  {
    hide Import, DbFits, Run, Known;
    ImportStores(s.db, tenant, recs, s.ever);
    ExecKeeps(s, ImportAll(tenant, recs));
    var mid := Exec(s, ImportAll(tenant, recs));
    KnownStays(mid, steps, tenant, recs);
    ImportOfKnown(Run(mid, steps).db, tenant, recs, Run(mid, steps).ever);
  }

  // ---------- which record makes the count too high ----------

  lemma PersistTouches(s: Session, tenant: nat, d: Detail, ingest: Option<nat>, ever: seq<Finding>)
    requires SessionFits(s, ever) && '@' in EmailOf(d) && Persist(s, tenant, CredentialExposure, d, ingest).Some?
    ensures var (t, created) := Persist(s, tenant, CredentialExposure, d, ingest).value;
      var f := NewFinding(s.nextId, tenant, CredentialExposure, d, ingest);
      t.identities == if created then TouchNew(s.identities, f) else s.identities
  {
    hide Find, Touch, DedupKey, EmailOf, HashOf, DossiersFit, WellKeyed, UniqueFindings;
    var r := Find(s.flushed, tenant, DedupKey(tenant, CredentialExposure, d), |s.flushed|);
    if r.Some? {
      var f := s.flushed[r.value];
      StoredIsWellKeyed(s, ever, r.value);
      KeyTellsKind(f, CredentialExposure, d);
      assert f in All(s);
      if '@' in f.email { SightingFits(s.identities, ever, f); }
    }
  }

  // A credential record makes leak_count one higher than the number of distinct leaks, compared to before, exactly when
  // the dossier lists its hash already while no stored finding has its key.
  lemma RecordOvercountsIff(s: Session, tenant: nat, d: Detail, ingest: Option<nat>, ever: seq<Finding>)
    requires SessionFits(s, ever) && '@' in EmailOf(d) && Persist(s, tenant, CredentialExposure, d, ingest).Some?
    ensures var (t, created) := Persist(s, tenant, CredentialExposure, d, ingest).value;
      var h := IdentityHash(tenant, EmailOf(d));
      var after := ever + Added(s, tenant, CredentialExposure, d, ingest, created);
      var key := DedupKey(tenant, CredentialExposure, d);
      var again := Listed(s.identities, ever, h, HashOf(d)) && !Has(s.flushed, tenant, key);
      Overcount(t.identities, after, h) == Overcount(s.identities, ever, h) + if again then 1 else 0
  {
    hide Persist, Overcount, Listed, TouchNew, Has, IdentityHash, DedupKey, EmailOf, HashOf, DossiersFit;
    PersistTouches(s, tenant, d, ingest, ever);
    PersistCreatesIff(s, tenant, CredentialExposure, d, ingest);
    if Persist(s, tenant, CredentialExposure, d, ingest).value.1 {
      var f := NewFinding(s.nextId, tenant, CredentialExposure, d, ingest);
      CreationOvercountsIff(s.identities, ever, f, IdentityHash(tenant, EmailOf(d)));
    } else {
      assert ever + [] == ever;
    }
  }

  // ---------- importing again after a rollback ----------

  ghost predicate DigestHashes(fs: seq<Finding>) { forall f :: f in fs ==> '|' !in f.hash }

  lemma {:induction false} LeaksOfMore(ever: seq<Finding>, more: seq<Finding>, h: Digest)
    ensures Leaks(ever + more, h) == Leaks(ever, h) + Leaks(more, h)
    decreases |more|
  {
    if more == [] {
      assert ever + more == ever;
    } else {
      var n := |more| - 1;
      LeaksOfMore(ever, more[..n], h);
      assert ever + more == (ever + more[..n]) + [more[n]];
      LeaksStep(ever + more[..n], more[n], h);
    }
  }

  lemma LeaksTwice(ever: seq<Finding>, more: seq<Finding>, f: Finding, g: Finding)
    requires f in ever && g in more && f.tenant == g.tenant && f.email == g.email && f.hash == g.hash
    requires f.kind == g.kind == CredentialExposure && '@' in f.email
    ensures var h := IdentityHash(f.tenant, f.email); !Distinct(Leaks(ever + more, h)) && Leaks(ever + more, h) != []
  {
    var h := IdentityHash(f.tenant, f.email);
    LeaksOfMore(ever, more, h);
    LeaksHold(ever, f);
    LeaksHold(more, g);
    hide Leaks;
    var a, b := Leaks(ever, h), Leaks(more, h);
    var i :| 0 <= i < |a| && a[i] == f.hash;
    var j :| 0 <= j < |b| && b[j] == g.hash;
    assert (a + b)[i] == (a + b)[|a| + j];
  }

  // The finding a record is stored as, when its key was not there before.
  lemma StoredAs(before: seq<Finding>, after: seq<Finding>, tenant: nat, r: Record) returns (f: Finding)
    requires r.Rec? && r.kind == CredentialExposure && '|' !in HashOf(Redacted(r.items))
    requires before <= after && !Has(before, tenant, Key(tenant, r)) && Has(after, tenant, Key(tenant, r))
    requires forall f :: f in Since(before, after) ==> WellKeyed(f) && '|' !in f.hash
    ensures f in Since(before, after) && f.tenant == tenant && f.kind == CredentialExposure
    ensures f.email == EmailOf(Redacted(r.items)) && f.hash == HashOf(Redacted(r.items))
  {
    hide EmailOf, HashOf, DedupKey, WellKeyed, Redacted;
    var i :| 0 <= i < |after| && after[i].tenant == tenant && after[i].key == Key(tenant, r);
    f := after[i];
    assert forall j :: 0 <= j < |before| ==> before[j] == after[j];
    assert f == Since(before, after)[i - |before|];
    KeyTellsKind(f, r.kind, Redacted(r.items));
    CredentialKeyInjective(f.email, f.hash, EmailOf(Redacted(r.items)), HashOf(Redacted(r.items)));
  }

  // A credential new to the store, imported, rolled back and imported again: its identity's leak_count now
  // exceeds the number of distinct leaks, since the rollback did not lower it.
  lemma RollbackInflatesLeakCount(s: State, tenant: nat, recs: seq<Record>, k: nat)
    requires DbFits(s.db, s.ever) && k < |recs| && recs[k].Rec? && recs[k].kind == CredentialExposure
    requires '@' in EmailOf(Redacted(recs[k].items)) && '|' !in HashOf(Redacted(recs[k].items))
    requires !Has(s.db.findings, tenant, Key(tenant, recs[k]))
    requires var back := Rollback(Import(s.db, tenant, recs).0, tenant, |s.db.batches|).0;
      Import(s.db, tenant, recs).1.Some? && Import(back, tenant, recs).1.Some?
    requires var steps := [ImportAll(tenant, recs), RollBack(tenant, |s.db.batches|), ImportAll(tenant, recs)];
      DigestHashes(Run(s, steps).ever)
    ensures var t := Run(s, [ImportAll(tenant, recs), RollBack(tenant, |s.db.batches|), ImportAll(tenant, recs)]);
      var h := IdentityHash(tenant, EmailOf(Redacted(recs[k].items)));
      h in t.db.identities && t.db.identities[h].leakCount > Formula(t.db.identities[h], "" in Leaks(t.ever, h))
  {
    hide Import, Rollback, EmailOf, HashOf, DedupKey, Redacted, Has, SessionFits, Leaks, IdentityHash, Formula;
    var imp, roll := ImportAll(tenant, recs), RollBack(tenant, |s.db.batches|);
    var s1 := Exec(s, imp);
    var s2 := Exec(s1, roll);
    var t := Exec(s2, imp);
    RunOfThree(s, imp, roll, imp);
    ImportAddsUp(s.db, tenant, recs, s.ever);
    ImportStores(s.db, tenant, recs, s.ever);
    RollbackRestores(s.db, tenant, recs, s.ever);
    RollbackKeeps(s1.db, tenant, |s.db.batches|, s1.ever);
    ImportAddsUp(s2.db, tenant, recs, s2.ever);
    ImportStores(s2.db, tenant, recs, s2.ever);
    var added, again := Since(s.db.findings, s1.db.findings), Since(s2.db.findings, t.db.findings);
    assert t.ever == (s.ever + added) + again;
    EverIsWellKeyed(t);
    var f := StoredAs(s.db.findings, s1.db.findings, tenant, recs[k]);
    var g := StoredAs(s2.db.findings, t.db.findings, tenant, recs[k]);
    LeaksTwice(s.ever + added, again, f, g);
    DossierOf(t, IdentityHash(tenant, f.email));
    LeakCountIff(t.db.identities, t.ever, IdentityHash(tenant, f.email));
  }

  lemma DossierOf(t: State, h: Digest)
    requires DbFits(t.db, t.ever) && Leaks(t.ever, h) != []
    ensures h in t.db.identities && DossiersFit(t.db.identities, t.ever)
  {
    assert DossierFits(t.db.identities, t.ever, h);
  }

  lemma EverIsWellKeyed(t: State)
    requires DbFits(t.db, t.ever)
    ensures forall f :: f in t.ever ==> WellKeyed(f)
  {
  }

  lemma RunOfThree(s: State, a: Step, b: Step, c: Step)
    ensures Run(s, [a, b, c]) == Exec(Exec(Exec(s, a), b), c)
  {
    hide Exec;
    assert [a, b, c][..2] == [a, b] && [a, b][..1] == [a];
    assert Run(s, [a]) == Exec(s, a);
    assert Run(s, [a, b]) == Exec(Exec(s, a), b);
  }
}
