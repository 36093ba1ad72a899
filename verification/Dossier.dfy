/**
 Intake, import and rollback of exposure findings (app/routers/exposure_routes.py) with the
 per-identity dossier they maintain (app/credential_intel.py).  Sessions do not autoflush: a new
 finding stays pending, invisible to queries, until something flushes.
 */
module Dossier {
  import opened Wrappers
  import opened Hashing
  import opened Redaction
  import Decimal

  // `email` and `hash` are the parts of the stored detail that the dossier reads.
  datatype Finding = Finding(id: nat, tenant: nat, kind: ExposureKind, key: Digest, email: string, hash: string,
      ingest: Option<nat>)

  datatype Identity = Identity(tenant: nat, email: string, leakCount: nat, hashes: seq<string>)

  // Batch ids are indices into `batches`, which holds each batch's tenant.
  datatype Db = Db(findings: seq<Finding>, identities: map<Digest, Identity>, nextId: nat, batches: seq<nat>)

  // An open transaction: what it can query, and what it has added since it last flushed.
  datatype Session = Session(flushed: seq<Finding>, pending: seq<Finding>, identities: map<Digest, Identity>,
      nextId: nat)

  // A parsed record: a parse error or an unsupported type, or a finding to store.
  datatype Record = Bad | Rec(kind: ExposureKind, items: Items)

  function Open(db: Db): Session { Session(db.findings, [], db.identities, db.nextId) }

  // ---------- the unique index uq_exposure_dedup ----------

  predicate SameKey(f: Finding, g: Finding) { f.tenant == g.tenant && f.key == g.key }

  predicate UniqueFindings(fs: seq<Finding>) {
    forall i, j :: 0 <= i < j < |fs| ==> !SameKey(fs[i], fs[j])
  }

  predicate Has(fs: seq<Finding>, tenant: nat, key: Digest) {
    exists i :: 0 <= i < |fs| && fs[i].tenant == tenant && fs[i].key == key
  }

  function Find(fs: seq<Finding>, tenant: nat, key: Digest, n: nat): (r: Option<nat>)
    requires n <= |fs|
    ensures r.Some? ==> r.value < n && fs[r.value].tenant == tenant && fs[r.value].key == key
    ensures r.None? ==> forall i :: 0 <= i < n ==> fs[i].tenant != tenant || fs[i].key != key
  {
    if n == 0 then None
    else if fs[n - 1].tenant == tenant && fs[n - 1].key == key then Some(n - 1)
    else Find(fs, tenant, key, n - 1)
  }

  // A flush writes the pending rows, or raises when the index refuses one.
  function Flush(s: Session): Option<Session> {
    if UniqueFindings(s.flushed + s.pending) then Some(s.(flushed := s.flushed + s.pending, pending := [])) else None
  }

  // ---------- the dossier ----------

  function IdentityHash(tenant: nat, email: string): Digest { Sha256(Decimal.Str(tenant) + "|" + email) }

  function Add(list: seq<string>, val: string): seq<string> {
    if val != "" && val !in list then list + [val] else list
  }

  function Touch(ids: map<Digest, Identity>, f: Finding, created: bool): map<Digest, Identity> {
    var h := IdentityHash(f.tenant, f.email);
    var ci := if h in ids then ids[h] else Identity(f.tenant, f.email, 0, []);
    ids[h := ci.(leakCount := if created then ci.leakCount + 1 else ci.leakCount, hashes := Add(ci.hashes, f.hash))]
  }

  function UpdateIdentity(s: Session, f: Finding, created: bool): Option<Session> {
    if '@' !in f.email then Some(s) else Flush(s.(identities := Touch(s.identities, f, created)))
  }

  // ---------- one record ----------

  function NewFinding(id: nat, tenant: nat, kind: ExposureKind, d: Detail, ingest: Option<nat>): Finding {
    Finding(id, tenant, kind, DedupKey(tenant, kind, d), EmailOf(d), HashOf(d), ingest)
  }

  // None: the database refused the flush.
  function Persist(s: Session, tenant: nat, kind: ExposureKind, d: Detail, ingest: Option<nat>)
    : Option<(Session, bool)>
  {
    match Find(s.flushed, tenant, DedupKey(tenant, kind, d), |s.flushed|)
    case Some(i) =>
      if kind == IdentityExposure then Some((s, false))
      else
        var t := UpdateIdentity(s, s.flushed[i], false);
        if t.Some? then Some((t.value, false)) else None
    case None =>
      var f := NewFinding(s.nextId, tenant, kind, d, ingest);
      var added := s.(pending := s.pending + [f], nextId := s.nextId + 1);
      if kind == IdentityExposure then Some((added, true))
      else
        var t := UpdateIdentity(added, f, true);
        if t.Some? then Some((t.value, true)) else None
  }

  function Close(db: Db, s: Session, batches: seq<nat>): Option<Db> {
    var t := Flush(s);
    if t.Some? then Some(Db(t.value.flushed, t.value.identities, t.value.nextId, batches)) else None
  }

  // ---------- requests ----------

  datatype Counts = Counts(total: nat, created: nat, deduped: nat, errors: nat)

  function Count(c: Counts, created: bool): Counts {
    if created then c.(total := c.total + 1, created := c.created + 1)
        else c.(total := c.total + 1, deduped := c.deduped + 1)
  }

  // The import after its first n records.
  function ImportTo(db: Db, tenant: nat, recs: seq<Record>, n: nat): Option<(Session, Counts)>
    requires n <= |recs|
  {
    if n == 0 then Some((Open(db), Counts(0, 0, 0, 0)))
    else
      var p := ImportTo(db, tenant, recs, n - 1);
      if p.None? then None else ImportOne(p.value, tenant, recs[n - 1], |db.batches|)
  }

  function ImportOne(p: (Session, Counts), tenant: nat, r: Record, batch: nat): Option<(Session, Counts)> {
    if r.Bad? then Some((p.0, p.1.(total := p.1.total + 1, errors := p.1.errors + 1)))
    else
      var q := Persist(p.0, tenant, r.kind, Redacted(r.items), Some(batch));
      if q.None? then None else Some((q.value.0, Count(p.1, q.value.1)))
  }

  // An import that the database refuses leaves nothing behind.
  function Import(db: Db, tenant: nat, recs: seq<Record>): (Db, Option<Counts>) {
    var p := ImportTo(db, tenant, recs, |recs|);
    if p.None? then (db, None)
    else
      var closed := Close(db, p.value.0, db.batches + [tenant]);
      if closed.None? then (db, None) else (closed.value, Some(p.value.1))
  }

  function Intake(db: Db, tenant: nat, r: Record): (Db, Option<bool>) {
    if r.Bad? then (db, None)
    else
      var p := Persist(Open(db), tenant, r.kind, Redacted(r.items), None);
      if p.None? then (db, None)
      else
        var closed := Close(db, p.value.0, db.batches);
        if closed.None? then (db, None) else (closed.value, Some(p.value.1))
  }

  predicate OfBatch(f: Finding, tenant: nat, batch: nat) { f.tenant == tenant && f.ingest == Some(batch) }

  function Without(fs: seq<Finding>, tenant: nat, batch: nat, n: nat): seq<Finding>
    requires n <= |fs|
  {
    if n == 0 then []
    else if OfBatch(fs[n - 1], tenant, batch) then Without(fs, tenant, batch, n - 1)
    else Without(fs, tenant, batch, n - 1) + [fs[n - 1]]
  }

  // Rolling back a batch deletes its findings and leaves the dossiers as they are; None for a batch not of the tenant.
  function Rollback(db: Db, tenant: nat, batch: nat): (Db, Option<nat>) {
    if batch >= |db.batches| || db.batches[batch] != tenant then (db, None)
    else
      var kept := Without(db.findings, tenant, batch, |db.findings|);
      (db.(findings := kept), Some(if |kept| <= |db.findings| then |db.findings| - |kept| else 0))
  }

  class Exposure {
    var flushed: seq<Finding>
    var pending: seq<Finding>
    var identities: map<Digest, Identity>
    var nextId: nat
    var batches: seq<nat>

    ghost function InSession(): Session reads this { Session(flushed, pending, identities, nextId) }
    ghost function Abs(): Db reads this { Db(flushed, identities, nextId, batches) }

    constructor (db: Db)
      ensures Abs() == db && pending == []
    {
      flushed, pending, identities, nextId, batches := db.findings, [], db.identities, db.nextId, db.batches;
    }

    method SelectByKey(tenant: nat, key: Digest) returns (r: Option<nat>)
      ensures r == Find(flushed, tenant, key, |flushed|)
    {
      for i := 0 to |flushed|
        invariant Find(flushed, tenant, key, |flushed|) == Find(flushed, tenant, key, |flushed| - i)
      {
        var k := |flushed| - 1 - i;
        if flushed[k].tenant == tenant && flushed[k].key == key { return Some(k); }
      }
      return None;
    }

    method FlushSession() returns (ok: bool)
      modifies this`flushed, this`pending
      ensures Flush(old(InSession())) == if ok then Some(InSession()) else None
    {
      if !UniqueFindings(flushed + pending) { return false; }
      flushed, pending := flushed + pending, [];
      return true;
    }

    method UpdateDossier(f: Finding, created: bool) returns (ok: bool)
      modifies this
      ensures UpdateIdentity(old(InSession()), f, created) == if ok then Some(InSession()) else None
      ensures batches == old(batches)
    {
      if '@' !in f.email { return true; }
      var h := IdentityHash(f.tenant, f.email);
      var ci := if h in identities then identities[h] else Identity(f.tenant, f.email, 0, []);
      if created { ci := ci.(leakCount := ci.leakCount + 1); }
      if f.hash != "" { ci := ci.(hashes := Add(ci.hashes, f.hash)); }
      identities := identities[h := ci];
      ok := FlushSession();
    }

    method PersistRecord(tenant: nat, kind: ExposureKind, items: Items, ingest: Option<nat>)
      returns (ok: bool, created: bool)
      modifies this
      ensures Persist(old(InSession()), tenant, kind, Redacted(items), ingest)
           == if ok then Some((InSession(), created)) else None
      ensures batches == old(batches)
    {
      hide UpdateIdentity, DedupKey, EmailOf, HashOf, Find;
      var d := RedactDetail(items);
      var existing := SelectByKey(tenant, DedupKey(tenant, kind, d));
      if existing.Some? {
        ok := true;
        if kind == CredentialExposure { ok := UpdateDossier(flushed[existing.value], false); }
        return ok, false;
      }
      var f := NewFinding(nextId, tenant, kind, d, ingest);
      pending, nextId := pending + [f], nextId + 1;
      ok := true;
      if kind == CredentialExposure { ok := UpdateDossier(f, true); }
      return ok, true;
    }

    method ImportFile(tenant: nat, recs: seq<Record>) returns (r: Option<Counts>)
      requires pending == []
      modifies this
      ensures (Abs(), r) == Import(old(Abs()), tenant, recs) && pending == []
    {
      hide Persist;
      var flushed0, identities0, nextId0 := flushed, identities, nextId;
      var total: nat, created: nat, deduped: nat, errors: nat := 0, 0, 0, 0;
      for n := 0 to |recs|
        invariant batches == old(batches)
        invariant ImportTo(old(Abs()), tenant, recs, n) == Some((InSession(), Counts(total, created, deduped, errors)))
      {
        total := total + 1;
        if recs[n].Bad? {
          errors := errors + 1;
        } else {
          var ok, isNew := PersistRecord(tenant, recs[n].kind, recs[n].items, Some(|batches|));
          if !ok {
            FailsForGood(old(Abs()), tenant, recs, n + 1);
            flushed, pending, identities, nextId := flushed0, [], identities0, nextId0;
            return None;
          }
          if isNew { created := created + 1; } else { deduped := deduped + 1; }
        }
      }
      var ok := FlushSession();
      if !ok {
        flushed, pending, identities, nextId := flushed0, [], identities0, nextId0;
        return None;
      }
      batches := batches + [tenant];
      return Some(Counts(total, created, deduped, errors));
    }

    method RollbackIngest(tenant: nat, batch: nat) returns (removed: Option<nat>)
      modifies this`flushed
      ensures (Abs(), removed) == Rollback(old(Abs()), tenant, batch)
    {
      if batch >= |batches| || batches[batch] != tenant { return None; }
      var kept: seq<Finding>, gone: nat := [], 0;
      for n := 0 to |flushed|
        invariant kept == Without(flushed, tenant, batch, n) && |kept| + gone == n
      {
        if OfBatch(flushed[n], tenant, batch) { gone := gone + 1; } else { kept := kept + [flushed[n]]; }
      }
      flushed := kept;
      return Some(gone);
    }
  }

  // Once refused, the import stays refused.
  lemma {:induction false} FailsForGood(db: Db, tenant: nat, recs: seq<Record>, n: nat)
    requires n <= |recs| && ImportTo(db, tenant, recs, n).None?
    ensures ImportTo(db, tenant, recs, |recs|).None?
    decreases |recs| - n
  {
    hide ImportOne;
    if n < |recs| { FailsForGood(db, tenant, recs, n + 1); }
  }
}
