/** Which test request an update confirms, and from which source (app/collection/service.py, ingest.py). */
module Confirmation {
  import opened Wrappers
  import opened Tables
  import opened Ingest
  import opened Handshake
  import W = Workers
  import Verify
  import opened Hashing

  // A nonce is unique in its tenant.
  ghost predicate UniqueNonces(rs: seq<Request>) {
    forall i, j :: 0 <= i < j < |rs| ==> rs[i].tenant != rs[j].tenant || rs[i].nonce != rs[j].nonce
  }

  // The text carries the request's nonce.
  predicate Carries(u: Update, r: Request) {
    var nonce := Verify.ParseVerifyNonce(u.text);
    nonce.Some? && Verify.NonceHash(nonce.value) == r.nonce
  }

  // The request is of the source's tenant and connection, and names the source or none.
  predicate OfSource(r: Request, s: Source, src: nat) {
    r.tenant == s.tenant && r.connection == s.connection && (r.source == None || r.source == Some(src))
  }

  predicate Open_(r: Request, now: int) {
    r.status == Awaiting && (r.expiresAt == None || now <= r.expiresAt.value)
  }

  predicate Active_(db: Db, src: nat)
    requires src in db.sources
  {
    var s := db.sources[src];
    && s.enabled && !s.deleted && s.status != Revoked
    && s.connection in db.connections && db.connections[s.connection].tenant == s.tenant
    && db.connections[s.connection].enabled && !db.connections[s.connection].deleted
    && db.connections[s.connection].status != Revoked
  }

  ghost predicate HasRow(db: Db, src: nat, u: Update)
    requires src in db.sources
  {
    exists j :: 0 <= j < |db.events| && Indexed(db.events[j], db.sources[src].tenant, src, ReplayKey(u))
  }

  // ---------- the look-up ----------

  // The awaiting request found is the only one that can be.
  lemma FoundIs(rs: seq<Request>, tenant: nat, connection: nat, nonce: Digest, i: nat)
    requires UniqueNonces(rs) && i < |rs| && Awaits(rs[i], tenant, connection, nonce)
    ensures FindAwaiting(rs, tenant, connection, nonce, 0) == Some(i)
  {
    var r := FindAwaiting(rs, tenant, connection, nonce, 0);
    assert r.Some?;
  }

  lemma MatchIff(db: Db, src: nat, u: Update, now: int, i: nat)
    requires src in db.sources && UniqueNonces(db.requests) && i < |db.requests|
    ensures MatchFor(db, src, u, now) == Matched(i)
       <==> Carries(u, db.requests[i]) && OfSource(db.requests[i], db.sources[src], src) && Open_(db.requests[i], now)
  {
    hide Verify.ParseVerifyNonce, FindAwaiting;
    var s, r := db.sources[src], db.requests[i];
    if Carries(u, r) && OfSource(r, s, src) && Open_(r, now) {
      FoundIs(db.requests, s.tenant, s.connection, r.nonce, i);
    }
  }

  // ---------- one ingestion ----------

  lemma NoRowNotFound(db: Db, src: nat, u: Update)
    requires src in db.sources
    ensures HasRow(db, src, u) <==> FindExisting(db.events, db.sources[src].tenant, src, ReplayKey(u)).Some?
  {
  }

  // An ingestion by an active source, meeting no failure, of an update that has no row verifies a request exactly when
  // the text carries its nonce, it is awaiting and not expired, of the source's tenant and connection, and names this
  // source or none.
  lemma VerifiesIff(db: Db, src: nat, u: Update, now: int, i: nat)
    requires src in db.sources && Active_(db, src) && !HasRow(db, src, u) && UniqueNonces(db.requests)
    requires i < |db.requests| && db.requests[i].status != Verified
    ensures var (after, out) := IngestOnce(db, src, u, now, false);
      && |after.requests| == |db.requests|
      && (after.requests[i].status == Verified
          <==> Carries(u, db.requests[i]) && OfSource(db.requests[i], db.sources[src], src)
               && Open_(db.requests[i], now))
      && (after.requests[i].status == Verified ==>
            && after.requests[i] == db.requests[i].(status := Verified, verifiedAt := Some(now))
            && out == ControlStored(|db.events|) && |after.events| == |db.events| + 1
            && after.events[|db.events|].source == src && after.events[|db.events|].state == Control)
  {
    hide MatchFor, FindExisting;
    NoRowNotFound(db, src, u);
    MatchIff(db, src, u, now, i);
  }

  // Only active sources are heard: any other is refused, without a change.
  lemma RefusedIff(db: Db, src: nat, u: Update, now: int, fault: bool)
    requires src in db.sources
    ensures IngestOnce(db, src, u, now, fault).1 == NotAllowed <==> !Active_(db, src)
    ensures !Active_(db, src) ==> IngestOnce(db, src, u, now, fault).0 == db
  {
    hide MatchFor, FindExisting;
  }

  // ---------- runs of atomic ingestions ----------

  // The step confirms request r, of its own source.
  predicate Confirms(s: State, step: Step, r: nat) {
    && step.IngestStep? && step.src in s.db.sources && r < |s.db.requests|
    && Carries(step.u, s.db.requests[r]) && OfSource(s.db.requests[r], s.db.sources[step.src], step.src)
    && Open_(s.db.requests[r], s.now)
  }

  ghost predicate VerifiedAt(s: State, r: nat) { r < |s.db.requests| && s.db.requests[r].status == Verified }

  lemma StepConfirms(s: State, step: Step, r: nat)
    requires !VerifiedAt(s, r) && VerifiedAt(Exec(s, step), r)
    ensures Confirms(s, step, r)
  {
    hide FindExisting, Verify.ParseVerifyNonce;
  }

  // In every run each request that came to be verified was confirmed by an update of its own source.
  lemma {:induction false} VerifiedByOwnSource(s: State, steps: seq<Step>, r: nat) returns (n: nat)
    requires !VerifiedAt(s, r) && VerifiedAt(Run(s, steps), r)
    ensures n < |steps| && Confirms(Run(s, steps[..n]), steps[n], r)
    decreases |steps|
  {
    hide Exec, Confirms;
    var m := |steps| - 1;
    if VerifiedAt(Run(s, steps[..m]), r) {
      n := VerifiedByOwnSource(s, steps[..m], r);
      assert steps[..m][..n] == steps[..n];
    } else {
      n := m;
      StepConfirms(Run(s, steps[..m]), steps[m], r);
    }
  }

  // ---------- interleaved workers ----------

  // A plan to confirm is about a request of the source, whose nonce the update carries.
  ghost predicate PlanConfirms(s: W.System, x: W.Worker)
    requires x.Busy?
  {
    x.plan.Some? && x.plan.value.Confirm? ==>
      && x.k < |x.batch| && x.batch[x.k].ref in x.active
      && var u := x.batch[x.k];
      && x.active[u.ref] in s.db.sources && x.plan.value.request < |s.db.requests|
      && Carries(u, s.db.requests[x.plan.value.request])
      && OfSource(s.db.requests[x.plan.value.request], s.db.sources[x.active[u.ref]], x.active[u.ref])
  }

  ghost predicate PlansConfirm(s: W.System) {
    forall w :: w in s.workers && s.workers[w].Busy? ==> PlanConfirms(s, s.workers[w])
  }

  // What is fixed of requests and sources.
  ghost predicate Fixed(s: W.System, t: W.System) {
    && |s.db.requests| <= |t.db.requests|
    && (forall r :: 0 <= r < |s.db.requests| ==> SameRequest(s.db.requests[r], t.db.requests[r]))
    && (forall src :: src in s.db.sources ==> src in t.db.sources && SameSource(s.db.sources[src], t.db.sources[src]))
  }

  predicate SameRequest(r: Request, q: Request) {
    r.tenant == q.tenant && r.connection == q.connection && r.source == q.source && r.nonce == q.nonce
  }

  predicate SameSource(s: Source, t: Source) { s.tenant == t.tenant && s.connection == t.connection }

  lemma ExecFixes(s: W.System, step: W.Step)
    ensures Fixed(s, W.Exec(s, step))
  {
    hide Decide, FindExisting, W.Position, W.IsActiveMap;
  }

  lemma FixedConfirms(s: W.System, t: W.System, x: W.Worker)
    requires x.Busy? && PlanConfirms(s, x) && Fixed(s, t)
    ensures PlanConfirms(t, x)
  {
    hide Verify.ParseVerifyNonce;
  }

  lemma DecisionConfirms(db: Db, src: nat, u: Update, now: int)
    requires src in db.sources && Decide(db, src, u, now).Confirm?
    ensures var r := Decide(db, src, u, now).request;
      r < |db.requests| && Carries(u, db.requests[r]) && OfSource(db.requests[r], db.sources[src], src)
  {
    hide Verify.ParseVerifyNonce, FindExisting;
  }

  // A worker's plan to confirm stays, or was just made.
  lemma PlanAfter(s: W.System, step: W.Step, w: nat)
    requires PlansConfirm(s) && w in W.Exec(s, step).workers && W.Exec(s, step).workers[w].Busy?
    requires W.Exec(s, step).workers[w].plan.Some? && W.Exec(s, step).workers[w].plan.value.Confirm?
    ensures var x := W.Exec(s, step).workers[w];
      || (w in s.workers && s.workers[w] == x)
      || (W.BusyAt(s, w) && var u := s.workers[w].batch[s.workers[w].k];
          && u.ref in s.workers[w].active && s.workers[w].active[u.ref] in s.db.sources
          && x == s.workers[w].(plan := Some(Decide(s.db, s.workers[w].active[u.ref], u, s.now)))
          && W.Exec(s, step).db == s.db)
  {
    hide Decide, Commit, W.Position, W.IsActiveMap, Carries, OfSource;
    if w in s.workers && s.workers[w].Busy? {
      assert PlanConfirms(s, s.workers[w]);
    }
  }

  lemma ExecConfirms(s: W.System, step: W.Step)
    requires PlansConfirm(s)
    ensures PlansConfirm(W.Exec(s, step))
  {
    hide W.Exec, Decide, Fixed, OfSource, Carries;
    var t := W.Exec(s, step);
    ExecFixes(s, step);
    forall w | w in t.workers && t.workers[w].Busy?
      ensures PlanConfirms(t, t.workers[w])
    {
      var x := t.workers[w];
      if x.plan.Some? && x.plan.value.Confirm? { PlanAfter(s, step, w); }
      if w in s.workers && s.workers[w] == x {
        FixedConfirms(s, t, x);
      } else if x.plan.Some? && x.plan.value.Confirm? {
        DecisionConfirms(s.db, x.active[x.batch[x.k].ref], x.batch[x.k], s.now);
      }
    }
  }

  lemma {:induction false} RunConfirms(s: W.System, steps: seq<W.Step>)
    requires PlansConfirm(s)
    ensures PlansConfirm(W.Run(s, steps))
    decreases |steps|
  {
    if steps != [] {
      hide W.Exec, PlansConfirm;
      RunConfirms(s, steps[..|steps| - 1]);
      ExecConfirms(W.Run(s, steps[..|steps| - 1]), steps[|steps| - 1]);
    }
  }

  ghost predicate VerifiedIn(s: W.System, r: nat) { r < |s.db.requests| && s.db.requests[r].status == Verified }

  // The step commits worker w's plan to confirm r, read from an update that carries its nonce, at a source of its own.
  ghost predicate Commits(s: W.System, step: W.Step, r: nat) {
    && step.Write? && W.BusyAt(s, step.w) && r < |s.db.requests|
    && var x := s.workers[step.w];
    var u := x.batch[x.k];
    && u.ref in x.active && x.active[u.ref] in s.db.sources
    && Carries(u, s.db.requests[r]) && OfSource(s.db.requests[r], s.db.sources[x.active[u.ref]], x.active[u.ref])
  }

  lemma WriteCommits(s: W.System, step: W.Step, r: nat)
    requires PlansConfirm(s) && !VerifiedIn(s, r) && VerifiedIn(W.Exec(s, step), r)
    ensures Commits(s, step, r)
  {
    hide Decide, FindExisting, W.Position, W.IsActiveMap, Carries, OfSource;
    if step.Write? && W.BusyAt(s, step.w) {
      assert PlanConfirms(s, s.workers[step.w]);
    }
  }

  // However the workers interleave: each request that came to be verified was confirmed at a source of its own.
  lemma {:induction false} VerifiedByOwnSourceOfAny(s: W.System, steps: seq<W.Step>, r: nat) returns (n: nat)
    requires PlansConfirm(s) && !VerifiedIn(s, r) && VerifiedIn(W.Run(s, steps), r)
    ensures n < |steps| && Commits(W.Run(s, steps[..n]), steps[n], r)
    decreases |steps|
  {
    hide W.Exec, Commits, PlansConfirm;
    var m := |steps| - 1;
    if VerifiedIn(W.Run(s, steps[..m]), r) {
      n := VerifiedByOwnSourceOfAny(s, steps[..m], r);
      assert steps[..m][..n] == steps[..n];
    } else {
      n := m;
      RunConfirms(s, steps[..m]);
      WriteCommits(W.Run(s, steps[..m]), steps[m], r);
    }
  }
}
