/** TF-VERIFY handshakes: control events against verified requests (app/collection/ingest.py, service.py). */
module Handshake {
  import opened Wrappers
  import opened Tables
  import opened Ingest

  function Controls(events: seq<Event>): nat {
    if events == [] then 0
    else Controls(events[..|events| - 1]) + if events[|events| - 1].state == Control then 1 else 0
  }

  function Verifieds(rs: seq<Request>): nat {
    if rs == [] then 0
    else Verifieds(rs[..|rs| - 1]) + if rs[|rs| - 1].status == Verified then 1 else 0
  }

  // Control events beyond the verified requests.
  function Surplus(db: Db): int { Controls(db.events) - Verifieds(db.requests) }

  lemma ControlsAppend(events: seq<Event>, e: Event)
    ensures Controls(events + [e]) == Controls(events) + if e.state == Control then 1 else 0
  {
    assert (events + [e])[..|events|] == events;
  }

  lemma VerifiedsAppend(rs: seq<Request>, r: Request)
    ensures Verifieds(rs + [r]) == Verifieds(rs) + if r.status == Verified then 1 else 0
  {
    assert (rs + [r])[..|rs|] == rs;
  }

  lemma {:induction false} VerifiedsUpdate(rs: seq<Request>, i: nat, r: Request)
    requires i < |rs|
    ensures Verifieds(rs[i := r])
         == Verifieds(rs) - (if rs[i].status == Verified then 1 else 0) + (if r.status == Verified then 1 else 0)
    decreases |rs|
  {
    var n := |rs| - 1;
    if i == n {
      assert rs[i := r][..n] == rs[..n];
    } else {
      assert rs[i := r][..n] == rs[..n][i := r];
      VerifiedsUpdate(rs[..n], i, r);
    }
  }

  // The request a plan is about to write to.
  function Touched(p: Plan): Option<nat> {
    match p
    case Confirm(r) => Some(r)
    case Reject(lapsed) => lapsed
    case Insert(_, _, lapsed) => lapsed
    case _ => None
  }

  ghost predicate InBounds(db: Db, p: Plan) { Touched(p).Some? ==> Touched(p).value < |db.requests| }

  // The plan was made while a request was open, and meets it verified.
  predicate Stale(db: Db, p: Plan) {
    Touched(p).Some? && Touched(p).value < |db.requests| && db.requests[Touched(p).value].status == Verified
  }

  predicate Wrote(out: Outcome) { out.Stored? || out.ControlStored? || out.RejectionStored? }

  // Every commit keeps the balance, except one that writes to a request already verified.
  lemma CommitBalance(db: Db, src: nat, u: Update, p: Plan, now: int, fault: bool)
    requires src in db.sources && InBounds(db, p)
    ensures var (after, out) := Commit(db, src, u, p, now, fault);
      Surplus(after) == Surplus(db) + if Wrote(out) && Stale(db, p) then 1 else 0
  {
    var (after, out) := Commit(db, src, u, p, now, fault);
    if Wrote(out) {
      ControlsAppend(db.events, RowOf(db, src, u, p, now));
      if Touched(p).Some? {
        var i := Touched(p).value;
        VerifiedsUpdate(db.requests, i, after.requests[i]);
      }
    }
  }

  lemma DecisionIsFresh(db: Db, src: nat, u: Update, now: int)
    requires src in db.sources
    ensures InBounds(db, Decide(db, src, u, now)) && !Stale(db, Decide(db, src, u, now))
  {
  }

  // ---------- runs of atomic ingestions ----------

  datatype State = State(db: Db, now: int)

  // Opening stores a fresh awaiting request (its nonce is unique in the tenant); an
  // administrator may rewrite connections and sources at will; time only goes forward.
  datatype Step =
    | IngestStep(src: nat, u: Update, fault: bool)
    | Open(request: Request)
    | Administer(connections: map<nat, Connection>, sources: map<nat, Source>)
    | Tick(seconds: nat)

  predicate Openable(db: Db, r: Request) {
    && r.status == Awaiting && r.verifiedAt.None?
    && forall i :: 0 <= i < |db.requests| ==> db.requests[i].tenant != r.tenant || db.requests[i].nonce != r.nonce
  }

  function Exec(s: State, step: Step): State {
    match step
    case IngestStep(src, u, fault) =>
      if src in s.db.sources then s.(db := IngestOnce(s.db, src, u, s.now, fault).0) else s
    case Open(r) => if Openable(s.db, r) then s.(db := s.db.(requests := s.db.requests + [r])) else s
    case Administer(cs, ss) => s.(db := s.db.(connections := cs, sources := ss))
    case Tick(d) => s.(now := s.now + d)
  }

  function Run(s: State, steps: seq<Step>): State {
    if steps == [] then s else Exec(Run(s, steps[..|steps| - 1]), steps[|steps| - 1])
  }

  ghost predicate VerifiedInTime(rs: seq<Request>) {
    forall i :: 0 <= i < |rs| && rs[i].status == Verified ==>
      rs[i].verifiedAt.Some? && Unexpired(rs[i], rs[i].verifiedAt.value)
  }

  ghost predicate Inv(s: State) {
    && Surplus(s.db) == 0
    && UniqueKeys(s.db.events)
    && VerifiedInTime(s.db.requests)
    && ControlsAreMarked(s.db.events)
  }

  // A fresh commit verifies a request that is still open and unexpired.
  lemma IngestVerifiesInTime(db: Db, src: nat, u: Update, now: int, fault: bool)
    requires src in db.sources && VerifiedInTime(db.requests)
    ensures VerifiedInTime(IngestOnce(db, src, u, now, fault).0.requests)
  {
  }

  ghost predicate ControlsAreMarked(events: seq<Event>) {
    forall i :: 0 <= i < |events| ==> (events[i].isControl <==> events[i].state == Control)
  }

  lemma IngestMarksControls(db: Db, src: nat, u: Update, now: int, fault: bool)
    requires src in db.sources && ControlsAreMarked(db.events)
    ensures ControlsAreMarked(IngestOnce(db, src, u, now, fault).0.events)
  {
  }

  lemma IngestKeepsInv(s: State, src: nat, u: Update, fault: bool)
    requires Inv(s) && src in s.db.sources
    ensures Inv(Exec(s, IngestStep(src, u, fault)))
  {
    hide Decide, Commit, FindExisting;
    var p := Decide(s.db, src, u, s.now);
    DecisionIsFresh(s.db, src, u, s.now);
    CommitBalance(s.db, src, u, p, s.now, fault);
    CommitKeepsUniqueKeys(s.db, src, u, p, s.now, fault);
    IngestVerifiesInTime(s.db, src, u, s.now, fault);
    IngestMarksControls(s.db, src, u, s.now, fault);
  }

  lemma ExecKeepsInv(s: State, step: Step)
    requires Inv(s)
    ensures Inv(Exec(s, step))
  {
    hide Decide, Commit, FindExisting;
    match step
    case IngestStep(src, u, fault) =>
      if src in s.db.sources {
        IngestKeepsInv(s, src, u, fault);
      }
    case Open(r) => VerifiedsAppend(s.db.requests, r);
    case _ =>
  }

  // As many control events as verified requests in every reachable state, none verified after it expired.
  lemma {:induction false} Conservation(s: State, steps: seq<Step>)
    requires Inv(s)
    ensures Inv(Run(s, steps))
    decreases |steps|
  {
    if steps != [] {
      Conservation(s, steps[..|steps| - 1]);
      ExecKeepsInv(Run(s, steps[..|steps| - 1]), steps[|steps| - 1]);
    }
  }

  // Each step verifies at most one request, it was open, and a control event is stored with it.
  lemma StepVerifies(s: State, step: Step, r: nat)
    requires r < |s.db.requests|
    requires Exec(s, step).db.requests[r].status == Verified && s.db.requests[r].status != Verified
    ensures s.db.requests[r].status == Awaiting && Unexpired(s.db.requests[r], s.now)
    ensures Exec(s, step).db.events[..|s.db.events|] == s.db.events
    ensures |Exec(s, step).db.events| == |s.db.events| + 1 && Exec(s, step).db.events[|s.db.events|].state == Control
    ensures forall i :: 0 <= i < |s.db.requests| && i != r ==> Exec(s, step).db.requests[i] == s.db.requests[i]
  {
  }

  // A verified request is never written again.
  lemma {:induction false} VerifiedOnce(s: State, steps: seq<Step>, r: nat)
    requires r < |s.db.requests| && s.db.requests[r].status == Verified
    ensures |Run(s, steps).db.requests| >= |s.db.requests| && Run(s, steps).db.requests[r] == s.db.requests[r]
    decreases |steps|
  {
    if steps != [] {
      VerifiedOnce(s, steps[..|steps| - 1], r);
      var mid, step := Run(s, steps[..|steps| - 1]), steps[|steps| - 1];
      if step.IngestStep? && step.src in mid.db.sources {
        DecisionIsFresh(mid.db, step.src, step.u, mid.now);
      }
    }
  }
}
