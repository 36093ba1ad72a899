/**
 The durable outbox: the idempotency key (app/collection/outbox.py) and enqueueing
 (enqueue_alert in app/collection/service.py).  The checks and the insertion are two
 steps, since another caller's insertion may come between them.
 */
module Outbox {
  import opened Wrappers
  import opened Hashing
  import opened Text
  import Decimal

  // ---------- the key ----------

  function Material(tenant: nat, finding: nat, channel: nat, template: string, version: string): string {
    "v1" + "|" + (Decimal.Str(tenant) + "|"
    + (Decimal.Str(finding) + "|" + (Decimal.Str(channel) + "|" + (template + "|" + version))))
  }

  lemma MaterialAgreesIff(t1: nat, f1: nat, c1: nat, n1: string, v1: string,
                          t2: nat, f2: nat, c2: nat, n2: string, v2: string)
    ensures Material(t1, f1, c1, n1, v1) == Material(t2, f2, c2, n2, v2)
       <==> (t1, f1, c1) == (t2, f2, c2) && n1 + "|" + v1 == n2 + "|" + v2
  {
    if Material(t1, f1, c1, n1, v1) == Material(t2, f2, c2, n2, v2) {
      var m1, m2 := n1 + "|" + v1, n2 + "|" + v2;
      var x1, x2 := Decimal.Str(c1) + "|" + m1, Decimal.Str(c2) + "|" + m2;
      var y1, y2 := Decimal.Str(f1) + "|" + x1, Decimal.Str(f2) + "|" + x2;
      CutUnique("v1", Decimal.Str(t1) + "|" + y1, "v1", Decimal.Str(t2) + "|" + y2, '|');
      CutUnique(Decimal.Str(t1), y1, Decimal.Str(t2), y2, '|');
      CutUnique(Decimal.Str(f1), x1, Decimal.Str(f2), x2, '|');
      CutUnique(Decimal.Str(c1), m1, Decimal.Str(c2), m2, '|');
      Decimal.StrInjective(t1, t2);
      Decimal.StrInjective(f1, f2);
      Decimal.StrInjective(c1, c2);
    }
  }

  // What a caller asks for; `clean` says whether the payload passes the closed payload contract.
  datatype Request = Request(tenant: nat, channel: nat, finding: nat, template: string, version: string, clean: bool)

  function DedupKey(q: Request): Digest {
    Sha256(Material(q.tenant, q.finding, q.channel, q.template, q.version))
  }

  predicate SameAlert(q: Request, r: Request) {
    q.tenant == r.tenant && q.finding == r.finding && q.channel == r.channel && q.template == r.template
        && q.version == r.version
  }

  // Template names without the separator make the key tell every two alerts apart.
  lemma KeyInjective(q: Request, r: Request)
    requires '|' !in q.template && '|' !in r.template
    ensures DedupKey(q) == DedupKey(r) <==> SameAlert(q, r)
  {
    MaterialAgreesIff(q.tenant, q.finding, q.channel, q.template, q.version,
                      r.tenant, r.finding, r.channel, r.template, r.version);
    if q.template + "|" + q.version == r.template + "|" + r.version {
      CutUnique(q.template, q.version, r.template, r.version, '|');
    }
  }

  // With a separator in the template, every place it could be cut at shares one key.
  lemma SeparatorInTemplateCollides(q: Request, a: string, b: string)
    requires q.template == a + "|" + b
    ensures var r := q.(template := a, version := b + "|" + q.version);
      DedupKey(q) == DedupKey(r) && !SameAlert(q, r)
  {
    assert q.template + "|" + q.version == a + "|" + (b + "|" + q.version);
    assert |a| < |q.template|;
  }

  // ---------- tables ----------

  // `complete` says that the channel type's required configuration and secrets are present.
  datatype Channel = Channel(tenant: nat, enabled: bool, deleted: bool, complete: bool)
  datatype FindingRef = FindingRef(tenant: nat, deleted: bool)
  datatype Status = Pending | Sending | Delivered | Failed | DeadLetter
  datatype Row = Row(tenant: nat, channel: nat, finding: Option<nat>, key: Digest, status: Status)

  // Ids are indices; deleting a finding marks it and clears the rows' references.
  datatype Db = Db(channels: seq<Channel>, findings: seq<FindingRef>, rows: seq<Row>)

  datatype Error = PayloadRefused | ChannelNotFound | ChannelTenantMismatch | ChannelNotReady
                 | FindingNotFound | FindingTenantMismatch | IntegrityError

  datatype Answer = Answer(created: bool, id: nat, status: Status)

  datatype Plan = Refuse(error: Error) | Existing(answer: Answer) | Insert(row: Row)

  ghost predicate UniqueKeys(rows: seq<Row>) {
    forall i, j :: 0 <= i < j < |rows| ==> rows[i].key != rows[j].key
  }

  function FindRow(rows: seq<Row>, key: Digest, n: nat): (r: Option<nat>)
    requires n <= |rows|
    ensures r.Some? ==> r.value < n && rows[r.value].key == key
    ensures r.None? ==> forall i :: 0 <= i < n ==> rows[i].key != key
  {
    if n == 0 then None else if rows[n - 1].key == key then Some(n - 1) else FindRow(rows, key, n - 1)
  }

  // ---------- checking, then inserting ----------

  function CheckChannel(db: Db, q: Request): (e: Option<Error>)
    ensures e.None? <==> q.channel < |db.channels| && var c := db.channels[q.channel];
      c.tenant == q.tenant && c.enabled && c.complete && !c.deleted
  {
    if q.channel >= |db.channels| || db.channels[q.channel].deleted then Some(ChannelNotFound)
    else if db.channels[q.channel].tenant != q.tenant then Some(ChannelTenantMismatch)
    else if !db.channels[q.channel].enabled || !db.channels[q.channel].complete then Some(ChannelNotReady)
    else None
  }

  function CheckFinding(db: Db, q: Request): (e: Option<Error>)
    ensures e.None? <==> q.finding < |db.findings| && db.findings[q.finding] == FindingRef(q.tenant, false)
  {
    if q.finding >= |db.findings| || db.findings[q.finding].deleted then Some(FindingNotFound)
    else if db.findings[q.finding].tenant != q.tenant then Some(FindingTenantMismatch)
    else None
  }

  function RowFor(q: Request): Row { Row(q.tenant, q.channel, Some(q.finding), DedupKey(q), Pending) }

  function Check(db: Db, q: Request): Plan {
    var c, f := CheckChannel(db, q), CheckFinding(db, q);
    if !q.clean then Refuse(PayloadRefused)
    else if c.Some? then Refuse(c.value)
    else if f.Some? then Refuse(f.value)
    else
      var i := FindRow(db.rows, DedupKey(q), |db.rows|);
      if i.Some? then Existing(Answer(false, i.value, db.rows[i.value].status)) else Insert(RowFor(q))
  }

  // The unique index or a foreign key may refuse the row by now.
  function Commit(db: Db, p: Plan): (Db, Result<Answer, Error>) {
    match p
    case Refuse(e) => (db, Err(e))
    case Existing(a) => (db, Ok(a))
    case Insert(row) =>
      var i := FindRow(db.rows, row.key, |db.rows|);
      if i.Some? then (db, Ok(Answer(false, i.value, db.rows[i.value].status)))
      else if row.finding.Some? && (row.finding.value >= |db.findings| || db.findings[row.finding.value].deleted)
          then (db, Err(IntegrityError))
      else (db.(rows := db.rows + [row]), Ok(Answer(true, |db.rows|, Pending)))
  }

  // ---------- what a call promises ----------

  // The errors, in their order.
  lemma CheckRefuses(db: Db, q: Request)
    ensures var p := Check(db, q);
      var here := q.channel < |db.channels| && !db.channels[q.channel].deleted;
      var ready := here && db.channels[q.channel].tenant == q.tenant
                   && db.channels[q.channel].enabled && db.channels[q.channel].complete;
      var known := q.finding < |db.findings| && !db.findings[q.finding].deleted;
      && (p == Refuse(PayloadRefused) <==> !q.clean)
      && (p == Refuse(ChannelNotFound) <==> q.clean && !here)
      && (p == Refuse(ChannelTenantMismatch) <==> q.clean && here && db.channels[q.channel].tenant != q.tenant)
      && (p == Refuse(ChannelNotReady) <==> q.clean && here && db.channels[q.channel].tenant == q.tenant && !ready)
      && (p == Refuse(FindingNotFound) <==> q.clean && ready && !known)
      && (p == Refuse(FindingTenantMismatch) <==>
            q.clean && ready && known && db.findings[q.finding].tenant != q.tenant)
      && (!p.Refuse? <==> q.clean && ready && known && db.findings[q.finding].tenant == q.tenant)
      && p != Refuse(IntegrityError)
  {
    hide DedupKey;
  }

  // A check that passes either names the row of the key with the status it has, or plans a pending row of the request.
  lemma CheckReads(db: Db, q: Request)
    ensures var p := Check(db, q);
      && (p.Existing? ==>
            && !p.answer.created && p.answer.id < |db.rows|
            && db.rows[p.answer.id].key == DedupKey(q) && p.answer.status == db.rows[p.answer.id].status)
      && (p.Insert? ==>
            && p.row == Row(q.tenant, q.channel, Some(q.finding), DedupKey(q), Pending)
            && forall i :: 0 <= i < |db.rows| ==> db.rows[i].key != DedupKey(q))
  {
    hide DedupKey;
  }

  // An insertion is answered as created exactly when it added the row; otherwise nothing changed, and the answer names
  // the row of the key with the status it has, or the finding is gone.
  lemma InsertAnswers(db: Db, row: Row)
    ensures var (after, r) := Commit(db, Insert(row));
      && (r.Ok? ==>
            && r.value.id < |after.rows| && after.rows[r.value.id].key == row.key
            && r.value.status == (if r.value.created then Pending else after.rows[r.value.id].status))
      && (r.Ok? && r.value.created <==> after.rows == db.rows + [row])
      && (r.Ok? && r.value.created ==> r.value.id == |db.rows| && after == db.(rows := after.rows))
      && (r.Ok? && r.value.created ==> forall i :: 0 <= i < |db.rows| ==> db.rows[i].key != row.key)
      && (!(r.Ok? && r.value.created) ==> after == db)
      && (r.Err? ==> r.error == IntegrityError)
      && (r.Err? <==>
            && (forall i :: 0 <= i < |db.rows| ==> db.rows[i].key != row.key)
            && row.finding != None
            && (row.finding.value >= |db.findings| || db.findings[row.finding.value].deleted))
  {
    var after := Commit(db, Insert(row)).0;
    assert after.rows == db.rows ==> |after.rows| != |db.rows + [row]|;
  }

  // One call from check to commit: created exactly when a row was added, the row the request asks for; the answer is
  // that of the row of the key and gives the status the row has.
  lemma EnqueueAnswers(db: Db, q: Request)
    ensures var (after, r) := Commit(db, Check(db, q));
      && (r.Ok? ==>
            && r.value.id < |after.rows| && after.rows[r.value.id].key == DedupKey(q)
            && r.value.status == after.rows[r.value.id].status
            && (r.value.created <==> |after.rows| == |db.rows| + 1)
            && (r.value.created ==>
                  after.rows == db.rows + [Row(q.tenant, q.channel, Some(q.finding), DedupKey(q), Pending)])
            && (!r.value.created ==> after == db))
      && (r.Err? ==> after == db)
  {
    hide DedupKey, Check, Commit;
    CheckReads(db, q);
    var p := Check(db, q);
    if p.Insert? { InsertAnswers(db, p.row); } else { CommitOther(db, p); }
  }

  lemma CommitOther(db: Db, p: Plan)
    requires !p.Insert?
    ensures Commit(db, p) == (db, if p.Refuse? then Err(p.error) else Ok(p.answer))
  {
  }

  class AlertOutbox {
    var channels: seq<Channel>
    var findings: seq<FindingRef>
    var rows: seq<Row>

    ghost function Abs(): Db reads this { Db(channels, findings, rows) }

    constructor (db: Db)
      ensures Abs() == db
    {
      channels, findings, rows := db.channels, db.findings, db.rows;
    }

    method SelectByKey(key: Digest) returns (r: Option<nat>)
      ensures r == FindRow(rows, key, |rows|)
    {
      for i := 0 to |rows|
        invariant FindRow(rows, key, |rows|) == FindRow(rows, key, |rows| - i)
      {
        if rows[|rows| - 1 - i].key == key { return Some(|rows| - 1 - i); }
      }
      return None;
    }

    method CheckAlert(q: Request) returns (p: Plan)
      ensures p == Check(Abs(), q)
    {
      if !q.clean { return Refuse(PayloadRefused); }
      if q.channel >= |channels| || channels[q.channel].deleted { return Refuse(ChannelNotFound); }
      if channels[q.channel].tenant != q.tenant { return Refuse(ChannelTenantMismatch); }
      if !channels[q.channel].enabled || !channels[q.channel].complete { return Refuse(ChannelNotReady); }
      if q.finding >= |findings| || findings[q.finding].deleted { return Refuse(FindingNotFound); }
      if findings[q.finding].tenant != q.tenant { return Refuse(FindingTenantMismatch); }
      var i := SelectByKey(DedupKey(q));
      if i.Some? { return Existing(Answer(false, i.value, rows[i.value].status)); }
      return Insert(RowFor(q));
    }

    method InsertRow(row: Row) returns (r: Result<Answer, Error>)
      modifies this`rows
      ensures (Abs(), r) == Commit(old(Abs()), Insert(row))
    {
      var i := SelectByKey(row.key);
      if i.Some? { return Ok(Answer(false, i.value, rows[i.value].status)); }
      if row.finding.Some? && (row.finding.value >= |findings| || findings[row.finding.value].deleted) {
        return Err(IntegrityError);
      }
      rows := rows + [row];
      return Ok(Answer(true, |rows| - 1, Pending));
    }

    method EnqueueAlert(q: Request) returns (r: Result<Answer, Error>)
      modifies this`rows
      ensures (Abs(), r) == Commit(old(Abs()), Check(old(Abs()), q))
    {
      var p := CheckAlert(q);
      match p
      case Refuse(e) => return Err(e);
      case Existing(a) => return Ok(a);
      case Insert(row) => r := InsertRow(row);
    }
  }

  // ---------- runs ----------

  datatype Pair = Pair(request: Request, answer: Answer) {
    function Id(): nat { answer.id }
  }

  // `plans` are the calls between check and insertion, `answers` what every call so far was told.
  datatype State = State(db: Db, plans: map<nat, (Request, Plan)>, answers: seq<Pair>)

  datatype Step =
    | Begin(caller: nat, request: Request)
    | Finish(caller: nat)
    | Abandon(caller: nat)
    | AddChannel(channel: Channel)
    | SetChannel(id: nat, enabled: bool, deleted: bool, complete: bool)
    | AddFinding(tenant: nat)
    | DeleteFinding(id: nat)
    | SetStatus(row: nat, status: Status)

  // ON DELETE SET NULL
  function UnlinkRow(row: Row, finding: nat): Row {
    if row.finding == Some(finding) then row.(finding := None) else row
  }

  function Unlink(rows: seq<Row>, finding: nat): (r: seq<Row>)
    ensures |r| == |rows|
    ensures forall i :: 0 <= i < |rows| ==> r[i] == UnlinkRow(rows[i], finding)
  {
    seq(|rows|, i requires 0 <= i < |rows| => UnlinkRow(rows[i], finding))
  }

  function Exec(s: State, step: Step): State {
    match step
    case Begin(c, q) => s.(plans := s.plans[c := (q, Check(s.db, q))])
    case Finish(c) =>
      if c !in s.plans then s
      else
        var (db, r) := Commit(s.db, s.plans[c].1);
        State(db, s.plans - {c}, if r.Ok? then s.answers + [Pair(s.plans[c].0, r.value)] else s.answers)
    case Abandon(c) => s.(plans := s.plans - {c})
    case AddChannel(ch) => s.(db := s.db.(channels := s.db.channels + [ch]))
    case SetChannel(i, enabled, deleted, complete) =>
      if i < |s.db.channels| then
        var channel := s.db.channels[i].(enabled := enabled, deleted := deleted, complete := complete);
        s.(db := s.db.(channels := s.db.channels[i := channel]))
      else s
    case AddFinding(t) => s.(db := s.db.(findings := s.db.findings + [FindingRef(t, false)]))
    case DeleteFinding(i) =>
      if i < |s.db.findings| then
        s.(db := s.db.(findings := s.db.findings[i := s.db.findings[i].(deleted := true)],
            rows := Unlink(s.db.rows, i)))
      else s
    case SetStatus(i, st) =>
      if i < |s.db.rows| then s.(db := s.db.(rows := s.db.rows[i := s.db.rows[i].(status := st)])) else s
  }

  function Run(s: State, steps: seq<Step>): State {
    if steps == [] then s else Exec(Run(s, steps[..|steps| - 1]), steps[|steps| - 1])
  }

  // A row's channel and finding belong to its tenant.
  predicate RowFits(r: Row, db: Db) {
    && r.channel < |db.channels| && db.channels[r.channel].tenant == r.tenant
    && (r.finding.Some? ==> r.finding.value < |db.findings| && db.findings[r.finding.value].tenant == r.tenant)
  }

  predicate Answered(rows: seq<Row>, q: Request, id: nat) { id < |rows| && rows[id].key == DedupKey(q) }

  predicate PlanFits(q: Request, p: Plan, db: Db) {
    match p
    case Refuse(_) => true
    case Existing(a) => Answered(db.rows, q, a.id)
    case Insert(row) => row == RowFor(q) && RowFits(row, db)
  }

  ghost predicate Inv(s: State) {
    && UniqueKeys(s.db.rows)
    && (forall i :: 0 <= i < |s.db.rows| ==> RowFits(s.db.rows[i], s.db))
    && (forall c :: c in s.plans ==> PlanFits(s.plans[c].0, s.plans[c].1, s.db))
    && (forall k :: 0 <= k < |s.answers| ==> Answered(s.db.rows, s.answers[k].request, s.answers[k].Id()))
  }

  // Tables only grow, and neither a row's key nor anyone's tenant changes.
  ghost predicate Extends(db: Db, later: Db) {
    && |db.channels| <= |later.channels| && |db.findings| <= |later.findings| && |db.rows| <= |later.rows|
    && (forall i :: 0 <= i < |db.channels| ==> later.channels[i].tenant == db.channels[i].tenant)
    && (forall i :: 0 <= i < |db.findings| ==> later.findings[i].tenant == db.findings[i].tenant)
    && (forall i :: 0 <= i < |db.rows| ==> later.rows[i].key == db.rows[i].key)
  }

  lemma ExecExtends(s: State, step: Step)
    ensures Extends(s.db, Exec(s, step).db)
  {
    hide DedupKey, Check;
  }

  lemma CheckFits(db: Db, q: Request)
    ensures PlanFits(q, Check(db, q), db)
  {
    hide DedupKey;
  }

  lemma RowsKeep(s: State, step: Step)
    requires Inv(s)
    ensures var db := Exec(s, step).db;
      UniqueKeys(db.rows) && forall i :: 0 <= i < |db.rows| ==> RowFits(db.rows[i], db)
  {
    hide DedupKey, Check;
  }

  lemma AnswerKeeps(s: State, step: Step)
    requires Inv(s)
    ensures var t := Exec(s, step);
      forall k :: 0 <= k < |t.answers| ==> Answered(t.db.rows, t.answers[k].request, t.answers[k].Id())
  {
    hide DedupKey, Check;
    ExecExtends(s, step);
  }

  lemma PlansKeep(s: State, step: Step)
    requires Inv(s)
    ensures var t := Exec(s, step); forall c :: c in t.plans ==> PlanFits(t.plans[c].0, t.plans[c].1, t.db)
  {
    hide DedupKey, Check, Commit;
    ExecExtends(s, step);
    if step.Begin? { CheckFits(s.db, step.request); }
  }

  // One row per key, every row within one tenant, and every answer names the row of its key, in every run.
  lemma {:induction false} OutboxInvariant(s: State, steps: seq<Step>)
    requires Inv(s)
    ensures Inv(Run(s, steps))
    decreases |steps|
  {
    if steps != [] {
      var n := |steps| - 1;
      OutboxInvariant(s, steps[..n]);
      RowsKeep(Run(s, steps[..n]), steps[n]);
      AnswerKeeps(Run(s, steps[..n]), steps[n]);
      PlansKeep(Run(s, steps[..n]), steps[n]);
    }
  }

  // Any two calls of a run that got an answer got the same row exactly when they asked for the same alert.
  lemma SameRowIff(steps: seq<Step>, i: nat, j: nat)
    requires var s := Run(State(Db([], [], []), map[], []), steps);
      && i < |s.answers| && j < |s.answers|
      && '|' !in s.answers[i].request.template && '|' !in s.answers[j].request.template
    ensures var s := Run(State(Db([], [], []), map[], []), steps);
      s.answers[i].Id() == s.answers[j].Id() <==> SameAlert(s.answers[i].request, s.answers[j].request)
  {
    hide Run, DedupKey;
    OutboxInvariant(State(Db([], [], []), map[], []), steps);
    var s := Run(State(Db([], [], []), map[], []), steps);
    KeyInjective(s.answers[i].request, s.answers[j].request);
  }

  // ---------- who is told that the row was created ----------

  // The k-th answer says that row id was created.
  ghost predicate Creates(answers: seq<Pair>, k: nat, id: nat) {
    k < |answers| && answers[k].answer.created && answers[k].Id() == id
  }

  ghost predicate HasCreator(answers: seq<Pair>, id: nat) { exists k: nat :: Creates(answers, k, id) }

  ghost predicate CreatedOnce(s: State) {
    && (forall id: nat :: id < |s.db.rows| ==> HasCreator(s.answers, id))
    && (forall k: nat, id: nat :: Creates(s.answers, k, id) ==> id < |s.db.rows|)
    && (forall j: nat, k: nat, id: nat :: Creates(s.answers, j, id) && Creates(s.answers, k, id) ==> j == k)
    && (forall c :: c in s.plans && s.plans[c].1.Existing? ==> !s.plans[c].1.answer.created)
  }

  lemma FinishAnswers(s: State, c: nat)
    requires CreatedOnce(s) && c in s.plans
    ensures var t := Exec(s, Finish(c));
      && |s.answers| <= |t.answers| <= |s.answers| + 1 && s.answers == t.answers[..|s.answers|]
      && (if |t.answers| > |s.answers| && t.answers[|s.answers|].answer.created
          then |t.db.rows| == |s.db.rows| + 1 && t.answers[|s.answers|].Id() == |s.db.rows|
          else |t.db.rows| == |s.db.rows|)
      && forall d :: d in t.plans ==> d in s.plans && t.plans[d] == s.plans[d]
  {
    var p := s.plans[c].1;
    hide Commit;
    if p.Insert? { InsertAnswers(s.db, p.row); } else { CommitOther(s.db, p); }
  }

  lemma CreatedAppend(answers: seq<Pair>, more: seq<Pair>, n: nat)
    requires |answers| <= |more| <= |answers| + 1 && answers == more[..|answers|]
    ensures forall k: nat, id: nat :: k < |answers| ==> (Creates(more, k, id) <==> Creates(answers, k, id))
  {
    assert forall k: nat :: k < |answers| ==> more[k] == more[..|answers|][k];
  }

  lemma FinishCreatesOnce(s: State, c: nat)
    requires CreatedOnce(s) && c in s.plans
    ensures CreatedOnce(Exec(s, Finish(c)))
  {
    var t := Exec(s, Finish(c));
    FinishAnswers(s, c);
    CreatedAppend(s.answers, t.answers, 0);
    hide Exec;
    forall id: nat | id < |t.db.rows|
      ensures HasCreator(t.answers, id)
    {
      if id < |s.db.rows| {
        assert HasCreator(s.answers, id);
        var k: nat :| Creates(s.answers, k, id);
        assert Creates(t.answers, k, id);
      } else {
        assert Creates(t.answers, |s.answers|, id);
      }
    }
  }

  lemma OtherCreatesOnce(s: State, step: Step)
    requires CreatedOnce(s) && !step.Finish?
    ensures CreatedOnce(Exec(s, step))
  {
    var t := Exec(s, step);
    assert t.answers == s.answers && |t.db.rows| == |s.db.rows| by { hide Check; }
    if step.Begin? { CheckReads(s.db, step.request); }
    hide Check, Creates, DedupKey;
  }

  lemma {:induction false} RunCreatesOnce(s: State, steps: seq<Step>)
    requires CreatedOnce(s)
    ensures CreatedOnce(Run(s, steps))
    decreases |steps|
  {
    if steps != [] {
      hide Exec, CreatedOnce;
      var n := |steps| - 1;
      RunCreatesOnce(s, steps[..n]);
      var mid := Run(s, steps[..n]);
      if steps[n].Finish? && steps[n].caller in mid.plans {
        FinishCreatesOnce(mid, steps[n].caller);
      } else if steps[n].Finish? {
        FinishNothing(mid, steps[n].caller);
      } else {
        OtherCreatesOnce(mid, steps[n]);
      }
    }
  }

  lemma FinishNothing(s: State, c: nat)
    requires c !in s.plans
    ensures Exec(s, Finish(c)) == s
  {
  }

  // Over every run from empty tables, of the calls answered with one row exactly one is told that it created it.
  lemma OneCallCreated(steps: seq<Step>, id: nat) returns (k: nat)
    requires id < |Run(State(Db([], [], []), map[], []), steps).db.rows|
    ensures var answers := Run(State(Db([], [], []), map[], []), steps).answers;
      && k < |answers| && answers[k].answer.created && answers[k].Id() == id
      && forall j :: 0 <= j < |answers| && answers[j].answer.created && answers[j].Id() == id ==> j == k
  {
    hide Run;
    RunCreatesOnce(State(Db([], [], []), map[], []), steps);
    var answers := Run(State(Db([], [], []), map[], []), steps).answers;
    assert HasCreator(answers, id);
    k :| Creates(answers, k, id);
    forall j | 0 <= j < |answers| && answers[j].answer.created && answers[j].Id() == id
      ensures j == k
    {
      assert Creates(answers, j, id);
    }
  }

  // ---------- a lost race, and a deleted finding ----------

  const ALERT := Request(1, 0, 0, "t", "1", true)

  // The tables with the channel and the finding of the alert, and these rows.
  function Ready(rows: seq<Row>, deleted: bool): Db {
    Db([Channel(1, true, false, true)], [FindingRef(1, deleted)], rows)
  }

  // The channel and the finding are set up, two callers check, both insert, and the finding is deleted.
  const RACE := [] + [AddChannel(Channel(1, true, false, false))] + [SetChannel(0, true, false, true)] + [AddFinding(1)]
                + [Begin(0, ALERT)] + [Begin(1, ALERT)] + [Finish(0)] + [Finish(1)] + [DeleteFinding(0)]

  lemma RunThen(s: State, steps: seq<Step>, step: Step)
    ensures Run(s, steps + [step]) == Exec(Run(s, steps), step)
  {
    hide Exec;
    assert (steps + [step])[..|steps|] == steps;
  }

  lemma BothPlan()
    ensures Check(Ready([], false), ALERT) == Insert(RowFor(ALERT))
  {
    hide DedupKey;
  }

  lemma BothInsert()
    ensures Commit(Ready([], false), Insert(RowFor(ALERT)))
         == (Ready([RowFor(ALERT)], false), Ok(Answer(true, 0, Pending)))
    ensures Commit(Ready([RowFor(ALERT)], false), Insert(RowFor(ALERT)))
         == (Ready([RowFor(ALERT)], false), Ok(Answer(false, 0, Pending)))
  {
    hide DedupKey;
    assert [] + [RowFor(ALERT)] == [RowFor(ALERT)];
  }

  // Only the first caller is told that it created the row; the second gets the same row; its reference to the finding
  // goes with the finding.
  lemma LostRace()
    ensures Run(State(Db([], [], []), map[], []), RACE)
         == State(Ready([RowFor(ALERT).(finding := None)], true), map[],
                  [Pair(ALERT, Answer(true, 0, Pending)), Pair(ALERT, Answer(false, 0, Pending))])
  {
    hide DedupKey, Check, Commit, Run, RowFor;
    var s0 := State(Db([], [], []), map[], []);
    var a1, a2 := AddChannel(Channel(1, true, false, false)), SetChannel(0, true, false, true);
    var p := (ALERT, Insert(RowFor(ALERT)));
    var answered := [Pair(ALERT, Answer(true, 0, Pending))];
    RunNothing(s0);
    RunThen(s0, [], a1);
    RunThen(s0, [] + [a1], a2);
    RunThen(s0, [] + [a1] + [a2], AddFinding(1));
    RunThen(s0, [] + [a1] + [a2] + [AddFinding(1)], Begin(0, ALERT));
    RunThen(s0, [] + [a1] + [a2] + [AddFinding(1)] + [Begin(0, ALERT)], Begin(1, ALERT));
    var checked := [] + [a1] + [a2] + [AddFinding(1)] + [Begin(0, ALERT)] + [Begin(1, ALERT)];
    RunThen(s0, checked, Finish(0));
    RunThen(s0, checked + [Finish(0)], Finish(1));
    RunThen(s0, checked + [Finish(0)] + [Finish(1)], DeleteFinding(0));
    BothPlan();
    BothInsert();
    SetUp(s0, a1, a2);
    assert Exec(Exec(State(Ready([], false), map[], []), Begin(0, ALERT)), Begin(1, ALERT))
        == State(Ready([], false), map[0 := p, 1 := p], []);
    assert Exec(State(Ready([], false), map[0 := p, 1 := p], []), Finish(0))
        == State(Ready([RowFor(ALERT)], false), map[1 := p], answered) by { assert [] + answered == answered; }
    assert Exec(State(Ready([RowFor(ALERT)], false), map[1 := p], answered), Finish(1))
        == State(Ready([RowFor(ALERT)], false), map[], answered + [Pair(ALERT, Answer(false, 0, Pending))]);
    DeletedAfter(answered + [Pair(ALERT, Answer(false, 0, Pending))]);
  }

  lemma RunNothing(s: State)
    ensures Run(s, []) == s
  {
  }

  lemma SetUp(s0: State, a1: Step, a2: Step)
    requires s0 == State(Db([], [], []), map[], [])
    requires a1 == AddChannel(Channel(1, true, false, false)) && a2 == SetChannel(0, true, false, true)
    ensures Exec(Exec(Exec(s0, a1), a2), AddFinding(1)) == State(Ready([], false), map[], [])
  {
    assert [] + [Channel(1, true, false, false)] == [Channel(1, true, false, false)];
    assert Exec(s0, a1) == State(Db([Channel(1, true, false, false)], [], []), map[], []);
    assert [Channel(1, true, false, false)][0 := Channel(1, true, false, true)] == [Channel(1, true, false, true)];
    assert [] + [FindingRef(1, false)] == [FindingRef(1, false)];
  }

  lemma DeletedAfter(answers: seq<Pair>)
    ensures Exec(State(Ready([RowFor(ALERT)], false), map[], answers), DeleteFinding(0))
         == State(Ready([RowFor(ALERT).(finding := None)], true), map[], answers)
  {
    hide DedupKey;
    assert [FindingRef(1, false)][0 := FindingRef(1, true)] == [FindingRef(1, true)];
    assert Unlink([RowFor(ALERT)], 0) == [RowFor(ALERT).(finding := None)];
  }
}
