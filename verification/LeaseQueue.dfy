/** The analysis queue (app/collection/analysis.py) and its backoff (app/collection/outbox.py). */
module LeaseQueue {
  import opened Wrappers
  import opened Hashing
  import opened Tables
  import opened Numbers

  // ---------- backoff ----------

  function Pow2(n: nat): nat { if n == 0 then 1 else 2 * Pow2(n - 1) }

  // The delay after the given number of failed attempts: 30 seconds doubled each time, at most an hour.
  function Delay(attempts: nat): nat { Min(3600, 30 * Pow2(if attempts == 0 then 0 else attempts - 1)) }

  // The delays after the first n fails together.
  function TotalDelay(n: nat): nat { if n == 0 then 0 else TotalDelay(n - 1) + Delay(n) }

  // ---------- the row and its operations ----------

  datatype Settings = Settings(ttl: nat, maxAttempts: nat)

  datatype QueueError = NotLockable(state: EventState) | MaxAttempts | RetryNotDue | LockHeld(holder: Option<string>)
                      | NotAnalyzing

  predicate Ready(e: Event, now: int, g: Settings) {
    && !e.isControl && !e.purged && e.attempts < g.maxAttempts
    && (|| e.state == Normalized
        || (e.state == Failed && (e.nextAttempt.None? || e.nextAttempt.value <= now))
        || (e.state == Analyzing && (e.lockedAt.None? || e.lockedAt.value < now - g.ttl)))
  }

  function Leased(e: Event, worker: string, now: int): Event {
    e.(state := Analyzing, lockedBy := Some(worker), lockedAt := Some(now))
  }

  function Refusal(e: Event, now: int, g: Settings): QueueError {
    if e.state == Analyzing && e.lockedAt.Some? && e.lockedAt.value >= now - g.ttl then LockHeld(e.lockedBy)
    else if e.state == Failed && e.attempts >= g.maxAttempts then MaxAttempts
    else if e.state == Failed && e.nextAttempt.Some? && e.nextAttempt.value > now then RetryNotDue
    else NotLockable(e.state)
  }

  function AcquireRow(e: Event, worker: string, now: int, g: Settings): (Event, Result<(), QueueError>) {
    if Ready(e, now, g) then (Leased(e, worker, now), Ok(())) else (e, Err(Refusal(e, now, g)))
  }

  function HolderError(e: Event, worker: string): Option<QueueError> {
    if e.state != Analyzing then Some(NotAnalyzing)
    else if e.lockedBy != Some(worker) then Some(LockHeld(e.lockedBy))
    else None
  }

  function CompleteRow(e: Event, worker: string, analysis: Analysis): (Event, Result<(), QueueError>) {
    match HolderError(e, worker)
    case Some(error) => (e, Err(error))
    case None => (e.(state := Analyzed, analysis := Some(analysis), lockedBy := None, lockedAt := None), Ok(()))
  }

  function FailRow(e: Event, worker: string, now: int, g: Settings): (Event, Result<(), QueueError>) {
    match HolderError(e, worker)
    case Some(error) => (e, Err(error))
    case None =>
      var n := e.attempts + 1;
      var released := e.(attempts := n, lockedBy := None, lockedAt := None);
      if n >= g.maxAttempts then (released.(state := DeadLetter, nextAttempt := None), Ok(()))
      else (released.(state := Failed, nextAttempt := Some(now + Delay(n))), Ok(()))
  }

  // ---------- what the operations promise ----------

  // A row is taken exactly when it is no control or purged row, has attempts left, and is new, due for a retry, or
  // leased longer ago than the TTL; the refusals tell a held lease, exhausted attempts and an early retry apart.
  lemma AcquireLaw(e: Event, worker: string, now: int, g: Settings)
    ensures var (row, r) := AcquireRow(e, worker, now, g);
      var due := e.nextAttempt == None || e.nextAttempt.value <= now;
      var lapsed := e.lockedAt == None || now - e.lockedAt.value > g.ttl;
      && (r.Ok? <==>
            && !e.isControl && !e.purged && e.attempts < g.maxAttempts
            && (e.state == Normalized || (e.state == Failed && due) || (e.state == Analyzing && lapsed)))
      && row == (if r.Ok? then e.(state := Analyzing, lockedBy := Some(worker), lockedAt := Some(now)) else e)
      && (r.Err? ==>
            && (r.error == LockHeld(e.lockedBy) <==> e.state == Analyzing && !lapsed)
            && (r.error == MaxAttempts <==> e.state == Failed && e.attempts >= g.maxAttempts)
            && (r.error == RetryNotDue <==> e.state == Failed && e.attempts < g.maxAttempts && !due)
            && (r.error == NotLockable(e.state) || r.error.LockHeld? || r.error.MaxAttempts? || r.error.RetryNotDue?))
  {
  }

  // Only the worker in the lock columns of an analyzing row completes it.
  lemma CompleteLaw(e: Event, worker: string, a: Analysis)
    ensures var (row, r) := CompleteRow(e, worker, a);
      && (r.Ok? <==> e.state == Analyzing && e.lockedBy == Some(worker))
      && row == (if r.Ok? then e.(state := Analyzed, analysis := Some(a), lockedBy := None, lockedAt := None) else e)
      && (r.Err? ==> r.error == if e.state == Analyzing then LockHeld(e.lockedBy) else NotAnalyzing)
  {
  }

  // Only that worker fails it.  The retry is due after 30 seconds, then after twice as long each time up to an hour,
  // until at the last attempt the row is dead-lettered.
  lemma FailLaw(e: Event, worker: string, now: int, g: Settings)
    ensures var (row, r) := FailRow(e, worker, now, g);
      && (r.Ok? <==> e.state == Analyzing && e.lockedBy == Some(worker))
      && (r.Err? ==> row == e && r.error == if e.state == Analyzing then LockHeld(e.lockedBy) else NotAnalyzing)
      && (r.Ok? ==>
            var last := e.attempts + 1 >= g.maxAttempts;
            var wait := if e.attempts < 7 then [30, 60, 120, 240, 480, 960, 1920][e.attempts] else 3600;
            row == e.(state := if last then DeadLetter else Failed, attempts := e.attempts + 1, lockedBy := None,
                      lockedAt := None, nextAttempt := if last then None else Some(now + wait)))
  {
    DelayIs(e.attempts + 1);
    hide Delay;
  }

  lemma {:induction false} DelayIs(n: nat)
    requires n > 0
    ensures Delay(n) == if n <= 7 then [30, 60, 120, 240, 480, 960, 1920][n - 1] else 3600
  {
    if n <= 7 {
      assert Pow2(1) == 2 && Pow2(2) == 4 && Pow2(3) == 8 && Pow2(4) == 16;
      assert Pow2(5) == 32 && Pow2(6) == 64;
    } else {
      Pow2Grows(7, n - 1);
      assert Pow2(4) == 16 && Pow2(7) == 8 * Pow2(4);
    }
  }

  lemma {:induction false} Pow2Grows(m: nat, n: nat)
    requires m <= n
    ensures Pow2(m) <= Pow2(n)
    decreases n
  {
    if m < n { Pow2Grows(m, n - 1); }
  }

  // The delays after the first n fails together, in seconds.
  lemma {:induction false} TotalDelayIs(n: nat)
    ensures TotalDelay(n) == if n <= 7 then [0, 30, 90, 210, 450, 930, 1890, 3810][n] else 3810 + 3600 * (n - 7)
  {
    hide Delay;
    if n > 0 {
      TotalDelayIs(n - 1);
      DelayIs(n);
    }
  }

  class CollectionEvent {
    const tenant: nat
    const source: nat
    const key: Option<Digest>
    const isControl: bool
    const occurredAt: Option<int>
    const createdAt: int
    var purged: bool
    var state: EventState
    var attempts: nat
    var nextAttempt: Option<int>
    var lockedBy: Option<string>
    var lockedAt: Option<int>
    var analysis: Option<Analysis>
    var finding: Option<nat>
    var caseId: Option<nat>

    ghost function Row(): Event reads this {
      Event(tenant, source, key, state, isControl, purged, occurredAt, createdAt, attempts, nextAttempt,
            lockedBy, lockedAt, analysis, finding, caseId)
    }

    constructor (e: Event)
      ensures Row() == e
    {
      tenant, source, key, isControl := e.tenant, e.source, e.key, e.isControl;
      occurredAt, createdAt := e.occurredAt, e.createdAt;
      purged, state, attempts, nextAttempt := e.purged, e.state, e.attempts, e.nextAttempt;
      lockedBy, lockedAt, analysis, finding, caseId := e.lockedBy, e.lockedAt, e.analysis, e.finding, e.caseId;
    }

    method Acquire(worker: string, now: int, g: Settings) returns (r: Result<(), QueueError>)
      modifies this
      ensures (Row(), r) == AcquireRow(old(Row()), worker, now, g)
    {
      var cutoff := now - g.ttl;
      var due := nextAttempt.None? || nextAttempt.value <= now;
      var lapsed := lockedAt.None? || lockedAt.value < cutoff;
      if !isControl && !purged && attempts < g.maxAttempts
         && (state == Normalized || (state == Failed && due) || (state == Analyzing && lapsed)) {
        state, lockedBy, lockedAt := Analyzing, Some(worker), Some(now);
        return Ok(());
      }
      if state == Analyzing && lockedAt.Some? && lockedAt.value >= cutoff { return Err(LockHeld(lockedBy)); }
      if state == Failed {
        if attempts >= g.maxAttempts { return Err(MaxAttempts); }
        if nextAttempt.Some? && nextAttempt.value > now { return Err(RetryNotDue); }
      }
      return Err(NotLockable(state));
    }

    method Complete(worker: string, result: Analysis) returns (r: Result<(), QueueError>)
      modifies this
      ensures (Row(), r) == CompleteRow(old(Row()), worker, result)
    {
      if state != Analyzing { return Err(NotAnalyzing); }
      if lockedBy != Some(worker) { return Err(LockHeld(lockedBy)); }
      state, analysis := Analyzed, Some(result);
      lockedBy, lockedAt := None, None;
      return Ok(());
    }

    method Fail(worker: string, now: int, g: Settings) returns (r: Result<(), QueueError>)
      modifies this
      ensures (Row(), r) == FailRow(old(Row()), worker, now, g)
    {
      if state != Analyzing { return Err(NotAnalyzing); }
      if lockedBy != Some(worker) { return Err(LockHeld(lockedBy)); }
      attempts := attempts + 1;
      lockedBy, lockedAt := None, None;
      if attempts >= g.maxAttempts {
        state, nextAttempt := DeadLetter, None;
      } else {
        state, nextAttempt := Failed, Some(now + Delay(attempts));
      }
      return Ok(());
    }
  }

  // ---------- runs in which every report sees the committed row ----------

  // One row, the clock, and what has happened to the row: the times it failed, and the
  // leases given since it was last completed or failed.
  datatype State = State(row: Event, now: int, fails: seq<int>, leases: seq<(string, int)>)

  datatype Step =
    | Acquire(worker: string)
    | Complete(worker: string, analysis: Analysis)
    | Fail(worker: string)
    | Purge
    | Tick(seconds: nat)

  function Exec(s: State, step: Step, g: Settings): State {
    match step
    case Acquire(w) =>
      var (row, r) := AcquireRow(s.row, w, s.now, g);
      if r.Ok? then s.(row := row, leases := s.leases + [(w, s.now)]) else s.(row := row)
    case Complete(w, a) =>
      var (row, r) := CompleteRow(s.row, w, a);
      if r.Ok? then s.(row := row, leases := []) else s.(row := row)
    case Fail(w) =>
      var (row, r) := FailRow(s.row, w, s.now, g);
      if r.Ok? then s.(row := row, leases := [], fails := s.fails + [s.now]) else s.(row := row)
    case Purge => s.(row := s.row.(purged := true, analysis := None))
    case Tick(d) => s.(now := s.now + d)
  }

  function Run(s: State, steps: seq<Step>, g: Settings): State {
    if steps == [] then s else Exec(Run(s, steps[..|steps| - 1], g), steps[|steps| - 1], g)
  }

  // A row as ingestion leaves it.
  ghost predicate Initial(s: State) {
    && s.row.state in {Normalized, Control, Rejected} && s.row.attempts == 0 && s.row.nextAttempt.None?
    && s.row.lockedBy.None? && s.row.lockedAt.None?
    && s.fails == [] && s.leases == []
  }

  ghost predicate Spaced(leases: seq<(string, int)>, ttl: nat) {
    forall i, j :: 0 <= i < j < |leases| ==> leases[j].1 - leases[i].1 > ttl
  }

  // The n-th fail comes no sooner than the delays promised by the fails before it.
  ghost predicate Delayed(fails: seq<int>) {
    forall n :: 0 <= n < |fails| ==> fails[n] - fails[0] >= TotalDelay(n)
  }

  ghost predicate Locked(s: State, g: Settings) {
    && (s.row.state == Analyzing <==> s.row.lockedBy.Some?)
    && (s.row.lockedBy.Some? <==> s.row.lockedAt.Some?)
    && (s.row.state == Analyzing <==> s.leases != [])
    && (s.leases != [] ==>
          && s.leases[|s.leases| - 1] == (s.row.lockedBy.value, s.row.lockedAt.value)
          && s.row.lockedAt.value <= s.now)
    && Spaced(s.leases, g.ttl)
  }

  ghost predicate Counted(s: State, g: Settings) {
    var n := |s.fails|;
    && s.row.attempts == n <= g.maxAttempts
    && (s.row.state == DeadLetter <==> n == g.maxAttempts)
    && Delayed(s.fails)
    && (n > 0 ==> s.fails[n - 1] <= s.now)
    && (s.row.state == Failed ==> n > 0 && s.row.nextAttempt == Some(s.fails[n - 1] + Delay(n)))
    && (s.row.state == Analyzing && n > 0 ==> s.fails[n - 1] + Delay(n) <= s.now)
    && (n > 0 ==> s.row.state in {Failed, Analyzing, Analyzed, DeadLetter})
  }

  lemma ExecKeepsLocked(s: State, step: Step, g: Settings)
    requires Locked(s, g)
    ensures Locked(Exec(s, step, g), g)
  {
    if step.Acquire? && Ready(s.row, s.now, g) {
      var n := |s.leases|;
      if n > 0 {
        assert s.now - s.leases[n - 1].1 > g.ttl;
        assert forall i :: 0 <= i < n - 1 ==> s.leases[n - 1].1 - s.leases[i].1 > g.ttl;
      }
    }
  }

  lemma FailKeepsCounted(s: State, w: string, g: Settings)
    requires Counted(s, g)
    ensures Counted(Exec(s, Fail(w), g), g)
  {
    var t := Exec(s, Fail(w), g);
    if t.fails != s.fails {
      var n := |s.fails|;
      if n > 0 {
        assert s.fails[n - 1] - s.fails[0] >= TotalDelay(n - 1);
        assert s.now - s.fails[0] >= TotalDelay(n);
      }
    }
  }

  lemma ExecKeepsCounted(s: State, step: Step, g: Settings)
    requires Counted(s, g)
    ensures Counted(Exec(s, step, g), g)
  {
    hide Delay, TotalDelay;
    if step.Fail? {
      FailKeepsCounted(s, step.worker, g);
    }
  }

  lemma {:induction false} RunKeeps(s: State, steps: seq<Step>, g: Settings)
    requires Initial(s) && g.maxAttempts > 0
    ensures Locked(Run(s, steps, g), g) && Counted(Run(s, steps, g), g)
    decreases |steps|
  {
    if steps != [] {
      RunKeeps(s, steps[..|steps| - 1], g);
      ExecKeepsLocked(Run(s, steps[..|steps| - 1], g), steps[|steps| - 1], g);
      ExecKeepsCounted(Run(s, steps[..|steps| - 1], g), steps[|steps| - 1], g);
    }
  }

  // Attempts count the fails and stay within the bound; a row is dead-lettered exactly at the last one,
  // and has then lived at least the sum of the delays between them.
  lemma RetryBound(s: State, steps: seq<Step>, g: Settings)
    requires Initial(s) && g.maxAttempts > 0
    ensures var t := Run(s, steps, g);
      && t.row.attempts == |t.fails| <= g.maxAttempts
      && (t.row.state == DeadLetter <==> |t.fails| == g.maxAttempts)
      && (t.row.state == DeadLetter ==> t.now - t.fails[0] >= TotalDelay(g.maxAttempts - 1))
  {
    RunKeeps(s, steps, g);
    var t := Run(s, steps, g);
    if t.row.state == DeadLetter {
      assert t.fails[|t.fails| - 1] - t.fails[0] >= TotalDelay(|t.fails| - 1);
    }
  }
}
