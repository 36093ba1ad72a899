/**
 Reports from a worker's session (app/collection/analysis.py).  Taking the lease is decided by the
 database; complete and fail look at the copy of the row that the session loaded, and the flush
 writes by primary key the columns they changed in that copy.
 */
module LeaseSessions {
  import opened Wrappers
  import opened Tables
  import Q = LeaseQueue

  // ---------- the flush ----------

  function Changed<T(==)>(row: T, loaded: T, set_: T): T { if set_ != loaded then set_ else row }

  // The row after writing what was set in the loaded copy: columns set to what they were are not written.
  function Flush(row: Event, loaded: Event, set_: Event): Event {
    row.(state := Changed(row.state, loaded.state, set_.state),
         attempts := Changed(row.attempts, loaded.attempts, set_.attempts),
         nextAttempt := Changed(row.nextAttempt, loaded.nextAttempt, set_.nextAttempt),
         lockedBy := Changed(row.lockedBy, loaded.lockedBy, set_.lockedBy),
         lockedAt := Changed(row.lockedAt, loaded.lockedAt, set_.lockedAt),
         analysis := Changed(row.analysis, loaded.analysis, set_.analysis))
  }

  // ---------- runs ----------

  // The committed row with its history, and the copies that sessions hold, by worker.
  datatype State = State(core: Q.State, copies: map<string, Event>)

  // Acquire is committed, which expires the copy; refused, it has read the row.  Load reads the row into the
  // worker's session unless a copy is there; Expire forgets the copy, as a commit or a new session does.
  datatype Step =
    | Acquire(worker: string)
    | Load(worker: string)
    | Expire(worker: string)
    | Complete(worker: string, analysis: Analysis)
    | Fail(worker: string)
    | Purge
    | Tick(seconds: nat)

  // What the worker's report looks at: its copy, or the row when the session has to read it again.
  function Seen(s: State, w: string): Event { if w in s.copies then s.copies[w] else s.core.row }

  // The copy says analyzing, and held by that worker.
  predicate Claims(e: Event, w: string) { e.state == Analyzing && e.lockedBy == Some(w) }

  // A report whose check passed on the copy, leaving the row as `row`; the commit expires the copy.
  function Report(s: State, w: string, row: Event, fails: seq<int>): State {
    State(s.core.(row := row, leases := [], fails := fails), s.copies - {w})
  }

  function Exec(s: State, step: Step, g: Q.Settings): State {
    match step
    case Acquire(w) =>
      if Q.Ready(s.core.row, s.core.now, g) then State(Q.Exec(s.core, Q.Acquire(w), g), s.copies - {w})
      else s.(copies := s.copies[w := s.core.row])
    case Load(w) => s.(copies := s.copies[w := Seen(s, w)])
    case Expire(w) => s.(copies := s.copies - {w})
    case Complete(w, a) =>
      var loaded := Seen(s, w);
      var (set_, r) := Q.CompleteRow(loaded, w, a);
      if r.Err? then s else Report(s, w, Flush(s.core.row, loaded, set_), s.core.fails)
    case Fail(w) =>
      var loaded := Seen(s, w);
      var (set_, r) := Q.FailRow(loaded, w, s.core.now, g);
      if r.Err? then s else Report(s, w, Flush(s.core.row, loaded, set_), s.core.fails + [s.core.now])
    case Purge => s.(core := Q.Exec(s.core, Q.Purge, g))
    case Tick(d) => s.(core := Q.Exec(s.core, Q.Tick(d), g))
  }

  function Run(s: State, steps: seq<Step>, g: Q.Settings): State {
    if steps == [] then s else Exec(Run(s, steps[..|steps| - 1], g), steps[|steps| - 1], g)
  }

  ghost predicate Initial(s: State) { Q.Initial(s.core) && s.copies == map[] }

  predicate ReportsBy(step: Step, w: string) {
    (step.Complete? && step.worker == w) || (step.Fail? && step.worker == w)
  }

  // ---------- when a report takes effect ----------

  // A report takes effect, whatever has become of the row, exactly when the worker's copy claims the lease; it then
  // releases the row and, being a failure, sets the attempts to one more than the copy's.
  lemma ReportTakesEffectIff(s: State, step: Step, w: string, g: Q.Settings)
    requires ReportsBy(step, w)
    ensures Exec(s, step, g) != s <==> Claims(Seen(s, w), w)
    ensures Claims(Seen(s, w), w) ==>
      var row := Exec(s, step, g).core.row;
      && row.lockedBy.None?
      && (step.Complete? ==> row.state == Analyzed && row.attempts == s.core.row.attempts)
      && (step.Fail? ==>
            && row.attempts == Seen(s, w).attempts + 1
            && row.state == if row.attempts >= g.maxAttempts then DeadLetter else Failed)
  {
  }

  // What the report writes: of the columns it sets, those that the copy had otherwise; every other one stays as the row
  // has it, whoever wrote it there.
  lemma ReportWrites(s: State, step: Step, w: string, g: Q.Settings)
    requires ReportsBy(step, w) && Claims(Seen(s, w), w)
    ensures var before, copy, t := s.core.row, Seen(s, w), Exec(s, step, g);
      var lockedAt := if copy.lockedAt == None then before.lockedAt else None;
      && w !in t.copies && t.core.leases == []
      && (step.Complete? ==>
            && t.core.fails == s.core.fails
            && var analysis := if copy.analysis == Some(step.analysis) then before.analysis else Some(step.analysis);
            t.core.row == before.(state := Analyzed, lockedBy := None, lockedAt := lockedAt, analysis := analysis))
      && (step.Fail? ==>
            && t.core.fails == s.core.fails + [s.core.now]
            && var last := copy.attempts + 1 >= g.maxAttempts;
            var wait := if copy.attempts < 7 then [30, 60, 120, 240, 480, 960, 1920][copy.attempts] else 3600;
            var due := if last then None else Some(s.core.now + wait);
            t.core.row == before.(state := if last then DeadLetter else Failed, attempts := copy.attempts + 1,
                                  lockedBy := None, lockedAt := lockedAt,
                                  nextAttempt := if copy.nextAttempt == due then before.nextAttempt else due))
  {
    if step.Complete? { Q.CompleteLaw(Seen(s, w), w, step.analysis); }
    else { Q.FailLaw(Seen(s, w), w, s.core.now, g); }
    hide Q.CompleteRow, Q.FailRow;
  }

  // A worker that took the lease reads the row afresh; one that was refused keeps the row it read.
  lemma AcquireCopies(s: State, w: string, g: Q.Settings)
    ensures var t := Exec(s, Acquire(w), g);
      if Q.AcquireRow(s.core.row, w, s.core.now, g).1.Ok? then
        && t.copies == s.copies - {w} && Claims(t.core.row, w)
        && t.core.row == Q.AcquireRow(s.core.row, w, s.core.now, g).0
      else
        t.core == s.core && t.copies == s.copies[w := s.core.row]
  {
  }

  // ---------- every run ----------

  predicate LockFits(e: Event) {
    (e.state == Analyzing <==> e.lockedBy.Some?) && (e.state == Analyzing <==> e.lockedAt.Some?)
  }

  predicate AttemptsFit(e: Event, g: Q.Settings) {
    e.attempts <= g.maxAttempts && (e.state == Analyzing ==> e.attempts < g.maxAttempts)
  }

  // A worker that holds the row and has a copy of it has a copy that says so.
  ghost predicate HoldersKnow(s: State) {
    forall w :: w in s.copies && Claims(s.core.row, w) ==> Claims(s.copies[w], w)
  }

  ghost predicate Inv(s: State, g: Q.Settings) {
    && Q.Locked(s.core, g) && AttemptsFit(s.core.row, g) && HoldersKnow(s)
    && forall w :: w in s.copies ==> LockFits(s.copies[w]) && AttemptsFit(s.copies[w], g)
  }

  lemma ReportKeepsInv(s: State, step: Step, w: string, g: Q.Settings)
    requires Inv(s, g) && ReportsBy(step, w)
    ensures Inv(Exec(s, step, g), g)
  {
    assert LockFits(Seen(s, w)) && AttemptsFit(Seen(s, w), g);
  }

  lemma ExecKeepsInv(s: State, step: Step, g: Q.Settings)
    requires Inv(s, g)
    ensures Inv(Exec(s, step, g), g)
  {
    match step
    case Complete(w, _) => ReportKeepsInv(s, step, w, g);
    case Fail(w) => ReportKeepsInv(s, step, w, g);
    case Acquire(w) => Q.ExecKeepsLocked(s.core, Q.Acquire(w), g);
    case Purge => Q.ExecKeepsLocked(s.core, Q.Purge, g);
    case Tick(d) => Q.ExecKeepsLocked(s.core, Q.Tick(d), g);
    case _ =>
  }

  lemma {:induction false} RunKeepsInv(s: State, steps: seq<Step>, g: Q.Settings)
    requires Inv(s, g)
    ensures Inv(Run(s, steps, g), g)
    decreases |steps|
  {
    if steps != [] {
      hide Exec, Inv;
      RunKeepsInv(s, steps[..|steps| - 1], g);
      ExecKeepsInv(Run(s, steps[..|steps| - 1], g), steps[|steps| - 1], g);
    }
  }

  lemma InitialInv(s: State, g: Q.Settings)
    requires Initial(s)
    ensures Inv(s, g)
  {
  }

  // Whatever copies the workers report from: the row is analyzing exactly while its lock columns are set, two leases
  // without an accepted report between them are more than the TTL apart, and attempts stay within the bound.
  lemma LeaseExclusion(s: State, steps: seq<Step>, g: Q.Settings)
    requires Initial(s)
    ensures var t := Run(s, steps, g).core;
      && LockFits(t.row) && Q.Spaced(t.leases, g.ttl) && t.row.attempts <= g.maxAttempts
      && (t.row.state == Analyzing ==>
            t.leases != [] && t.leases[|t.leases| - 1] == (t.row.lockedBy.value, t.row.lockedAt.value))
  {
    InitialInv(s, g);
    RunKeepsInv(s, steps, g);
  }

  // ---------- up-to-date reports ----------

  // A report that passes its check does so on a copy that still is the row, but for a purge mark.
  predicate UpToDate(s: State, step: Step) {
    (step.Complete? || step.Fail?) && Claims(Seen(s, step.worker), step.worker) ==>
      Seen(s, step.worker).(purged := s.core.row.purged) == s.core.row
  }

  ghost predicate AllUpToDate(s: State, steps: seq<Step>, g: Q.Settings) {
    forall n :: 0 <= n < |steps| ==> UpToDate(Run(s, steps[..n], g), steps[n])
  }

  // The step as the row sees it, if it does.
  function CoreStep(step: Step): Option<Q.Step> {
    match step
    case Acquire(w) => Some(Q.Acquire(w))
    case Complete(w, a) => Some(Q.Complete(w, a))
    case Fail(w) => Some(Q.Fail(w))
    case Purge => Some(Q.Purge)
    case Tick(d) => Some(Q.Tick(d))
    case _ => None
  }

  function CoreSteps(steps: seq<Step>): seq<Q.Step> {
    if steps == [] then []
    else
      var rest, step := CoreSteps(steps[..|steps| - 1]), CoreStep(steps[|steps| - 1]);
      if step.Some? then rest + [step.value] else rest
  }

  lemma UpToDateStep(s: State, step: Step, g: Q.Settings)
    requires Inv(s, g) && UpToDate(s, step)
    ensures Exec(s, step, g).core
         == (if CoreStep(step).Some? then Q.Exec(s.core, CoreStep(step).value, g) else s.core)
  {
  }

  lemma CoreRun(s: Q.State, steps: seq<Q.Step>, step: Q.Step, g: Q.Settings)
    ensures Q.Run(s, steps + [step], g) == Q.Exec(Q.Run(s, steps, g), step, g)
  {
    assert (steps + [step])[..|steps|] == steps;
  }

  lemma {:induction false} UpToDateRun(s: State, steps: seq<Step>, g: Q.Settings)
    requires Inv(s, g) && AllUpToDate(s, steps, g)
    ensures Run(s, steps, g).core == Q.Run(s.core, CoreSteps(steps), g)
    decreases |steps|
  {
    if steps != [] {
      hide Exec, Inv, UpToDate, Q.Exec;
      var n := |steps| - 1;
      assert forall k :: 0 <= k < n ==> steps[..n][..k] == steps[..k];
      UpToDateRun(s, steps[..n], g);
      RunKeepsInv(s, steps[..n], g);
      UpToDateStep(Run(s, steps[..n], g), steps[n], g);
      if CoreStep(steps[n]).Some? { CoreRun(s.core, CoreSteps(steps[..n]), CoreStep(steps[n]).value, g); }
    }
  }

  lemma FailsAreDelayed(s: State, steps: seq<Step>, g: Q.Settings)
    requires Initial(s) && g.maxAttempts > 0 && AllUpToDate(s, steps, g)
    ensures var t := Run(s, steps, g).core;
      && t.row.attempts == |t.fails| <= g.maxAttempts
      && (t.row.state == DeadLetter <==> |t.fails| == g.maxAttempts)
      && (t.row.state == DeadLetter ==> t.now - t.fails[0] >= Q.TotalDelay(g.maxAttempts - 1))
  {
    hide Run, Inv, AllUpToDate, CoreSteps, Q.Run, Q.TotalDelay, Q.Initial;
    InitialInv(s, g);
    UpToDateRun(s, steps, g);
    Q.RetryBound(s.core, CoreSteps(steps), g);
  }

  // Then attempts count the fails, and the row is dead-lettered exactly at the last one, having lived through the
  // backoffs: 450 seconds for five attempts.
  lemma RetryBound(s: State, steps: seq<Step>, g: Q.Settings)
    requires Initial(s) && g.maxAttempts > 0 && AllUpToDate(s, steps, g)
    ensures var t := Run(s, steps, g).core;
      && t.row.attempts == |t.fails| <= g.maxAttempts
      && (t.row.state == DeadLetter <==> |t.fails| == g.maxAttempts)
      && (t.row.state == DeadLetter ==>
            var n := g.maxAttempts - 1;
            t.now - t.fails[0] >= if n <= 7 then [0, 30, 90, 210, 450, 930, 1890, 3810][n] else 3810 + 3600 * (n - 7))
  {
    hide *;
    FailsAreDelayed(s, steps, g);
    Q.TotalDelayIs(g.maxAttempts - 1);
  }

  // ---------- fencing ----------

  function Without(steps: seq<Step>, w: string): seq<Step> {
    if steps == [] then []
    else
      var rest := Without(steps[..|steps| - 1], w);
      if ReportsBy(steps[|steps| - 1], w) then rest else rest + [steps[|steps| - 1]]
  }

  // Neither the row nor the worker's copy of it names the worker.
  predicate Released(s: State, w: string) { !Claims(s.core.row, w) && !Claims(Seen(s, w), w) }

  ghost predicate NoAcquire(steps: seq<Step>, w: string) { forall k :: 0 <= k < |steps| ==> steps[k] != Acquire(w) }

  lemma ReleasedStep(s: State, step: Step, w: string, g: Q.Settings)
    requires Released(s, w) && step != Acquire(w)
    ensures Released(Exec(s, step, g), w)
    ensures ReportsBy(step, w) ==> Exec(s, step, g) == s
  {
  }

  lemma {:induction false} ReleasedIsFenced(s: State, steps: seq<Step>, w: string, g: Q.Settings)
    requires Released(s, w) && NoAcquire(steps, w)
    ensures Run(s, steps, g) == Run(s, Without(steps, w), g) && Released(Run(s, steps, g), w)
    decreases |steps|
  {
    if steps != [] {
      hide Exec, Released;
      var n := |steps| - 1;
      ReleasedIsFenced(s, steps[..n], w, g);
      ReleasedStep(Run(s, steps[..n], g), steps[n], w, g);
      var rest := Without(steps[..n], w);
      assert (rest + [steps[n]])[..|rest|] == rest;
    }
  }

  ghost predicate Fenced(s: State, steps: seq<Step>, w: string, g: Q.Settings) {
    NoAcquire(steps, w) ==> Run(s, steps, g) == Run(s, Without(steps, w), g)
  }

  // Until it acquires again, nothing the worker reports has any effect, exactly when neither the row nor its copy
  // names it.
  lemma FencedIff(s: State, w: string, g: Q.Settings)
    ensures (forall steps :: Fenced(s, steps, w, g)) <==> Released(s, w)
  {
    hide Released;
    if Released(s, w) {
      forall steps
        ensures Fenced(s, steps, w, g)
      {
        if NoAcquire(steps, w) { ReleasedIsFenced(s, steps, w, g); }
      }
    } else {
      ClaimIsReported(s, w, g);
    }
  }

  lemma ClaimIsReported(s: State, w: string, g: Q.Settings)
    requires !Released(s, w)
    ensures !Fenced(s, [Fail(w)], w, g) || !Fenced(s, [Expire(w), Fail(w)], w, g)
  {
    RunOne(s, Fail(w), g);
    RunOne(s, Expire(w), g);
    assert [Fail(w)][..0] == [] && [Expire(w), Fail(w)][..1] == [Expire(w)] && [Expire(w)][..0] == [];
    assert Without([Fail(w)], w) == [];
    assert Without([Expire(w), Fail(w)], w) == [Expire(w)];
    if Claims(Seen(s, w), w) {
      ReportTakesEffectIff(s, Fail(w), w, g);
      assert Run(s, [], g) == s;
    } else {
      var t := Exec(s, Expire(w), g);
      ReportTakesEffectIff(t, Fail(w), w, g);
      assert Run(s, [Expire(w), Fail(w)], g) == Exec(t, Fail(w), g);
    }
  }

  lemma RunOne(s: State, step: Step, g: Q.Settings)
    ensures Run(s, [step], g) == Exec(s, step, g)
  {
    hide Exec;
    assert [step][..0] == [];
  }

  // ---------- final states ----------

  predicate Final(e: Event) { e.state in {Analyzed, DeadLetter, Control, Rejected} }

  ghost predicate NobodyClaims(s: State) { forall w :: w in s.copies ==> !Claims(s.copies[w], w) }

  lemma FinalStep(s: State, step: Step, g: Q.Settings)
    requires Final(s.core.row) && NobodyClaims(s)
    ensures var t := Exec(s, step, g);
      && NobodyClaims(t) && t.core.fails == s.core.fails
      && t.core.row == s.core.row.(purged := t.core.row.purged, analysis := t.core.row.analysis)
      && (t.core.row.analysis == s.core.row.analysis || t.core.row.analysis.None?)
  {
  }

  lemma {:induction false} FinalRun(s: State, steps: seq<Step>, g: Q.Settings)
    requires Final(s.core.row) && NobodyClaims(s)
    ensures var t := Run(s, steps, g);
      && NobodyClaims(t) && t.core.fails == s.core.fails
      && t.core.row == s.core.row.(purged := t.core.row.purged, analysis := t.core.row.analysis)
      && (t.core.row.analysis == s.core.row.analysis || t.core.row.analysis.None?)
    decreases |steps|
  {
    if steps != [] {
      hide Exec, NobodyClaims;
      FinalRun(s, steps[..|steps| - 1], g);
      FinalStep(Run(s, steps[..|steps| - 1], g), steps[|steps| - 1], g);
    }
  }

  ghost predicate StateStays(s: State, steps: seq<Step>, g: Q.Settings) {
    Run(s, steps, g).core.row.state == s.core.row.state
  }

  // An analyzed, dead-lettered, control or rejected row is final in every run exactly when no worker's copy still
  // claims the lease.
  lemma FinalIff(s: State, g: Q.Settings)
    requires Final(s.core.row)
    ensures (forall steps :: StateStays(s, steps, g)) <==> NobodyClaims(s)
  {
    if NobodyClaims(s) {
      forall steps
        ensures StateStays(s, steps, g)
      {
        FinalRun(s, steps, g);
      }
    } else {
      var w :| w in s.copies && Claims(s.copies[w], w);
      var done := Analysis("", None, false);
      var step := if s.core.row.state == Analyzed then Fail(w) else Complete(w, done);
      ReportTakesEffectIff(s, step, w, g);
      hide Exec, Claims;
      RunOne(s, step, g);
      assert !StateStays(s, [step], g);
    }
  }

  // ---------- runs in which a late report is accepted ----------

  lemma RunThen(s: State, steps: seq<Step>, step: Step, g: Q.Settings)
    ensures Run(s, steps + [step], g) == Exec(Run(s, steps, g), step, g)
  {
    assert (steps + [step])[..|steps|] == steps;
  }

  // The first worker leases the row and reads it; the TTL passes.
  function Lapse(first: string, g: Q.Settings): seq<Step> { [] + [Acquire(first)] + [Load(first)] + [Tick(g.ttl + 1)] }

  function Fresh(row: Event): State { State(Q.State(row, 0, [], []), map[]) }

  lemma AfterLapse(row: Event, first: string, g: Q.Settings)
    requires Q.Ready(row, 0, g) && row.state == Normalized
    ensures var leased := Q.Leased(row, first, 0);
      Run(Fresh(row), Lapse(first, g), g) == State(Q.State(leased, g.ttl + 1, [], [(first, 0)]), map[first := leased])
  {
    var s := Fresh(row);
    RunThen(s, [], Acquire(first), g);
    RunThen(s, [] + [Acquire(first)], Load(first), g);
    RunThen(s, [] + [Acquire(first)] + [Load(first)], Tick(g.ttl + 1), g);
    assert Run(s, [], g) == s;
    hide Run;
    assert [] + [(first, 0)] == [(first, 0)];
  }

  // A second worker takes the row over, and the first one's late report completes it under the second's lease.
  lemma TakenOverLeaseIsOverwritten(row: Event, first: string, second: string, a: Analysis, g: Q.Settings)
    requires Q.Ready(row, 0, g) && row.state == Normalized && first != second
    ensures var before := Run(Fresh(row), Lapse(first, g) + [Acquire(second)], g);
      var after := Run(Fresh(row), Lapse(first, g) + [Acquire(second)] + [Complete(first, a)], g);
      && Claims(before.core.row, second) && after.core.row.state == Analyzed && after.core.row.lockedBy.None?
  {
    AfterLapse(row, first, g);
    RunThen(Fresh(row), Lapse(first, g), Acquire(second), g);
    RunThen(Fresh(row), Lapse(first, g) + [Acquire(second)], Complete(first, a), g);
    hide Run, Lapse;
    var before := Run(Fresh(row), Lapse(first, g) + [Acquire(second)], g);
    ReportTakesEffectIff(before, Complete(first, a), first, g);
  }

  // k times: the second worker takes the row, fails it, and the longest backoff passes.
  function Rounds(second: string, k: nat): seq<Step> {
    if k == 0 then [] else Rounds(second, k - 1) + [Acquire(second)] + [Fail(second)] + [Tick(3600)]
  }

  lemma RunRound(s: State, steps: seq<Step>, second: string, g: Q.Settings)
    ensures Run(s, steps + [Acquire(second)] + [Fail(second)] + [Tick(3600)], g)
         == Exec(Exec(Exec(Run(s, steps, g), Acquire(second), g), Fail(second), g), Tick(3600), g)
  {
    RunThen(s, steps, Acquire(second), g);
    RunThen(s, steps + [Acquire(second)], Fail(second), g);
    RunThen(s, steps + [Acquire(second)] + [Fail(second)], Tick(3600), g);
  }

  // After k fails: due again within the hour, or dead-lettered at the last.
  predicate Failed_(e: Event, k: nat, now: int, g: Q.Settings) {
    && e.attempts == k && !e.isControl && !e.purged
    && if k >= g.maxAttempts then e.state == DeadLetter
       else e.state == Failed && e.nextAttempt.Some? && e.nextAttempt.value <= now
  }

  lemma RoundFails(s: State, first: string, second: string, k: nat, g: Q.Settings)
    requires first in s.copies && first != second && k < g.maxAttempts && s.core.row.attempts == k
    requires Q.Ready(s.core.row, s.core.now, g)
    ensures var t := Exec(Exec(Exec(s, Acquire(second), g), Fail(second), g), Tick(3600), g);
      && Failed_(t.core.row, k + 1, t.core.now, g) && first in t.copies && t.copies[first] == s.copies[first]
  {
    hide Q.Pow2;
  }

  lemma {:induction false} RoundsFail(s: State, steps: seq<Step>, first: string, second: string, k: nat, g: Q.Settings)
    requires var t := Run(s, steps, g);
      && first in t.copies && first != second && t.core.row.attempts == 0 && Q.Ready(t.core.row, t.core.now, g)
    requires 1 <= k <= g.maxAttempts
    ensures var t := Run(s, steps + Rounds(second, k), g);
      && Failed_(t.core.row, k, t.core.now, g)
      && first in t.copies && t.copies[first] == Run(s, steps, g).copies[first]
    decreases k
  {
    hide Exec, Run, Failed_;
    var before := steps + Rounds(second, k - 1);
    assert steps + Rounds(second, k) == before + [Acquire(second)] + [Fail(second)] + [Tick(3600)];
    RunRound(s, before, second, g);
    if k == 1 {
      assert before == steps;
    } else {
      RoundsFail(s, steps, first, second, k - 1, g);
      FailedIsReady(Run(s, before, g), k - 1, g);
    }
    RoundFails(Run(s, before, g), first, second, k - 1, g);
  }

  lemma FailedIsReady(s: State, k: nat, g: Q.Settings)
    requires Failed_(s.core.row, k, s.core.now, g) && k < g.maxAttempts
    ensures Q.Ready(s.core.row, s.core.now, g) && s.core.row.attempts == k
  {
  }

  // A second worker fails the row until it is dead-lettered; the first one's late failure makes it retryable again,
  // with one attempt counted.
  lemma DeadLetterIsRevived(row: Event, first: string, second: string, g: Q.Settings)
    requires Q.Ready(row, 0, g) && row.state == Normalized && row.attempts == 0 && first != second && g.maxAttempts >= 2
    ensures var steps := Lapse(first, g) + Rounds(second, g.maxAttempts);
      && Run(Fresh(row), steps, g).core.row.state == DeadLetter
      && Run(Fresh(row), steps + [Fail(first)], g).core.row.state == Failed
      && Run(Fresh(row), steps + [Fail(first)], g).core.row.attempts == 1
  {
    AfterLapse(row, first, g);
    var steps := Lapse(first, g) + Rounds(second, g.maxAttempts);
    RunThen(Fresh(row), steps, Fail(first), g);
    hide Run, Lapse, Rounds;
    RoundsFail(Fresh(row), Lapse(first, g), first, second, g.maxAttempts, g);
    ReportTakesEffectIff(Run(Fresh(row), steps, g), Fail(first), first, g);
  }
}
