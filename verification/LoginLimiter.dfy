/** The sliding-window login limiter of app/routers/auth_routes.py, on a clock that does not go back. */
module LoginLimiter {

  const MAX_ATTEMPTS := 5
  const WINDOW := 300.0

  // The recorded failures that are still less than a window old.
  function Recent(times: seq<real>, now: real): (r: seq<real>)
    ensures forall t :: t in r <==> t in times && now - t < WINDOW
  {
    if times == [] then []
    else
      var n := |times| - 1;
      assert times == times[..n] + [times[n]];
      if now - times[n] < WINDOW then Recent(times[..n], now) + [times[n]] else Recent(times[..n], now)
  }

  function Attempts(m: map<string, seq<real>>, key: string): seq<real> { if key in m then m[key] else [] }

  class Limiter {
    var attempts: map<string, seq<real>>

    constructor ()
      ensures attempts == map[]
    {
      attempts := map[];
    }

    method RateLimited(key: string, now: real) returns (limited: bool)
      modifies this
      ensures attempts == old(attempts)[key := Recent(Attempts(old(attempts), key), now)]
      ensures limited <==> |Recent(Attempts(old(attempts), key), now)| >= MAX_ATTEMPTS
    {
      var times := Attempts(attempts, key);
      var kept: seq<real> := [];
      for i := 0 to |times|
        invariant attempts == old(attempts) && kept == Recent(times[..i], now)
      {
        assert times[..i + 1][..i] == times[..i];
        if now - times[i] < WINDOW { kept := kept + [times[i]]; }
      }
      assert times[..|times|] == times;
      attempts := attempts[key := kept];
      return |kept| >= MAX_ATTEMPTS;
    }

    method RecordAttempt(key: string, now: real)
      modifies this
      ensures attempts == old(attempts)[key := Attempts(old(attempts), key) + [now]]
    {
      attempts := attempts[key := Attempts(attempts, key) + [now]];
    }

    // `ok` is the outcome of the credential check, which is only made below the limit; `at` is the clock after it.
    method Login(key: string, now: real, at: real, ok: bool) returns (limited: bool)
      modifies this
      ensures (attempts, limited) == Step(old(attempts), Try(key, now, at, ok))
    {
      limited := RateLimited(key, now);
      if limited { return; }
      ghost var recent := Recent(Attempts(old(attempts), key), now);
      assert old(attempts)[key := recent] - {key} == old(attempts) - {key};
      assert old(attempts)[key := recent][key := recent + [at]] == old(attempts)[key := recent + [at]];
      if ok { attempts := attempts - {key}; } else { RecordAttempt(key, at); }
    }
  }

  // ---------- runs ----------

  // The clock is read when the attempt is checked, and again when its failure is recorded.
  datatype Try = Try(key: string, now: real, at: real, ok: bool)

  function Step(m: map<string, seq<real>>, t: Try): (map<string, seq<real>>, bool) {
    var recent := Recent(Attempts(m, t.key), t.now);
    if |recent| >= MAX_ATTEMPTS then (m[t.key := recent], true)
    else if t.ok then (m - {t.key}, false)
    else (m[t.key := recent + [t.at]], false)
  }

  // The table after the attempts.
  function After(tries: seq<Try>): map<string, seq<real>> {
    if tries == [] then map[] else Step(After(tries[..|tries| - 1]), tries[|tries| - 1]).0
  }

  // The key's recorded failures since its last success, in order.
  function Failures(tries: seq<Try>, key: string): seq<real> {
    if tries == [] then []
    else
      var n := |tries| - 1;
      var before := Failures(tries[..n], key);
      var limited := Step(After(tries[..n]), tries[n]).1;
      if tries[n].key != key || limited then before
      else if tries[n].ok then []
      else before + [tries[n].at]
  }

  ghost predicate ClockAdvances(tries: seq<Try>) {
    && (forall i :: 0 <= i < |tries| ==> tries[i].now <= tries[i].at)
    && (forall i, j :: 0 <= i < j < |tries| ==> tries[i].at <= tries[j].now)
  }

  ghost predicate Ordered(s: seq<real>) { forall i, j :: 0 <= i < j < |s| ==> s[i] <= s[j] }

  // The list kept for a key is its failures but for the oldest, which had left the window when dropped.
  ghost predicate Keeps(kept: seq<real>, failures: seq<real>, now: real) {
    && |kept| <= |failures| && kept == failures[|failures| - |kept|..]
    && Ordered(failures)
    && (forall t :: t in failures ==> t <= now)
    && (forall i :: 0 <= i < |failures| - |kept| ==> now - failures[i] >= WINDOW)
  }

  // No six failures within one window.
  ghost predicate Spread(failures: seq<real>) {
    forall i :: 0 <= i && i + MAX_ATTEMPTS < |failures| ==> failures[i + MAX_ATTEMPTS] - failures[i] >= WINDOW
  }

  lemma {:induction false} RecentNone(s: seq<real>, now: real)
    requires forall i :: 0 <= i < |s| ==> now - s[i] >= WINDOW
    ensures Recent(s, now) == []
  {
    if s != [] { RecentNone(s[..|s| - 1], now); }
  }

  lemma {:induction false} RecentAppend(s: seq<real>, u: seq<real>, now: real)
    ensures Recent(s + u, now) == Recent(s, now) + Recent(u, now)
    decreases |u|
  {
    if u == [] {
      assert s + u == s;
    } else {
      var n := |u| - 1;
      RecentAppend(s, u[..n], now);
      assert s + u == (s + u[..n]) + [u[n]];
      assert (s + u)[..|s + u| - 1] == s + u[..n];
    }
  }

  lemma {:induction false} RecentIsSuffix(s: seq<real>, now: real)
    requires Ordered(s)
    ensures |Recent(s, now)| <= |s| && Recent(s, now) == s[|s| - |Recent(s, now)|..]
    ensures forall i :: 0 <= i < |s| - |Recent(s, now)| ==> now - s[i] >= WINDOW
    decreases |s|
  {
    assert s == [] ==> Recent(s, now) == [];
    if s != [] {
      var n := |s| - 1;
      if now - s[n] >= WINDOW {
        assert forall i :: 0 <= i < n ==> s[i] <= s[n];
        RecentNone(s, now);
      } else {
        RecentIsSuffix(s[..n], now);
        assert Recent(s, now) == Recent(s[..n], now) + [s[n]];
        hide Recent;
        SuffixExtends(s, Recent(s[..n], now));
      }
    }
  }

  lemma SuffixExtends(s: seq<real>, r: seq<real>)
    requires s != [] && |r| <= |s| - 1 && r == s[..|s| - 1][|s| - 1 - |r|..]
    ensures r + [s[|s| - 1]] == s[|s| - 1 - |r|..]
  {
  }

  lemma RecentKeeps(kept: seq<real>, failures: seq<real>, before: real, now: real)
    requires Keeps(kept, failures, before) && before <= now
    ensures Keeps(Recent(kept, now), failures, now)
  {
    hide Recent;
    RecentIsSuffix(kept, now);
    var r, d := Recent(kept, now), |failures| - |kept|;
    forall i | 0 <= i < |failures| - |r|
      ensures now - failures[i] >= WINDOW
    {
      if i >= d { assert failures[i] == kept[i - d]; }
    }
  }

  lemma RecordKeeps(kept: seq<real>, failures: seq<real>, now: real, at: real)
    requires Keeps(kept, failures, now) && Spread(failures) && |kept| < MAX_ATTEMPTS && now <= at
    ensures Keeps(kept + [at], failures + [at], at) && Spread(failures + [at])
  {
    var more := failures + [at];
    assert more[|more| - |kept| - 1..] == kept + [at];
    assert forall t :: t in more ==> t in failures || t == at;
    forall i, j | 0 <= i < j < |more|
      ensures more[i] <= more[j]
    {
      if j == |failures| { assert more[i] in failures; }
    }
  }

  lemma NothingKept(now: real)
    ensures Keeps([], [], now) && Spread([]) && Attempts(map[], "") == []
  {
  }

  // The table before the last attempt, for its key and for the others.
  ghost predicate Fits(tries: seq<Try>, key: string, now: real) {
    Spread(Failures(tries, key)) && Keeps(Attempts(After(tries), key), Failures(tries, key), now)
  }

  lemma StepKeeps(tries: seq<Try>, key: string, before: real)
    requires tries != []
    requires var n := |tries| - 1; before <= tries[n].now <= tries[n].at && Fits(tries[..n], key, before)
    ensures Fits(tries, key, tries[|tries| - 1].at)
  {
    hide Keeps, Spread, Recent;
    var n := |tries| - 1;
    var t := tries[n];
    var m, failures := After(tries[..n]), Failures(tries[..n], key);
    var kept := Attempts(m, key);
    assert After(tries) == Step(m, t).0;
    if t.key == key {
      RecentKeeps(kept, failures, before, t.now);
      var recent := Recent(kept, t.now);
      if |recent| < MAX_ATTEMPTS && t.ok {
        NothingKept(t.at);
      } else if |recent| < MAX_ATTEMPTS {
        RecordKeeps(recent, failures, t.now, t.at);
      } else {
        KeepsLater(recent, failures, t.now, t.at);
      }
    } else {
      KeepsLater(kept, failures, before, t.at);
    }
  }

  lemma KeepsLater(kept: seq<real>, failures: seq<real>, before: real, now: real)
    requires Keeps(kept, failures, before) && before <= now
    ensures Keeps(kept, failures, now)
  {
  }

  lemma {:induction false} RunKeeps(tries: seq<Try>, key: string, now: real)
    requires ClockAdvances(tries) && forall i :: 0 <= i < |tries| ==> tries[i].at <= now
    ensures Fits(tries, key, now)
    decreases |tries|
  {
    hide Keeps, Spread, Step;
    if tries == [] {
      NothingKept(now);
    } else {
      var n := |tries| - 1;
      RunKeeps(tries[..n], key, tries[n].now);
      StepKeeps(tries, key, tries[n].now);
      KeepsLater(Attempts(After(tries), key), Failures(tries, key), tries[n].at, now);
    }
  }

  // Between two successes of a key, any window of less than 300 seconds holds at most 5 recorded failures.
  lemma FailuresAreSpread(tries: seq<Try>, key: string, i: nat)
    requires ClockAdvances(tries) && i + 5 < |Failures(tries, key)|
    ensures Failures(tries, key)[i + 5] - Failures(tries, key)[i] >= 300.0
  {
    hide Failures, After;
    LastTime(tries);
    RunKeeps(tries, key, if tries == [] then 0.0 else tries[|tries| - 1].at);
  }

  lemma LastTime(tries: seq<Try>)
    requires ClockAdvances(tries)
    ensures forall i :: 0 <= i < |tries| ==> tries[i].at <= tries[|tries| - 1].at
  {
  }

  lemma {:induction false} RecentCount(s: seq<real>, now: real)
    requires Ordered(s)
    ensures |Recent(s, now)| >= 5 <==> |s| >= 5 && now - s[|s| - 5] < 300.0
  {
    hide Recent;
    RecentIsSuffix(s, now);
    var r := Recent(s, now);
    if |r| >= 5 {
      assert r[|r| - 5] in r;
    }
  }

  // An attempt is refused exactly when the fifth last failure since the key's last success is less than 300 seconds
  // old.
  lemma RefusedIff(tries: seq<Try>, t: Try)
    requires ClockAdvances(tries) && forall i :: 0 <= i < |tries| ==> tries[i].at <= t.now
    ensures var failures := Failures(tries, t.key);
      Step(After(tries), t).1 <==> |failures| >= 5 && t.now - failures[|failures| - 5] < 300.0
  {
    hide Failures, After, Recent;
    RunKeeps(tries, t.key, t.now);
    var kept, failures := Attempts(After(tries), t.key), Failures(tries, t.key);
    var dropped := failures[..|failures| - |kept|];
    assert failures == dropped + kept;
    RecentNone(dropped, t.now);
    RecentAppend(dropped, kept, t.now);
    RecentCount(failures, t.now);
  }
}
