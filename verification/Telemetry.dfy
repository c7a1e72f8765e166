/** Runtime metrics as an incremental form of a function of the whole outcome log
    (app/runtime/telemetry.py, lines 43-80). */
module Telemetry {
  import opened Basics
  import opened Scheduler
  import opened Streams

  datatype Alert = Alert(job: string, status: RunStatus, failures: nat)

  predicate IsFailure(s: RunStatus) { s in {Failed, TimedOut, PersistenceFailed} }

  datatype Metrics = Metrics(
    total: nat, counts: map<RunStatus, nat>, streaks: map<string, nat>, last: map<string, RunStatus>)

  const EMPTY := Metrics(0, map[], map[], map[])

  function CountOf(m: Metrics, s: RunStatus): nat { if s in m.counts then m.counts[s] else 0 }

  function StreakOf(m: Metrics, job: string): nat { if job in m.streaks then m.streaks[job] else 0 }

  function Record(m: Metrics, o: RunOutcome): Metrics {
    Metrics(
      m.total + 1,
      m.counts[o.status := CountOf(m, o.status) + 1],
      m.streaks[o.job := if IsFailure(o.status) then StreakOf(m, o.job) + 1 else 0],
      m.last[o.job := o.status])
  }

  /** An alert when, and only when, the streak reaches the threshold. */
  function AlertsFor(m: Metrics, o: RunOutcome, threshold: int): seq<Alert> {
    if IsFailure(o.status) && StreakOf(m, o.job) + 1 == threshold
    then [Alert(o.job, o.status, StreakOf(m, o.job) + 1)]
    else []
  }

  function Absorb(m: Metrics, log: seq<RunOutcome>): Metrics {
    if log == [] then m else Record(Absorb(m, log[..|log| - 1]), log[|log| - 1])
  }

  function AlertsFrom(m: Metrics, log: seq<RunOutcome>, threshold: int): seq<Alert> {
    if log == [] then []
    else
      var n := |log|;
      AlertsFrom(m, log[..n - 1], threshold) + AlertsFor(Absorb(m, log[..n - 1]), log[n - 1], threshold)
  }

  lemma AbsorbNothing(m: Metrics, log: seq<RunOutcome>, threshold: int)
    ensures Absorb(m, log[..0]) == m && AlertsFrom(m, log[..0], threshold) == []
  {
  }

  lemma AbsorbOne(m: Metrics, log: seq<RunOutcome>, n: nat, threshold: int)
    requires n < |log|
    ensures Absorb(m, log[..n + 1]) == Record(Absorb(m, log[..n]), log[n])
    ensures AlertsFrom(m, log[..n + 1], threshold)
         == AlertsFrom(m, log[..n], threshold) + AlertsFor(Absorb(m, log[..n]), log[n], threshold)
  {
    assert log[..n + 1][..n] == log[..n];
  }

  /** The metrics object and its loop. */
  class RuntimeMetrics {
    var totalRuns: nat
    var statusCounts: map<RunStatus, nat>
    var consecutiveFailures: map<string, nat>
    var lastStatus: map<string, RunStatus>

    ghost function State(): Metrics
      reads this
    {
      Metrics(totalRuns, statusCounts, consecutiveFailures, lastStatus)
    }

    constructor ()
      ensures State() == EMPTY
    {
      totalRuns, statusCounts, consecutiveFailures, lastStatus := 0, map[], map[], map[];
    }

    /** One turn of the loop: every field, and at most one alert. */
    method Note(o: RunOutcome, threshold: int) returns (alerts: seq<Alert>)
      modifies this
      ensures State() == Record(old(State()), o)
      ensures alerts == AlertsFor(old(State()), o, threshold)
    {
      alerts := [];
      totalRuns := totalRuns + 1;
      statusCounts := statusCounts[o.status := (if o.status in statusCounts then statusCounts[o.status] else 0) + 1];
      lastStatus := lastStatus[o.job := o.status];
      if IsFailure(o.status) {
        var failures := (if o.job in consecutiveFailures then consecutiveFailures[o.job] else 0) + 1;
        consecutiveFailures := consecutiveFailures[o.job := failures];
        if failures == threshold {
          alerts := [Alert(o.job, o.status, failures)];
        }
      } else {
        consecutiveFailures := consecutiveFailures[o.job := 0];
      }
    }

    method Observe(outcomes: seq<RunOutcome>, threshold: int) returns (r: Result<seq<Alert>>)
      modifies this
      ensures threshold < 1 ==> r == Err(InvalidThreshold) && State() == old(State())
      ensures threshold >= 1 ==>
                && r == Ok(AlertsFrom(old(State()), outcomes, threshold))
                && State() == Absorb(old(State()), outcomes)
    {
      if threshold < 1 {
        return Err(InvalidThreshold);
      }
      hide Absorb, AlertsFrom, Record, AlertsFor;
      ghost var start := State();
      var alerts := [];
      AbsorbNothing(start, outcomes, threshold);
      for n := 0 to |outcomes|
        invariant State() == Absorb(start, outcomes[..n])
        invariant alerts == AlertsFrom(start, outcomes[..n], threshold)
      {
        AbsorbOne(start, outcomes, n, threshold);
        var raised := Note(outcomes[n], threshold);
        alerts := alerts + raised;
      }
      assert outcomes[..|outcomes|] == outcomes;
      return Ok(alerts);
    }
  }

  // ----- Batching does not matter

  lemma {:induction false} SplitIsIrrelevant(m: Metrics, a: seq<RunOutcome>, b: seq<RunOutcome>, threshold: int)
    ensures Absorb(m, a + b) == Absorb(Absorb(m, a), b)
    ensures AlertsFrom(m, a + b, threshold) == AlertsFrom(m, a, threshold) + AlertsFrom(Absorb(m, a), b, threshold)
  {
    hide Record, AlertsFor;
    if b == [] {
      assert a + b == a;
    } else {
      var n := |b|;
      assert (a + b)[..|a| + n - 1] == a + b[..n - 1];
      SplitIsIrrelevant(m, a, b[..n - 1], threshold);
    }
  }

  /** What a series of `observe` calls leaves, and the alerts they returned, one after another. */
  function ObserveAll(m: Metrics, batches: seq<seq<RunOutcome>>): Metrics {
    if batches == [] then m
    else Absorb(ObserveAll(m, batches[..|batches| - 1]), batches[|batches| - 1])
  }

  function AlertsOfAll(m: Metrics, batches: seq<seq<RunOutcome>>, threshold: int): seq<Alert> {
    if batches == [] then []
    else
      var n := |batches|;
      AlertsOfAll(m, batches[..n - 1], threshold)
      + AlertsFrom(ObserveAll(m, batches[..n - 1]), batches[n - 1], threshold)
  }

  function Joined(batches: seq<seq<RunOutcome>>): seq<RunOutcome> {
    if batches == [] then [] else Joined(batches[..|batches| - 1]) + batches[|batches| - 1]
  }

  lemma {:induction false} BatchingIsIrrelevant(m: Metrics, batches: seq<seq<RunOutcome>>, threshold: int)
    ensures ObserveAll(m, batches) == Absorb(m, Joined(batches))
    ensures AlertsOfAll(m, batches, threshold) == AlertsFrom(m, Joined(batches), threshold)
  {
    hide Record, AlertsFor;
    if batches != [] {
      var n := |batches|;
      BatchingIsIrrelevant(m, batches[..n - 1], threshold);
      SplitIsIrrelevant(m, Joined(batches[..n - 1]), batches[n - 1], threshold);
    }
  }

  // ----- The log seen from outside

  /** For one job, whether each of its runs failed, in order. */
  function Flags(log: seq<RunOutcome>, job: string): seq<bool> {
    if log == [] then []
    else
      var n := |log|;
      Flags(log[..n - 1], job)
      + if log[n - 1].job == job then [log[n - 1].status in {Failed, TimedOut, PersistenceFailed}] else []
  }

  /** The last `n` runs failed and the one before them, if any, did not. */
  ghost predicate TrailingStreak(flags: seq<bool>, n: nat) {
    && n <= |flags|
    && (forall i :: |flags| - n <= i < |flags| ==> flags[i])
    && (n < |flags| ==> !flags[|flags| - n - 1])
  }

  /** A maximal streak of failures starts at `a` and lasts at least `t` runs. */
  predicate LongStreakAt(flags: seq<bool>, t: int, a: int) {
    && 0 <= a && 0 < t && a + t <= |flags|
    && (a > 0 ==> !flags[a - 1])
    && forall i :: a <= i < a + t ==> flags[i]
  }

  /** The starts of the maximal failure streaks of at least `t` runs: one for each such streak. */
  function LongStreaks(flags: seq<bool>, t: int): set<int> {
    set a | 0 <= a < |flags| && LongStreakAt(flags, t, a)
  }

  function HasStatus(s: RunStatus): RunOutcome -> bool { (o: RunOutcome) => o.status == s }

  function AlertsOn(job: string): Alert -> bool { (a: Alert) => a.job == job }

  lemma StreakExtends(flags: seq<bool>, n: nat, failed: bool)
    requires TrailingStreak(flags, n)
    ensures TrailingStreak(flags + [failed], if failed then n + 1 else 0)
  {
  }

  /** One more run adds a long streak exactly when it brings the current streak to `t`. */
  lemma LongStreaksExtend(flags: seq<bool>, n: nat, failed: bool, t: int)
    requires TrailingStreak(flags, n) && t >= 1
    ensures LongStreaks(flags + [failed], t) ==
            LongStreaks(flags, t) + if failed && n + 1 == t then {|flags| + 1 - t} else {}
    ensures |flags| + 1 - t !in LongStreaks(flags, t)
  {
    var more, start := flags + [failed], |flags| + 1 - t;
    assert forall i :: 0 <= i < |flags| ==> more[i] == flags[i];
    forall a | 0 <= a < |more| && a != start ensures LongStreakAt(more, t, a) == LongStreakAt(flags, t, a) {
      assert a + t != |more|;
    }
    assert LongStreakAt(more, t, start) <==> failed && n + 1 == t by {
      if failed && n + 1 == t {
        assert forall i :: start <= i < |more| ==> more[i];
      } else if failed && n + 1 < t && start >= 0 {
        assert !more[|flags| - n - 1];
      } else if failed && n + 1 > t && start > 0 {
        assert more[start - 1];
      } else if !failed && start >= 0 {
        assert !more[|flags|];
      }
    }
  }

  lemma {:induction false} StreakMeaning(log: seq<RunOutcome>, job: string)
    ensures TrailingStreak(Flags(log, job), StreakOf(Absorb(EMPTY, log), job))
  {
    hide TrailingStreak;
    if log == [] {
      NoFlags(job);
    } else {
      var n := |log|;
      var o := log[n - 1];
      StreakMeaning(log[..n - 1], job);
      StreakExtends(Flags(log[..n - 1], job), StreakOf(Absorb(EMPTY, log[..n - 1]), job), IsFailure(o.status));
      assert Flags(log[..n - 1], job) + [] == Flags(log[..n - 1], job);
    }
  }

  lemma NoFlags(job: string)
    ensures TrailingStreak(Flags([], job), StreakOf(Absorb(EMPTY, []), job))
  {
  }

  lemma {:induction false} AlertMeaning(log: seq<RunOutcome>, job: string, t: int)
    requires t >= 1
    ensures Tally(AlertsFrom(EMPTY, log, t), AlertsOn(job)) == |LongStreaks(Flags(log, job), t)|
  {
    hide LongStreaks, Record;
    if log == [] {
      NoLongStreaks(t);
    } else {
      var n := |log|;
      var front, o := log[..n - 1], log[n - 1];
      var m := Absorb(EMPTY, front);
      AlertMeaning(front, job, t);
      StreakMeaning(front, job);
      TallyAppend(AlertsFrom(EMPTY, front, t), AlertsFor(m, o, t), AlertsOn(job));
      AlertTally(m, o, t, job);
      if o.job == job {
        LongStreaksExtend(Flags(front, job), StreakOf(m, job), IsFailure(o.status), t);
      } else {
        assert Flags(front, job) + [] == Flags(front, job);
      }
    }
  }

  lemma NoLongStreaks(t: int)
    ensures LongStreaks([], t) == {}
  {
  }

  lemma AlertTally(m: Metrics, o: RunOutcome, t: int, job: string)
    ensures Tally(AlertsFor(m, o, t), AlertsOn(job))
         == if o.job == job && IsFailure(o.status) && StreakOf(m, o.job) + 1 == t then 1 else 0
  {
  }

  lemma {:induction false} CountMeaning(log: seq<RunOutcome>, s: RunStatus)
    ensures CountOf(Absorb(EMPTY, log), s) == Tally(log, HasStatus(s))
    ensures Absorb(EMPTY, log).total == |log|
  {
    if log != [] {
      var n := |log|;
      CountMeaning(log[..n - 1], s);
      assert log == log[..n - 1] + [log[n - 1]];
      TallyAppend(log[..n - 1], [log[n - 1]], HasStatus(s));
    }
  }

  lemma {:induction false} CountsSum(log: seq<RunOutcome>)
    ensures |log| == Tally(log, HasStatus(Succeeded)) + Tally(log, HasStatus(RunDegraded)) + Tally(log, HasStatus(Failed))
                     + Tally(log, HasStatus(TimedOut)) + Tally(log, HasStatus(PersistenceFailed))
  {
    if log != [] {
      CountsSum(log[1..]);
    }
  }

  /** The status kept for a job is that of its last run. */
  ghost predicate LastRunOf(log: seq<RunOutcome>, job: string, i: int) {
    0 <= i < |log| && log[i].job == job && forall j :: i < j < |log| ==> log[j].job != job
  }

  lemma {:induction false} LastMeaning(log: seq<RunOutcome>, job: string)
    ensures job in Absorb(EMPTY, log).last <==> exists i :: LastRunOf(log, job, i)
    ensures forall i :: LastRunOf(log, job, i) ==>
              job in Absorb(EMPTY, log).last && Absorb(EMPTY, log).last[job] == log[i].status
  {
    if log != [] {
      var n := |log|;
      var front := log[..n - 1];
      LastMeaning(front, job);
      assert forall i :: 0 <= i < n - 1 ==> front[i] == log[i];
      if log[n - 1].job == job {
        assert LastRunOf(log, job, n - 1);
      } else {
        forall i ensures LastRunOf(log, job, i) <==> LastRunOf(front, job, i) {}
      }
    }
  }

  /** The length of the trailing streak of failures. */
  function Trailing(flags: seq<bool>): nat {
    if flags == [] || !flags[|flags| - 1] then 0 else Trailing(flags[..|flags| - 1]) + 1
  }

  lemma {:induction false} TrailingIsStreak(flags: seq<bool>, n: nat)
    requires TrailingStreak(flags, n)
    ensures Trailing(flags) == n
  {
    if n > 0 {
      TrailingIsStreak(flags[..|flags| - 1], n - 1);
    }
  }

  /** The alerts of a log, run by run: one for each failure that is the `t`-th in a row of its job,
      with that run's status. */
  function AlertsExpected(log: seq<RunOutcome>, t: int): seq<Alert> {
    if log == [] then []
    else
      var n := |log|;
      AlertsExpected(log[..n - 1], t)
      + if Trailing(Flags(log, log[n - 1].job)) == t then [Alert(log[n - 1].job, log[n - 1].status, t)] else []
  }

  lemma {:induction false} AlertsExactly(log: seq<RunOutcome>, t: int)
    requires t >= 1
    ensures AlertsFrom(EMPTY, log, t) == AlertsExpected(log, t)
  {
    hide TrailingStreak;
    if log != [] {
      var n := |log|;
      var front, o := log[..n - 1], log[n - 1];
      AlertsExactly(front, t);
      StreakMeaning(log, o.job);
      StreakMeaning(front, o.job);
      TrailingIsStreak(Flags(log, o.job), StreakOf(Absorb(EMPTY, log), o.job));
    }
  }

  /** After any series of observations the counts add up to the runs of the whole log, each job's
      counter is its trailing failure streak there, its alerts over all the calls are its long
      streaks, and its kept status is that of its last run. */
  lemma MetricsTheorem(batches: seq<seq<RunOutcome>>, job: string, t: int)
    requires t >= 1
    ensures var m, log := ObserveAll(EMPTY, batches), Joined(batches);
            && m.total == |log|
            && m.total == CountOf(m, Succeeded) + CountOf(m, RunDegraded) + CountOf(m, Failed)
                          + CountOf(m, TimedOut) + CountOf(m, PersistenceFailed)
            && (forall s :: CountOf(m, s) == Tally(log, HasStatus(s)))
            && TrailingStreak(Flags(log, job), StreakOf(m, job))
            && AlertsOfAll(EMPTY, batches, t) == AlertsExpected(log, t)
            && Tally(AlertsOfAll(EMPTY, batches, t), AlertsOn(job)) == |LongStreaks(Flags(log, job), t)|
            && (job in m.last <==> exists i :: LastRunOf(log, job, i))
            && (forall i :: LastRunOf(log, job, i) ==> job in m.last && m.last[job] == log[i].status)
  {
    hide Absorb, ObserveAll, Joined, CountOf, StreakOf, Flags, LongStreaks, TrailingStreak, AlertsFrom, AlertsOfAll, AlertsExpected, Tally;
    var log := Joined(batches);
    BatchingIsIrrelevant(EMPTY, batches, t);
    forall s ensures CountOf(Absorb(EMPTY, log), s) == Tally(log, HasStatus(s)) && Absorb(EMPTY, log).total == |log| {
      CountMeaning(log, s);
    }
    CountsSum(log);
    StreakMeaning(log, job);
    AlertMeaning(log, job, t);
    AlertsExactly(log, t);
    LastMeaning(log, job);
  }
}
