/** The runtime orchestrator as a system of atomic claims and finishes
    (app/runtime/scheduler.py). Times are ticks; intervals and delays are whole ticks. */
module Scheduler {
  import opened Basics
  import opened Streams

  datatype RawJob = RawJob(name: string, interval: int, delay: int) {
    predicate Valid() { name != "" && interval > 0 && delay >= 0 }
  }

  type Job = j: RawJob | j.Valid() witness RawJob("job", 1, 0)

  /** Names are the identity of jobs; the constructor refuses duplicates. */
  predicate UniqueNames(jobs: seq<Job>) {
    forall i, j :: 0 <= i < j < |jobs| ==> jobs[i].name != jobs[j].name
  }

  datatype Board = Board(next: map<string, Option<int>>, inFlight: set<string>)

  function Slot(next: map<string, Option<int>>, name: string): Option<int> {
    if name in next then next[name] else None
  }

  function Scheduled(b: Board, j: Job, now: int): int {
    if Slot(b.next, j.name).Some? then Slot(b.next, j.name).value else now + j.delay
  }

  /** The job is not running and its time has come. */
  predicate Due(b: Board, j: Job, now: int) {
    Scheduled(b, j, now) <= now && j.name !in b.inFlight
  }

  function DueOn(b: Board, now: int): Job -> bool { (j: Job) => Due(b, j, now) }

  /** Exactly the due jobs are claimed, in registration order. */
  function DueJobs(b: Board, jobs: seq<Job>, now: int): seq<Job> { Filter(jobs, DueOn(b, now)) }

  function NextTime(b: Board, j: Job, now: int): int {
    if Due(b, j, now) then now + j.interval else Scheduled(b, j, now)
  }

  function Advance(b: Board, jobs: seq<Job>, now: int): map<string, Option<int>> {
    if jobs == [] then b.next
    else Advance(b, jobs[..|jobs| - 1], now)[jobs[|jobs| - 1].name := Some(NextTime(b, jobs[|jobs| - 1], now))]
  }

  function Names(jobs: seq<Job>): set<string> { set i | 0 <= i < |jobs| :: jobs[i].name }

  function ClaimAll(b: Board, jobs: seq<Job>, now: int): Board {
    Board(Advance(b, jobs, now), b.inFlight + Names(DueJobs(b, jobs, now)))
  }

  lemma NamesAppend(jobs: seq<Job>, j: Job)
    ensures Names(jobs + [j]) == Names(jobs) + {j.name}
  {
    var more := jobs + [j];
    assert more[|jobs|] == j;
    assert forall i :: 0 <= i < |jobs| ==> more[i] == jobs[i];
  }

  lemma {:induction false} AdvanceMeaning(b: Board, jobs: seq<Job>, now: int)
    requires UniqueNames(jobs)
    ensures forall i :: 0 <= i < |jobs| ==>
              Slot(Advance(b, jobs, now), jobs[i].name) == Some(NextTime(b, jobs[i], now))
    ensures forall name :: name !in Names(jobs) ==> Slot(Advance(b, jobs, now), name) == Slot(b.next, name)
  {
    hide NextTime;
    if jobs != [] {
      var n := |jobs|;
      var front := jobs[..n - 1];
      AdvanceMeaning(b, front, now);
      assert forall i :: 0 <= i < n - 1 ==> front[i] == jobs[i];
      assert Names(jobs) == Names(front) + {jobs[n - 1].name};
    }
  }

  function FreshBoard(jobs: seq<Job>): Board {
    Board(map name | name in Names(jobs) :: None, {})
  }

  // ----- The object and its locked sections

  /** Construction, which refuses duplicate names. */
  method Register(jobs: seq<Job>) returns (r: Option<RuntimeOrchestrator>)
    ensures r.Some? <==> UniqueNames(jobs)
    ensures r.Some? ==> fresh(r.value) && r.value.Valid() && r.value.jobs == jobs && r.value.State() == FreshBoard(jobs)
  {
    if !UniqueNames(jobs) {
      return None;
    }
    var o := new RuntimeOrchestrator(jobs);
    return Some(o);
  }

  class RuntimeOrchestrator {
    const jobs: seq<Job>
    var nextRunAt: map<string, Option<int>>
    var inFlight: set<string>

    ghost predicate Valid()
      reads this
    {
      UniqueNames(jobs) && forall i :: 0 <= i < |jobs| ==> jobs[i].name in nextRunAt
    }

    ghost function State(): Board
      reads this
    {
      Board(nextRunAt, inFlight)
    }

    constructor (jobs: seq<Job>)
      requires UniqueNames(jobs)
      ensures Valid() && this.jobs == jobs && State() == FreshBoard(jobs)
    {
      this.jobs := jobs;
      nextRunAt := map name | name in Names(jobs) :: None;
      inFlight := {};
    }

    /** The section of `run_due` under the lock. */
    method ClaimDue(now: int) returns (due: seq<Job>)
      requires Valid()
      modifies this
      ensures Valid()
      ensures due == DueJobs(old(State()), jobs, now)
      ensures State() == ClaimAll(old(State()), jobs, now)
    {
      hide NextTime, Due, Advance, DueJobs;
      ghost var start := State();
      due := [];
      ClaimNothing(start, jobs, now);
      for n := 0 to |jobs|
        invariant Valid()
        invariant due == DueJobs(start, jobs[..n], now)
        invariant nextRunAt == Advance(start, jobs[..n], now)
        invariant inFlight == start.inFlight + Names(due)
      {
        var job := jobs[n];
        ClaimOneJob(start, jobs, now, n);
        ClaimOneEntry(start, job, now);
        var scheduled := if nextRunAt[job.name].Some? then nextRunAt[job.name].value else now + job.delay;
        nextRunAt := nextRunAt[job.name := Some(scheduled)];
        if scheduled <= now && job.name !in inFlight {
          inFlight := inFlight + {job.name};
          nextRunAt := nextRunAt[job.name := Some(now + job.interval)];
          NamesAppend(due, job);
          due := due + [job];
        }
      }
      assert jobs[..|jobs|] == jobs;
    }

    /** The `finally` section of `_run_job`. */
    method Release(name: string)
      requires Valid()
      modifies this`inFlight
      ensures Valid() && State() == Board(old(nextRunAt), old(inFlight) - {name})
    {
      inFlight := inFlight - {name};
    }
  }

  lemma ClaimNothing(b: Board, jobs: seq<Job>, now: int)
    ensures DueJobs(b, jobs[..0], now) == [] && Advance(b, jobs[..0], now) == b.next
  {
  }

  /** While job `n` is handled, the earlier jobs have not touched its entries. */
  lemma ClaimOneJob(b: Board, jobs: seq<Job>, now: int, n: nat)
    requires UniqueNames(jobs) && n < |jobs|
    ensures Slot(Advance(b, jobs[..n], now), jobs[n].name) == Slot(b.next, jobs[n].name)
    ensures jobs[n].name !in Names(DueJobs(b, jobs[..n], now))
    ensures Advance(b, jobs[..n + 1], now) == Advance(b, jobs[..n], now)[jobs[n].name := Some(NextTime(b, jobs[n], now))]
    ensures DueJobs(b, jobs[..n + 1], now)
         == DueJobs(b, jobs[..n], now) + if Due(b, jobs[n], now) then [jobs[n]] else []
  {
    var front := jobs[..n];
    assert jobs[..n + 1][..n] == front && jobs[..n + 1] == front + [jobs[n]];
    assert forall i :: 0 <= i < n ==> front[i] == jobs[i];
    AdvanceMeaning(b, front, now);
    FilterAppend(front, [jobs[n]], DueOn(b, now));
    assert Filter([jobs[n]], DueOn(b, now)) == if Due(b, jobs[n], now) then [jobs[n]] else [] by {
      assert [jobs[n]][1..] == [];
    }
    DueNamesWithin(b, front, now);
  }

  lemma ClaimOneEntry(b: Board, j: Job, now: int)
    ensures Due(b, j, now) <==> Scheduled(b, j, now) <= now && j.name !in b.inFlight
    ensures NextTime(b, j, now) == if Due(b, j, now) then now + j.interval else Scheduled(b, j, now)
  {
  }

  lemma DueNamesWithin(b: Board, jobs: seq<Job>, now: int)
    ensures Names(DueJobs(b, jobs, now)) <= Names(jobs)
  {
    var due := DueJobs(b, jobs, now);
    forall name | name in Names(due) ensures name in Names(jobs) {
      var i :| 0 <= i < |due| && due[i].name == name;
      assert due[i] in jobs;
    }
  }

  // ----- One run of a job

  datatype AdapterState = Healthy | Impaired | Down

  datatype RunStatus = Succeeded | RunDegraded | Failed | TimedOut | PersistenceFailed

  datatype RunOutcome = RunOutcome(job: string, status: RunStatus, startedAt: int, finishedAt: int, state: AdapterState)

  /** One reading of the clock: a time, or an exception that may be a timeout. */
  datatype Reading = At(time: int) | ClockRaises(timeout: bool)

  /** What `load` did: a payload that passes or fails validation, a timeout, or an exception. */
  datatype Load = Loaded(state: AdapterState, valid: bool) | LoadTimesOut | LoadRaises

  /** Everything outside the orchestrator that one run meets. */
  datatype Surroundings = Surroundings(
    startClock: Reading, load: Load, finishClock: Reading, stored: bool, lateClock: Reading)

  function Clamp(r: Reading, fallback: int): int {
    if r.At? && r.time >= fallback then r.time else fallback
  }

  function StatusFor(state: AdapterState): RunStatus {
    match state
    case Healthy => Succeeded
    case Impaired => RunDegraded
    case Down => Failed
  }

  function Persist(o: RunOutcome, stored: bool, late: Reading): RunOutcome {
    if stored then o else o.(status := PersistenceFailed, finishedAt := Clamp(late, o.finishedAt))
  }

  /** The nested handlers of `_run_job`, with its two persistence wrappers. */
  function RunJob(name: string, now: int, env: Surroundings): RunOutcome {
    var startedAt := Clamp(env.startClock, now);
    var finishedAt := Clamp(env.finishClock, startedAt);
    var timedOut := RunOutcome(name, TimedOut, startedAt, finishedAt, Down);
    var failed := RunOutcome(name, Failed, startedAt, finishedAt, Down);
    var outcome :=
      match env.startClock
      case ClockRaises(timeout) => if timeout then timedOut else failed
      case At(_) =>
        match env.load
        case LoadTimesOut => timedOut
        case LoadRaises => failed
        case Loaded(state, valid) =>
          if valid then RunOutcome(name, StatusFor(state), startedAt, finishedAt, state) else failed;
    Persist(outcome, env.stored, env.lateClock)
  }

  /** Whatever is raised, a run yields an outcome of its own job with ordered times, and it counts
      as successful exactly when nothing was raised and the source was healthy. */
  lemma RunJobOutcome(name: string, now: int, env: Surroundings)
    ensures var o := RunJob(name, now, env);
            && o.job == name && now <= o.startedAt <= o.finishedAt
            && (o.status == Succeeded <==>
                  env.startClock.At? && env.load == Loaded(Healthy, true) && env.stored)
            && (o.status == PersistenceFailed <==> !env.stored)
            && (o.status == RunDegraded <==> env.startClock.At? && env.load == Loaded(Impaired, true) && env.stored)
            && (o.status == TimedOut <==>
                  env.stored && (env.startClock == ClockRaises(true) || (env.startClock.At? && env.load == LoadTimesOut)))
            && (o.state != Down ==> env.startClock.At? && env.load == Loaded(o.state, true))
            && (env.startClock.At? && env.load.Loaded? && env.load.valid ==> o.state == env.load.state)
            && o.startedAt == Latest(now, env.startClock)
            && o.finishedAt == if env.stored then Latest(o.startedAt, env.finishClock)
                               else Latest(Latest(o.startedAt, env.finishClock), env.lateClock)
  {
  }

  /** The reading if it is later, else the time before it. */
  function Latest(before: int, r: Reading): int {
    match r
    case ClockRaises(_) => before
    case At(t) => if before < t then t else before
  }

  // ----- The system: calls of `run_due`, interleaved

  /** One call: its claimed jobs in order, and the outcome of each once it has finished. */
  datatype Call = Call(now: int, due: seq<Job>, results: seq<Option<RunOutcome>>)

  datatype Start = Start(job: Job, at: int)

  datatype World = World(board: Board, calls: seq<Call>, starts: seq<Start>)

  datatype Step = Claim(now: int) | Finish(call: nat, slot: nat, env: Surroundings)

  function StartsOf(due: seq<Job>, now: int): (r: seq<Start>)
    ensures |r| == |due| && forall i :: 0 <= i < |due| ==> r[i] == Start(due[i], now)
  {
    seq(|due|, i requires 0 <= i < |due| => Start(due[i], now))
  }

  function Pending(n: nat): (r: seq<Option<RunOutcome>>)
    ensures |r| == n && forall i :: 0 <= i < n ==> r[i] == None
  {
    seq(n, i => None)
  }

  predicate Active(w: World, c: int, k: int) {
    && 0 <= c < |w.calls| && 0 <= k < |w.calls[c].due| && k < |w.calls[c].results|
    && w.calls[c].results[k].None?
  }

  function ActiveName(w: World, c: int, k: int): string
    requires Active(w, c, k)
  {
    w.calls[c].due[k].name
  }

  /** A step that is not enabled changes nothing. */
  function Next(jobs: seq<Job>, w: World, step: Step): World {
    match step
    case Claim(now) =>
      var due := DueJobs(w.board, jobs, now);
      World(ClaimAll(w.board, jobs, now), w.calls + [Call(now, due, Pending(|due|))], w.starts + StartsOf(due, now))
    case Finish(c, k, env) =>
      if Active(w, c, k) then
        var call := w.calls[c];
        var outcome := RunJob(call.due[k].name, call.now, env);
        World(Board(w.board.next, w.board.inFlight - {call.due[k].name}),
              w.calls[c := call.(results := call.results[k := Some(outcome)])], w.starts)
      else w
  }

  function Init(jobs: seq<Job>): World { World(FreshBoard(jobs), [], []) }

  function Reached(jobs: seq<Job>, steps: seq<Step>): World {
    if steps == [] then Init(jobs) else Next(jobs, Reached(jobs, steps[..|steps| - 1]), steps[|steps| - 1])
  }

  // ----- What every reachable world satisfies

  ghost predicate OneRunEach(w: World) {
    forall c, k, c', k' :: Active(w, c, k) && Active(w, c', k') && ActiveName(w, c, k) == ActiveName(w, c', k') ==>
      c == c' && k == k'
  }

  ghost predicate InFlightExact(w: World) {
    && (forall c, k :: Active(w, c, k) ==> ActiveName(w, c, k) in w.board.inFlight)
    && (forall name :: name in w.board.inFlight ==> exists c, k :: Active(w, c, k) && ActiveName(w, c, k) == name)
  }

  /** A call has a slot for each job it claimed, and each filled slot holds that job's outcome. */
  ghost predicate CallSound(call: Call) {
    && |call.results| == |call.due|
    && forall k :: 0 <= k < |call.due| && call.results[k].Some? ==>
         var o := call.results[k].value;
         o.job == call.due[k].name && call.now <= o.startedAt <= o.finishedAt
  }

  ghost predicate CallsSound(w: World) {
    forall c :: 0 <= c < |w.calls| ==> CallSound(w.calls[c])
  }

  /** Starts of one job are at least its interval apart, and its next time is past them all. */
  ghost predicate Spaced(jobs: seq<Job>, w: World) {
    && (forall i :: 0 <= i < |w.starts| ==>
          && w.starts[i].job in jobs
          && Slot(w.board.next, w.starts[i].job.name).Some?
          && w.starts[i].at + w.starts[i].job.interval <= Slot(w.board.next, w.starts[i].job.name).value)
    && (forall i, j :: 0 <= i < j < |w.starts| && w.starts[i].job.name == w.starts[j].job.name ==>
          w.starts[i].at + w.starts[i].job.interval <= w.starts[j].at)
  }

  ghost predicate Inv(jobs: seq<Job>, w: World) {
    OneRunEach(w) && InFlightExact(w) && CallsSound(w) && Spaced(jobs, w)
  }

  lemma ClaimFacts(b: Board, jobs: seq<Job>, now: int)
    requires UniqueNames(jobs)
    ensures var due := DueJobs(b, jobs, now);
            && (forall k :: 0 <= k < |due| ==> due[k] in jobs && Due(b, due[k], now))
            && (forall k, k' :: 0 <= k < |due| && 0 <= k' < |due| && due[k].name == due[k'].name ==> k == k')
            && (forall j :: j in jobs ==> Slot(Advance(b, jobs, now), j.name) == Some(NextTime(b, j, now)))
  {
    hide Due, NextTime, Advance;
    var due := DueJobs(b, jobs, now);
    AdvanceMeaning(b, jobs, now);
    forall k | 0 <= k < |due| ensures due[k] in jobs && Due(b, due[k], now) {
      assert due[k] in due;
    }
    DueUnique(b, jobs, now);
  }

  lemma {:induction false} DueUnique(b: Board, jobs: seq<Job>, now: int)
    requires UniqueNames(jobs)
    ensures UniqueNames(DueJobs(b, jobs, now))
  {
    hide Due;
    if jobs != [] {
      DueUnique(b, jobs[1..], now);
      var rest := DueJobs(b, jobs[1..], now);
      forall i | 0 <= i < |rest| ensures rest[i].name != jobs[0].name {
        assert rest[i] in jobs[1..];
      }
    }
  }

  lemma ClaimKeepsRuns(jobs: seq<Job>, w: World, now: int)
    requires UniqueNames(jobs) && OneRunEach(w) && InFlightExact(w) && CallsSound(w)
    ensures OneRunEach(Next(jobs, w, Claim(now))) && InFlightExact(Next(jobs, w, Claim(now)))
    ensures CallsSound(Next(jobs, w, Claim(now)))
  {
    hide Scheduled, Advance, Filter;
    var v := Next(jobs, w, Claim(now));
    var due, n := DueJobs(w.board, jobs, now), |w.calls|;
    ClaimFacts(w.board, jobs, now);
    forall c, k | Active(v, c, k)
      ensures c < n ==> Active(w, c, k) && ActiveName(w, c, k) == ActiveName(v, c, k)
      ensures c == n ==> k < |due| && ActiveName(v, c, k) == due[k].name && due[k].name !in w.board.inFlight
      ensures ActiveName(v, c, k) in v.board.inFlight
    {
      if c == n {
        assert v.calls[n].due == due;
        assert due[k].name in Names(due);
      }
    }
    forall name | name in v.board.inFlight ensures exists c, k :: Active(v, c, k) && ActiveName(v, c, k) == name {
      if name in w.board.inFlight {
        var c, k :| Active(w, c, k) && ActiveName(w, c, k) == name;
        assert Active(v, c, k) && ActiveName(v, c, k) == name;
      } else {
        var k :| 0 <= k < |due| && due[k].name == name;
        assert Active(v, n, k) && ActiveName(v, n, k) == name;
      }
    }
  }

  lemma ClaimKeepsSpacing(jobs: seq<Job>, w: World, now: int)
    requires UniqueNames(jobs) && Spaced(jobs, w)
    ensures Spaced(jobs, Next(jobs, w, Claim(now)))
  {
    hide Advance, Filter;
    var v := Next(jobs, w, Claim(now));
    var due, n := DueJobs(w.board, jobs, now), |w.starts|;
    ClaimFacts(w.board, jobs, now);
    forall i | 0 <= i < |v.starts|
      ensures v.starts[i].job in jobs && Slot(v.board.next, v.starts[i].job.name).Some?
      ensures v.starts[i].at + v.starts[i].job.interval <= Slot(v.board.next, v.starts[i].job.name).value
    {
      var job := v.starts[i].job;
      if i < n {
        assert v.starts[i] == w.starts[i];
      } else {
        assert v.starts[i] == Start(due[i - n], now);
      }
      assert Slot(v.board.next, job.name) == Some(NextTime(w.board, job, now));
    }
    forall i, j | 0 <= i < j < |v.starts| && v.starts[i].job.name == v.starts[j].job.name
      ensures v.starts[i].at + v.starts[i].job.interval <= v.starts[j].at
    {
      if j < n {
        assert v.starts[i] == w.starts[i] && v.starts[j] == w.starts[j];
      } else {
        assert v.starts[j] == Start(due[j - n], now);
        if i < n {
          assert v.starts[i] == w.starts[i];
          assert Due(w.board, due[j - n], now);
        }
      }
    }
  }

  lemma FinishKeeps(jobs: seq<Job>, w: World, c: nat, k: nat, env: Surroundings)
    requires Inv(jobs, w) && Active(w, c, k)
    ensures Inv(jobs, Next(jobs, w, Finish(c, k, env)))
    ensures Next(jobs, w, Finish(c, k, env)).calls[c].results == w.calls[c].results[k := Some(RunJob(ActiveName(w, c, k), w.calls[c].now, env))]
    ensures Next(jobs, w, Finish(c, k, env)).starts == w.starts
    ensures ActiveName(w, c, k) !in Next(jobs, w, Finish(c, k, env)).board.inFlight
  {
    hide RunJob, Spaced;
    var v := Next(jobs, w, Finish(c, k, env));
    var name := ActiveName(w, c, k);
    RunJobOutcome(w.calls[c].due[k].name, w.calls[c].now, env);
    forall c', k' | Active(v, c', k')
      ensures Active(w, c', k') && ActiveName(w, c', k') == ActiveName(v, c', k') && (c' != c || k' != k)
      ensures ActiveName(v, c', k') != name
    {
    }
    forall other | other in v.board.inFlight
      ensures exists c', k' :: Active(v, c', k') && ActiveName(v, c', k') == other
    {
      var c', k' :| Active(w, c', k') && ActiveName(w, c', k') == other;
      assert Active(v, c', k') && ActiveName(v, c', k') == other;
    }
    assert Spaced(jobs, w) == Spaced(jobs, v) by { SpacedDepends(jobs, w, v); }
  }

  lemma SpacedDepends(jobs: seq<Job>, w: World, v: World)
    requires w.board.next == v.board.next && w.starts == v.starts
    ensures Spaced(jobs, w) == Spaced(jobs, v)
  {
  }

  /** Over every interleaving: one run per job, the in-flight set exact, every outcome in its
      slot with ordered times, and the starts of a job an interval apart, whatever times the
      callers supply. */
  lemma {:induction false} EveryRun(jobs: seq<Job>, steps: seq<Step>)
    requires UniqueNames(jobs)
    ensures Inv(jobs, Reached(jobs, steps))
  {
    hide OneRunEach, InFlightExact, CallsSound, Spaced, Next;
    if steps == [] {
      InitHolds(jobs);
    } else {
      var w, step := Reached(jobs, steps[..|steps| - 1]), steps[|steps| - 1];
      EveryRun(jobs, steps[..|steps| - 1]);
      match step {
        case Claim(now) =>
          ClaimKeepsRuns(jobs, w, now);
          ClaimKeepsSpacing(jobs, w, now);
        case Finish(c, k, env) =>
          if Active(w, c, k) {
            FinishKeeps(jobs, w, c, k, env);
          } else {
            Disabled(jobs, w, c, k, env);
          }
      }
    }
  }

  lemma InitHolds(jobs: seq<Job>)
    ensures Inv(jobs, Init(jobs))
  {
  }

  lemma Disabled(jobs: seq<Job>, w: World, c: nat, k: nat, env: Surroundings)
    requires !Active(w, c, k)
    ensures Next(jobs, w, Finish(c, k, env)) == w
  {
  }

  // ----- How often a job can start

  function StartsBetween(starts: seq<Start>, name: string, from: int, until: int): nat {
    if starts == [] then 0
    else
      var last := starts[|starts| - 1];
      StartsBetween(starts[..|starts| - 1], name, from, until)
      + if last.job.name == name && from <= last.at <= until then 1 else 0
  }

  ghost predicate WellSpaced(starts: seq<Start>, job: Job) {
    && (forall i :: 0 <= i < |starts| && starts[i].job.name == job.name ==> starts[i].job == job)
    && (forall i, j :: 0 <= i < j < |starts| && starts[i].job.name == job.name && starts[j].job.name == job.name ==>
          starts[i].at + job.interval <= starts[j].at)
  }

  /** The last counted start is at least (count - 1) intervals after the window opens. */
  lemma {:induction false} StartsSpread(starts: seq<Start>, job: Job, from: int, until: int) returns (i: nat)
    requires WellSpaced(starts, job) && StartsBetween(starts, job.name, from, until) > 0
    ensures i < |starts| && starts[i].job.name == job.name && from <= starts[i].at <= until
    ensures from + Times(StartsBetween(starts, job.name, from, until) - 1, job.interval) <= starts[i].at
    decreases |starts|
  {
    hide WellSpaced;
    var n := |starts|;
    var front, last := starts[..n - 1], starts[n - 1];
    FrontWellSpaced(starts, job);
    if last.job.name == job.name && from <= last.at <= until {
      i := n - 1;
      if StartsBetween(front, job.name, from, until) > 0 {
        var p := StartsSpread(front, job, from, until);
        LastAfter(starts, job, p);
      }
    } else {
      i := StartsSpread(front, job, from, until);
    }
  }

  function Times(k: nat, d: int): int { if k == 0 then 0 else Times(k - 1, d) + d }

  lemma {:induction false} TimesIsProduct(k: nat, d: int)
    ensures Times(k, d) == k * d
  {
    if k > 0 {
      TimesIsProduct(k - 1, d);
    }
  }

  lemma FrontWellSpaced(starts: seq<Start>, job: Job)
    requires starts != [] && WellSpaced(starts, job)
    ensures WellSpaced(starts[..|starts| - 1], job)
  {
  }

  lemma LastAfter(starts: seq<Start>, job: Job, p: nat)
    requires WellSpaced(starts, job) && p < |starts| - 1
    requires starts[p].job.name == job.name && starts[|starts| - 1].job.name == job.name
    ensures starts[p].at + job.interval <= starts[|starts| - 1].at
  {
  }

  /** Any span of length L holds at most floor(L / interval) + 1 starts of a job. */
  lemma StartRate(jobs: seq<Job>, steps: seq<Step>, job: Job, from: int, length: nat)
    requires UniqueNames(jobs) && job in jobs
    ensures StartsBetween(Reached(jobs, steps).starts, job.name, from, from + length) <= length / job.interval + 1
  {
    hide OneRunEach, InFlightExact, CallsSound, Reached;
    EveryRun(jobs, steps);
    var starts := Reached(jobs, steps).starts;
    var n := StartsBetween(starts, job.name, from, from + length);
    if n > 0 {
      forall i | 0 <= i < |starts| && starts[i].job.name == job.name ensures starts[i].job == job {
        SameNameSameJob(jobs, starts[i].job, job);
      }
      assert WellSpaced(starts, job);
      var i := StartsSpread(starts, job, from, from + length);
      TimesIsProduct(n - 1, job.interval);
      assert (n - 1) * job.interval <= length;
      FloorBound(n - 1, job.interval, length);
    }
  }

  lemma SameNameSameJob(jobs: seq<Job>, a: Job, b: Job)
    requires UniqueNames(jobs) && a in jobs && b in jobs && a.name == b.name
    ensures a == b
  {
  }

  lemma LessByProduct(k: int, m: int, d: int)
    requires d > 0 && k * d < m * d
    ensures k < m
  {
  }

  lemma FloorBound(k: nat, d: int, x: nat)
    requires d > 0 && k * d <= x
    ensures k <= x / d
  {
    var q := x / d;
    assert x == q * d + x % d;
    assert (q + 1) * d == q * d + d;
    LessByProduct(k, q + 1, d);
  }

  /** Step `k` made call number `c`: it claimed, in registration order, exactly the jobs that were
      due on the board that the steps before it had left. */
  ghost predicate ClaimedBy(jobs: seq<Job>, steps: seq<Step>, k: int, c: nat, call: Call) {
    && 0 <= k < |steps| && steps[k] == Claim(call.now)
    && |Reached(jobs, steps[..k]).calls| == c
    && call.due == DueJobs(Reached(jobs, steps[..k]).board, jobs, call.now)
  }

  lemma NextCall(jobs: seq<Job>, w: World, step: Step, c: nat)
    requires c < |Next(jobs, w, step).calls|
    ensures var call := Next(jobs, w, step).calls[c];
            if c < |w.calls| then call.now == w.calls[c].now && call.due == w.calls[c].due
            else step == Claim(call.now) && c == |w.calls| && call.due == DueJobs(w.board, jobs, call.now)
  {
    hide DueJobs, ClaimAll, RunJob;
  }

  lemma {:induction false} EveryCallClaimed(jobs: seq<Job>, steps: seq<Step>, c: nat) returns (k: int)
    requires c < |Reached(jobs, steps).calls|
    ensures ClaimedBy(jobs, steps, k, c, Reached(jobs, steps).calls[c])
  {
    hide Next, DueJobs;
    var last := |steps| - 1;
    var front := steps[..last];
    NextCall(jobs, Reached(jobs, front), steps[last], c);
    if c < |Reached(jobs, front).calls| {
      k := EveryCallClaimed(jobs, front, c);
      assert front[..k] == steps[..k];
    } else {
      k := last;
    }
  }

  /** Every call claimed exactly the jobs due when it claimed, and returns one outcome for each, in
      registration order. */
  lemma CallReturns(jobs: seq<Job>, steps: seq<Step>, c: nat)
    requires UniqueNames(jobs) && c < |Reached(jobs, steps).calls|
    ensures var call := Reached(jobs, steps).calls[c];
            && (exists k :: ClaimedBy(jobs, steps, k, c, call))
            && |call.results| == |call.due|
            && forall k :: 0 <= k < |call.due| && call.results[k].Some? ==>
                 call.results[k].value.job == call.due[k].name
                 && call.now <= call.results[k].value.startedAt <= call.results[k].value.finishedAt
  {
    hide OneRunEach, InFlightExact, Spaced, Reached, ClaimedBy;
    EveryRun(jobs, steps);
    assert CallSound(Reached(jobs, steps).calls[c]);
    var k := EveryCallClaimed(jobs, steps, c);
  }

  // ----- When a job is claimed

  /** The time of the first call. */
  function FirstCall(steps: seq<Step>): Option<int> {
    if steps == [] then None
    else if FirstCall(steps[..|steps| - 1]).Some? then FirstCall(steps[..|steps| - 1])
    else if steps[|steps| - 1].Claim? then Some(steps[|steps| - 1].now)
    else None
  }

  /** The time of the last start of a job. */
  function LastStart(starts: seq<Start>, name: string): Option<int> {
    if starts == [] then None
    else if starts[|starts| - 1].job.name == name then Some(starts[|starts| - 1].at)
    else LastStart(starts[..|starts| - 1], name)
  }

  /** When the next start of a job is due: an interval after its last one, or its delay after the
      first call. */
  function NextStart(starts: seq<Start>, first: Option<int>, job: Job): Option<int> {
    match LastStart(starts, job.name)
    case Some(at) => Some(at + job.interval)
    case None => if first.Some? then Some(first.value + job.delay) else None
  }

  lemma {:induction false} StartsOfClaim(starts: seq<Start>, due: seq<Job>, now: int, name: string)
    ensures LastStart(starts + StartsOf(due, now), name) == if name in Names(due) then Some(now) else LastStart(starts, name)
  {
    hide Names;
    if due == [] {
      assert starts + StartsOf(due, now) == starts;
      NoNames();
    } else {
      var n := |due| - 1;
      var front, all := due[..n], starts + StartsOf(due, now);
      assert all[..|all| - 1] == starts + StartsOf(front, now);
      assert all[|all| - 1] == Start(due[n], now);
      StartsOfClaim(starts, front, now, name);
      NamesAppend(front, due[n]);
      assert front + [due[n]] == due;
    }
  }

  lemma NoNames()
    ensures Names([]) == {}
  {
  }

  /** A claimed job of the list is that job. */
  lemma ClaimedByName(b: Board, jobs: seq<Job>, now: int, job: Job)
    requires UniqueNames(jobs) && job in jobs
    ensures var due := DueJobs(b, jobs, now);
            && (job.name in Names(due) <==> Due(b, job, now))
            && (job in due <==> Due(b, job, now))
  {
    hide Due, Filter;
    var due := DueJobs(b, jobs, now);
    if Due(b, job, now) {
      FilterComplete(jobs, DueOn(b, now), job);
      var k :| 0 <= k < |due| && due[k] == job;
    }
    if job.name in Names(due) {
      var k :| 0 <= k < |due| && due[k].name == job.name;
      assert due[k] in due;
      SameNameSameJob(jobs, due[k], job);
    }
  }

  /** The board keeps, for every job, the time its next start is due. */
  lemma {:induction false} BoardKeepsNextStart(jobs: seq<Job>, steps: seq<Step>, job: Job)
    requires UniqueNames(jobs) && job in jobs
    ensures var w := Reached(jobs, steps);
            Slot(w.board.next, job.name) == NextStart(w.starts, FirstCall(steps), job)
  {
    hide DueJobs, Advance, Due, StartsOf, RunJob;
    if steps != [] {
      var front, step := steps[..|steps| - 1], steps[|steps| - 1];
      BoardKeepsNextStart(jobs, front, job);
      if step.Claim? {
        ClaimMoves(jobs, front, step.now, job);
      }
    }
  }

  lemma ClaimMoves(jobs: seq<Job>, front: seq<Step>, now: int, job: Job)
    requires UniqueNames(jobs) && job in jobs
    requires Slot(Reached(jobs, front).board.next, job.name) == NextStart(Reached(jobs, front).starts, FirstCall(front), job)
    ensures var v := Next(jobs, Reached(jobs, front), Claim(now));
            Slot(v.board.next, job.name) ==
            NextStart(v.starts, if FirstCall(front).Some? then FirstCall(front) else Some(now), job)
  {
    hide DueJobs, Advance, Reached, FirstCall, LastStart;
    var w := Reached(jobs, front);
    ClaimFacts(w.board, jobs, now);
    ClaimedByName(w.board, jobs, now, job);
    StartsOfClaim(w.starts, DueJobs(w.board, jobs, now), now, job.name);
  }

  ghost predicate Running(w: World, name: string) {
    exists c, k :: Active(w, c, k) && ActiveName(w, c, k) == name
  }

  /** A call claims a job exactly when no run of it is active and its next start is due: never
      before its delay after the first call nor within an interval of its last start, and at the
      first call at or after that time at which it is idle. */
  lemma ClaimedExactly(jobs: seq<Job>, steps: seq<Step>, now: int, job: Job)
    requires UniqueNames(jobs) && job in jobs
    ensures var w, v := Reached(jobs, steps), Reached(jobs, steps + [Claim(now)]);
            var first := if FirstCall(steps).Some? then FirstCall(steps) else Some(now);
            && |v.calls| == |w.calls| + 1 && v.calls[|w.calls|].now == now
            && (job in v.calls[|w.calls|].due <==> !Running(w, job.name) && NextStart(w.starts, first, job).value <= now)
            && v.starts == w.starts + StartsOf(v.calls[|w.calls|].due, now)
  {
    hide OneRunEach, CallsSound, Spaced, DueJobs, ClaimAll, LastStart, FirstCall;
    var w, more := Reached(jobs, steps), steps + [Claim(now)];
    assert more[..|steps|] == steps;
    EveryRun(jobs, steps);
    BoardKeepsNextStart(jobs, steps, job);
    ClaimedByName(w.board, jobs, now, job);
    assert Running(w, job.name) <==> job.name in w.board.inFlight;
  }
}
