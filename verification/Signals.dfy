/** Assembly of a signal through its eleven gates (app/signals/service.py). Times are in seconds. */
module Signals {
  import opened Backtest
  import opened Basics
  import opened Consensus
  import opened Ordering
  import opened Planning
  import opened Reals

  datatype SignalStatus =
    | HypeWatch | WeaknessWatch | BreakdownWatch | ExecutionPending | DataDegraded | Avoid | ShortReady

  datatype GateState = Pass | Warn | Fail | Skip

  datatype Gate =
    | DiscoveryContext | SymbolAlignment | HigherTimeframe | Structure | SetupClassification | Flow
    | LbankExecution | CrossExchange | EntryAlignment | PlanningGate | LifecycleGate

  const GATE_ORDER: seq<Gate> :=
    [DiscoveryContext, SymbolAlignment, HigherTimeframe, Structure, SetupClassification, Flow,
     LbankExecution, CrossExchange, EntryAlignment, PlanningGate, LifecycleGate]

  datatype Decision = Decision(gate: Gate, state: GateState)

  datatype HigherTimeframeEvidence = HigherTimeframeEvidence(
    symbol: string, marketSymbol: string, observedAt: real, dailyDamaged: bool, fourHourDamaged: bool)

  datatype RawStructureInput = RawStructureInput(symbol: string, current: real, low: real, high: real)

  /** The constructor guarantees an ordered reference range, so the analyzer cannot raise. */
  type StructureInput = s: RawStructureInput | 0.0 < s.low < s.high && s.current > 0.0
    witness RawStructureInput("X", 1.0, 1.0, 2.0)

  datatype StructureState = Neutral | Weak | Alert

  function StructureOf(s: StructureInput): StructureState {
    if s.current < s.low then Alert
    else if s.current < (s.low + s.high) / 2.0 then Weak
    else Neutral
  }

  datatype RawSignalRequest = RawSignalRequest(
    symbol: string, higherTimeframe: HigherTimeframeEvidence, structure: StructureInput, lbank: Lbank,
    benchmarks: seq<Snapshot>, symbolMap: SymbolMap, plan: PlanRequest, discoveryRecords: nat)
  {
    /** What the constructor demands: the evidence was derived from the mapped Bybit market. */
    predicate Valid() {
      && symbol != "" && higherTimeframe.marketSymbol != ""
      && symbolMap.Expected(BybitLinear) == Some(higherTimeframe.marketSymbol)
    }
  }

  /** A request the constructor accepted. */
  type SignalRequest = q: RawSignalRequest | q.Valid() witness Sample(120.0, 100.0)

  datatype RawSignalRules = RawSignalRules(maxStructureAgeMinutes: real, maxEntryBps: real, maxDiscovery: int, consensus: ConsensusRules)

  type SignalRules = r: RawSignalRules | r.maxStructureAgeMinutes > 0.0 && r.maxEntryBps > 0.0 && 0 <= r.maxDiscovery <= 500
    witness DEFAULT_SIGNAL_RULES

  const DEFAULT_SIGNAL_RULES := RawSignalRules(360.0, 50.0, 50,
    RawConsensusRules(2, 0.2, 0.5, 1.0, 1.0, HealthRules(20.0, 10.0, 2500), LbankRules(15.0, 2500, 25.0, 1000.0, 1000.0)))

  datatype SignalReport = SignalReport(status: SignalStatus, gates: seq<Decision>, plan: Plan, active: bool, consensus: Option<Report>)

  // ----- The individual gates

  function DiscoveryState(q: SignalRequest, rules: SignalRules): GateState {
    if q.discoveryRecords > rules.maxDiscovery then Fail else if q.discoveryRecords == 0 then Warn else Pass
  }

  predicate SymbolsAligned(q: SignalRequest) {
    && q.symbolMap.canonical == q.symbol && q.higherTimeframe.symbol == q.symbol
    && q.structure.symbol == q.symbol && q.plan.symbol == q.symbol
    && q.lbank.symbol == q.symbolMap.lbank
  }

  function AgeMinutes(q: SignalRequest, now: real): real { (now - q.higherTimeframe.observedAt) / 60.0 }

  predicate EvidenceFresh(q: SignalRequest, now: real, rules: SignalRules) {
    -(1.0 / 60.0) <= AgeMinutes(q, now) <= rules.maxStructureAgeMinutes
  }

  predicate BothDamaged(q: SignalRequest) { q.higherTimeframe.dailyDamaged && q.higherTimeframe.fourHourDamaged }

  function EntryDeviationBps(q: SignalRequest): real {
    (if q.plan.entry >= q.lbank.Mid() then q.plan.entry - q.lbank.Mid() else q.lbank.Mid() - q.plan.entry) / q.lbank.Mid() * 10000.0
  }

  function ConsensusOf(q: SignalRequest, now: real, rules: SignalRules): Result<Report> {
    BuildConsensus(q.lbank, q.benchmarks, q.symbolMap, now, rules.consensus)
  }

  function WatchStatus(s: StructureState): SignalStatus {
    match s
    case Neutral => HypeWatch
    case Weak => WeaknessWatch
    case Alert => BreakdownWatch
  }

  // ----- Completing the gate list

  function StateOf(gates: seq<Decision>, g: Gate): GateState {
    if gates == [] then Skip
    else if gates[|gates| - 1].gate == g then gates[|gates| - 1].state
    else StateOf(gates[..|gates| - 1], g)
  }

  /** One decision per gate in the fixed order; gates not evaluated are skipped. */
  function CompleteGates(gates: seq<Decision>): (r: seq<Decision>)
    ensures |r| == |GATE_ORDER|
    ensures forall i :: 0 <= i < |r| ==> r[i] == Decision(GATE_ORDER[i], StateOf(gates, GATE_ORDER[i]))
  {
    seq(|GATE_ORDER|, i requires 0 <= i < |GATE_ORDER| => Decision(GATE_ORDER[i], StateOf(gates, GATE_ORDER[i])))
  }

  predicate Passed(d: Decision) { d.state in {Pass, Warn} }

  predicate AllPassed(gates: seq<Decision>) { forall i :: 0 <= i < |gates| ==> Passed(gates[i]) }

  function Finish(q: SignalRequest, status: SignalStatus, gates: seq<Decision>, plan: Option<Plan>, consensus: Option<Report>): SignalReport {
    var active := if plan.Some? then plan.value else Hold(q.symbol);
    SignalReport(status, CompleteGates(gates), active, active.Ready?, consensus)
  }

  // ----- What the assembly promises

  /** The first obstacle, as the status a blocked report carries; `None` when there is none. */
  function Obstacle(q: SignalRequest, now: real, rules: SignalRules): Option<SignalStatus> {
    if DiscoveryState(q, rules) == Fail || !SymbolsAligned(q) || !EvidenceFresh(q, now, rules) then Some(DataDegraded)
    else if !BothDamaged(q) then Some(BreakdownWatch)
    else if StructureOf(q.structure) != Alert then Some(WatchStatus(StructureOf(q.structure)))
    else
      match ValidateLbank(q.lbank, now, rules.consensus.lbank)
      case LbankPending => Some(ExecutionPending)
      case LbankDegraded => Some(DataDegraded)
      case LbankOk =>
        match ConsensusOf(q, now, rules)
        case Err(_) => Some(DataDegraded)
        case Ok(report) =>
          match report.status
          case ConsensusPending => Some(ExecutionPending)
          case ConsensusDegraded => Some(DataDegraded)
          case ConsensusAvoid => Some(Avoid)
          case _ =>
            if EntryDeviationBps(q) > rules.maxEntryBps then Some(ExecutionPending)
            else if BuildPlan(true, q.plan).Err? then Some(DataDegraded)
            else None
  }

  /** Only an entry that is not positive, reached at the entry gate, escapes as an exception. */
  predicate EntryRaises(q: SignalRequest, now: real, rules: SignalRules) {
    && q.plan.entry <= 0.0
    && DiscoveryState(q, rules) != Fail && SymbolsAligned(q) && EvidenceFresh(q, now, rules) && BothDamaged(q)
    && StructureOf(q.structure) == Alert
    && ValidateLbank(q.lbank, now, rules.consensus.lbank) == LbankOk
    && ConsensusOf(q, now, rules).Ok? && ConsensusOf(q, now, rules).value.status in {ConsensusOk, ConsensusWarning}
  }

  // ----- The same in symbols, times and prices

  predicate SymbolsAgree(q: SignalRequest) {
    && {q.symbolMap.canonical, q.higherTimeframe.symbol, q.structure.symbol, q.plan.symbol} == {q.symbol}
    && q.lbank.symbol == q.symbolMap.lbank
  }

  predicate EvidenceCurrent(q: SignalRequest, now: real, rules: SignalRules) {
    var at := q.higherTimeframe.observedAt;
    at - 1.0 <= now <= at + 60.0 * rules.maxStructureAgeMinutes
  }

  predicate EntryNear(q: SignalRequest, rules: SignalRules) {
    var mid := (q.lbank.bid + q.lbank.ask) / 2.0;
    Gap(q.plan.entry, mid) * 10000.0 <= rules.maxEntryBps * mid
  }

  predicate PlanFits(p: PlanRequest) {
    && p.symbol != "" && 0.0 < p.entry < p.boundary && p.ratio > 0.0 && 1 <= p.multiplier <= 5
    && p.ratio * (p.boundary - p.entry) < p.entry
  }

  predicate BookUsable(q: SignalRequest, now: real, rules: SignalRules) {
    BookCurrent(q.lbank, now, rules.consensus.lbank) && BookDeep(q.lbank, rules.consensus.lbank)
  }

  function ConsensusStatusOf(q: SignalRequest, now: real, rules: SignalRules): ConsensusStatus {
    NeverRaises(q.lbank, q.benchmarks, q.symbolMap, now, rules.consensus);
    ConsensusOf(q, now, rules).value.status
  }

  /** The number, in the fixed order, of the gate the request stops at, or eleven. */
  function StopIndex(q: SignalRequest, now: real, rules: SignalRules): nat {
    if q.discoveryRecords > rules.maxDiscovery then 0
    else if !SymbolsAgree(q) then 1
    else if !EvidenceCurrent(q, now, rules) || !q.higherTimeframe.dailyDamaged || !q.higherTimeframe.fourHourDamaged then 2
    else if q.structure.current >= q.structure.low then 5
    else if !BookUsable(q, now, rules) then 6
    else if ConsensusStatusOf(q, now, rules) !in {ConsensusOk, ConsensusWarning} then 7
    else if !EntryNear(q, rules) then 8
    else if !PlanFits(q.plan) then 9
    else 11
  }

  /** The status of a request that stops at the gate `stop`. */
  function StatusAt(q: SignalRequest, now: real, rules: SignalRules, stop: nat): SignalStatus {
    if stop == 2 then if EvidenceCurrent(q, now, rules) then BreakdownWatch else DataDegraded
    else if stop == 5 then
      if 2.0 * q.structure.current < q.structure.low + q.structure.high then WeaknessWatch else HypeWatch
    else if stop == 6 then
      if BookCurrent(q.lbank, now, rules.consensus.lbank) then ExecutionPending else DataDegraded
    else if stop == 7 then
      match ConsensusStatusOf(q, now, rules)
      case ConsensusPending => ExecutionPending
      case ConsensusAvoid => Avoid
      case _ => DataDegraded
    else if stop == 8 then ExecutionPending
    else if stop == 11 then ShortReady
    else DataDegraded
  }

  /** The state of gate `i`: skipped after the stop, failed at it, and a failed structure fails the
      two gates before the stop as well; the others pass, two of them possibly with a warning. */
  function ExpectedState(q: SignalRequest, now: real, rules: SignalRules, i: nat): GateState {
    var stop := StopIndex(q, now, rules);
    if i > stop then Skip
    else if i == stop || (stop == 5 && i in {3, 4}) then Fail
    else if i == 0 && q.discoveryRecords == 0 then Warn
    else if i == 7 && ConsensusStatusOf(q, now, rules) == ConsensusWarning then Warn
    else Pass
  }

  ghost predicate GatesSoFar(q: SignalRequest, now: real, rules: SignalRules, gates: seq<Decision>) {
    && |gates| <= |GATE_ORDER|
    && forall i :: 0 <= i < |gates| ==> gates[i] == Decision(GATE_ORDER[i], ExpectedState(q, now, rules, i))
  }

  /** The tests of the gates, read as statements about the request. */
  lemma GateTests(q: SignalRequest, now: real, rules: SignalRules)
    ensures SymbolsAligned(q) <==> SymbolsAgree(q)
    ensures EvidenceFresh(q, now, rules) <==> EvidenceCurrent(q, now, rules)
    ensures StructureOf(q.structure) == Alert <==> q.structure.current < q.structure.low
    ensures StructureOf(q.structure) != Alert ==>
              WatchStatus(StructureOf(q.structure)) == StatusAt(q, now, rules, 5)
    ensures EntryDeviationBps(q) <= rules.maxEntryBps <==> EntryNear(q, rules)
    ensures BuildPlan(true, q.plan).Ok? <==> PlanFits(q.plan)
  {
    hide BuildConsensus, BuildPlan;
    PlanBuiltExactly(q.plan);
    var mid := q.lbank.Mid();
    QuotientCompare(Gap(q.plan.entry, mid), mid, rules.maxEntryBps / 10000.0);
    assert rules.maxEntryBps / 10000.0 * mid * 10000.0 == rules.maxEntryBps * mid;
    SameSymbol(q);
  }

  lemma SameSymbol(q: SignalRequest)
    ensures SymbolsAligned(q) <==> SymbolsAgree(q)
  {
    var all := {q.symbolMap.canonical, q.higherTimeframe.symbol, q.structure.symbol, q.plan.symbol};
    assert q.symbolMap.canonical in all && q.higherTimeframe.symbol in all && q.structure.symbol in all && q.plan.symbol in all;
  }

  /** Gate `n` failed, every gate before it was evaluated and every gate after it was skipped. */
  ghost predicate StoppedAt(gates: seq<Decision>, n: int) {
    && 0 <= n < |gates| && gates[n].state == Fail
    && (forall i :: 0 <= i < n ==> gates[i].state != Skip)
    && (forall i :: n < i < |gates| ==> gates[i].state == Skip)
  }

  /** Every gate after a failed one is skipped, as docs/ASSEMBLY.md (line 91) has it. */
  ghost predicate LaterSkipped(gates: seq<Decision>) {
    forall i, j :: 0 <= i < j < |gates| && gates[i].state == Fail ==> gates[j].state == Skip
  }

  /** The structure gate is the first obstacle. */
  predicate StopsAtStructure(q: SignalRequest, now: real, rules: SignalRules) {
    && DiscoveryState(q, rules) != Fail && SymbolsAligned(q) && EvidenceFresh(q, now, rules) && BothDamaged(q)
    && StructureOf(q.structure) != Alert
  }

  /** The gates for structure, setup classification and flow all failed. */
  predicate ThreeFail(gates: seq<Decision>) {
    |gates| >= 6 && gates[3].state == Fail && gates[4].state == Fail && gates[5].state == Fail
  }

  /** No decision but the last one is a failure. */
  ghost predicate FailsOnlyLast(gates: seq<Decision>) {
    forall i :: 0 <= i < |gates| - 1 ==> gates[i].state != Fail
  }

  /** The decisions so far are the first gates in the fixed order. */
  ghost predicate InGateOrder(gates: seq<Decision>) {
    && |gates| <= |GATE_ORDER|
    && forall i :: 0 <= i < |gates| ==> gates[i].gate == GATE_ORDER[i] && gates[i].state != Skip
  }

  /** The whole contract of a report: its status and the state of every gate follow from the request
      as `StatusAt` and `ExpectedState` say, it has every gate in order, it is ready exactly when no gate failed or was skipped, a blocked one shows
      the failed gate followed only by skipped ones and holds its plan, every gate after a failed
      one is skipped exactly unless the structure gate is the obstacle (three gates then fail), and
      a ready report carries the built plan and the consensus, with all that `ReadyMeans` says. */
  ghost predicate Promised(q: SignalRequest, now: real, rules: SignalRules, r: SignalReport) {
    && r.status == StatusAt(q, now, rules, StopIndex(q, now, rules))
    && r.status == (if Obstacle(q, now, rules).Some? then Obstacle(q, now, rules).value else ShortReady)
    && |r.gates| == |GATE_ORDER|
    && (forall i :: 0 <= i < |GATE_ORDER| ==> r.gates[i] == Decision(GATE_ORDER[i], ExpectedState(q, now, rules, i)))
    && (r.status == ShortReady <==> AllPassed(r.gates))
    && (r.status != ShortReady ==> exists n :: StoppedAt(r.gates, n))
    && (LaterSkipped(r.gates) <==> !StopsAtStructure(q, now, rules))
    && (StopsAtStructure(q, now, rules) ==> ThreeFail(r.gates))
    && (r.status == ShortReady ==>
          && BuildPlan(true, q.plan) == Ok(r.plan) && r.active && ReadyMeans(q, now, rules, r.plan)
          && ConsensusOf(q, now, rules).Ok? && r.consensus == Some(ConsensusOf(q, now, rules).value))
    && (r.status != ShortReady ==> r.plan == Hold(q.symbol) && !r.active)
    && (r.consensus.Some? <==> StopIndex(q, now, rules) >= 7 && ConsensusOf(q, now, rules).Ok?)
    && (r.consensus.Some? ==> ConsensusOf(q, now, rules) == Ok(r.consensus.value))
  }

  lemma Blocked(q: SignalRequest, now: real, rules: SignalRules, status: SignalStatus, gates: seq<Decision>, g: Gate, consensus: Option<Report>)
    requires Obstacle(q, now, rules) == Some(status) && status != ShortReady
    requires gates != [] && gates[|gates| - 1] == Decision(g, Fail) && InGateOrder(gates)
    requires GatesSoFar(q, now, rules, gates) && StopIndex(q, now, rules) == |gates| - 1
    requires status == StatusAt(q, now, rules, |gates| - 1)
    requires consensus == if |gates| < 8 || ConsensusOf(q, now, rules).Err? then None else Some(ConsensusOf(q, now, rules).value)
    requires FailsOnlyLast(gates) <==> !StopsAtStructure(q, now, rules)
    requires StopsAtStructure(q, now, rules) ==> ThreeFail(gates)
    ensures Promised(q, now, rules, Finish(q, status, gates, None, consensus))
  {
    hide Obstacle, BuildPlan, ConsensusOf, AllPassed, FailsOnlyLast, LaterSkipped, StopsAtStructure, ThreeFail, StopIndex, StatusAt;
    FailureShows(gates, g);
    StatesShow(gates);
  }

  lemma Cleared(q: SignalRequest, now: real, rules: SignalRules, gates: seq<Decision>, plan: Plan, report: Report)
    requires Obstacle(q, now, rules).None? && BuildPlan(true, q.plan) == Ok(plan) && ConsensusOf(q, now, rules) == Ok(report)
    requires |gates| == |GATE_ORDER| && forall i :: 0 <= i < |gates| ==> gates[i].gate == GATE_ORDER[i] && Passed(gates[i])
    requires GatesSoFar(q, now, rules, gates) && StopIndex(q, now, rules) == 11
    ensures Promised(q, now, rules, Finish(q, ShortReady, gates, Some(plan), Some(report)))
  {
    hide Obstacle, BuildPlan, ConsensusOf, AllPassed, LaterSkipped, StopsAtStructure, StopIndex;
    StatesShow(gates);
    BuiltPlanIsShort(q.plan);
    ReadySignal(q, now, rules);
    EveryGatePassed(gates);
    NothingStopped(q, now, rules);
  }

  lemma StatesShow(gates: seq<Decision>)
    requires InGateOrder(gates)
    ensures forall i :: 0 <= i < |GATE_ORDER| ==>
              CompleteGates(gates)[i] == Decision(GATE_ORDER[i], if i < |gates| then gates[i].state else Skip)
  {
    hide StateOf;
    forall i | 0 <= i < |GATE_ORDER|
      ensures StateOf(gates, GATE_ORDER[i]) == if i < |gates| then gates[i].state else Skip
    {
      StateAt(gates, i);
    }
  }

  lemma NothingStopped(q: SignalRequest, now: real, rules: SignalRules)
    requires Obstacle(q, now, rules).None?
    ensures !StopsAtStructure(q, now, rules)
  {
    hide ValidateLbank, ConsensusOf, BuildPlan, EntryDeviationBps;
  }

  /** Where a request stops before the execution gates, with which status, and the states so far. */
  lemma EarlyStops(q: SignalRequest, now: real, rules: SignalRules)
    ensures var stop, found := StopIndex(q, now, rules), Obstacle(q, now, rules);
            && ExpectedState(q, now, rules, 0) == DiscoveryState(q, rules) && DiscoveryState(q, rules) != Skip
            && (stop > 0 ==> ExpectedState(q, now, rules, 1) == if SymbolsAligned(q) then Pass else Fail)
            && (stop > 1 ==> ExpectedState(q, now, rules, 2) == if EvidenceFresh(q, now, rules) && BothDamaged(q) then Pass else Fail)
            && (stop > 2 ==> forall i :: 3 <= i < 6 ==>
                  ExpectedState(q, now, rules, i) == if StructureOf(q.structure) == Alert then Pass else Fail)
            && (stop < 6 ==> found == Some(StatusAt(q, now, rules, stop)))
            && (if DiscoveryState(q, rules) == Fail then stop == 0 && StatusAt(q, now, rules, 0) == DataDegraded
                else if !SymbolsAligned(q) then stop == 1 && StatusAt(q, now, rules, 1) == DataDegraded
                else if !EvidenceFresh(q, now, rules) then stop == 2 && StatusAt(q, now, rules, 2) == DataDegraded
                else if !BothDamaged(q) then stop == 2 && StatusAt(q, now, rules, 2) == BreakdownWatch
                else if StructureOf(q.structure) != Alert
                then stop == 5 && StatusAt(q, now, rules, 5) == WatchStatus(StructureOf(q.structure))
                else stop >= 6)
  {
    GateTests(q, now, rules);
    hide ValidateLbank, ConsensusOf, BuildPlan, EntryDeviationBps, EvidenceFresh, SymbolsAligned, StructureOf,
         EvidenceCurrent, SymbolsAgree, EntryNear, PlanFits, BookUsable;
  }

  /** The gates one after another, each appended to the list before it is acted on. */
  method AssembleSignal(q: SignalRequest, now: real, rules: SignalRules) returns (r: Result<SignalReport>)
    ensures r.Err? <==> EntryRaises(q, now, rules)
    ensures r.Ok? ==> Promised(q, now, rules, r.value)
  {
    EarlyStops(q, now, rules);
    hide ValidateLbank, ConsensusOf, BuildPlan, EntryDeviationBps, EvidenceFresh, SymbolsAligned, StructureOf, DiscoveryState,
         Obstacle, StopIndex, StatusAt, ExpectedState, Promised, Finish;
    var gates := [Decision(DiscoveryContext, DiscoveryState(q, rules))];
    if DiscoveryState(q, rules) == Fail {
      Blocked(q, now, rules, DataDegraded, gates, DiscoveryContext, None);
      return Ok(Finish(q, DataDegraded, gates, None, None));
    }
    gates := gates + [Decision(SymbolAlignment, if SymbolsAligned(q) then Pass else Fail)];
    if !SymbolsAligned(q) {
      Blocked(q, now, rules, DataDegraded, gates, SymbolAlignment, None);
      return Ok(Finish(q, DataDegraded, gates, None, None));
    }
    var recent, damaged := EvidenceFresh(q, now, rules), BothDamaged(q);
    gates := gates + [Decision(HigherTimeframe, if recent && damaged then Pass else Fail)];
    if !recent || !damaged {
      var status := if !recent then DataDegraded else BreakdownWatch;
      Blocked(q, now, rules, status, gates, HigherTimeframe, None);
      return Ok(Finish(q, status, gates, None, None));
    }
    var structure := StructureOf(q.structure);
    var verdict := if structure == Alert then Pass else Fail;
    gates := gates + [Decision(Structure, verdict), Decision(SetupClassification, verdict), Decision(Flow, verdict)];
    if structure != Alert {
      assert gates[3].state == Fail;
      Blocked(q, now, rules, WatchStatus(structure), gates, Flow, None);
      return Ok(Finish(q, WatchStatus(structure), gates, None, None));
    }
    EarlyGatesPass(q, rules, gates);
    r := AssembleExecution(q, now, rules, gates);
  }

  ghost predicate EarlyClear(q: SignalRequest, now: real, rules: SignalRules) {
    && DiscoveryState(q, rules) != Fail && SymbolsAligned(q) && EvidenceFresh(q, now, rules) && BothDamaged(q)
    && StructureOf(q.structure) == Alert
  }

  lemma EarlyGatesPass(q: SignalRequest, rules: SignalRules, gates: seq<Decision>)
    requires DiscoveryState(q, rules) != Fail
    requires gates == [Decision(DiscoveryContext, DiscoveryState(q, rules)), Decision(SymbolAlignment, Pass),
                       Decision(HigherTimeframe, Pass), Decision(Structure, Pass), Decision(SetupClassification, Pass),
                       Decision(Flow, Pass)]
    ensures PassedSoFar(gates, 6)
  {
  }

  ghost predicate PassedSoFar(gates: seq<Decision>, n: nat) {
    && |gates| == n <= |GATE_ORDER|
    && forall i :: 0 <= i < n ==> gates[i].gate == GATE_ORDER[i] && Passed(gates[i])
  }

  /** One more gate that does not stop the request. */
  lemma GatePassed(q: SignalRequest, now: real, rules: SignalRules, gates: seq<Decision>, state: GateState)
    requires GatesSoFar(q, now, rules, gates) && PassedSoFar(gates, |gates|) && |gates| < |GATE_ORDER|
    requires state == ExpectedState(q, now, rules, |gates|) && state in {Pass, Warn}
    ensures var more := gates + [Decision(GATE_ORDER[|gates|], state)];
            GatesSoFar(q, now, rules, more) && PassedSoFar(more, |more|)
  {
    hide ExpectedState;
  }

  /** The execution gate that stops the request. */
  lemma GateFailed(q: SignalRequest, now: real, rules: SignalRules, status: SignalStatus, gates: seq<Decision>, consensus: Option<Report>)
    requires EarlyClear(q, now, rules) && Obstacle(q, now, rules) == Some(status) && status != ShortReady
    requires GatesSoFar(q, now, rules, gates) && PassedSoFar(gates, |gates|) && |gates| < |GATE_ORDER|
    requires StopIndex(q, now, rules) == |gates| && status == StatusAt(q, now, rules, |gates|)
    requires consensus == if |gates| < 7 || ConsensusOf(q, now, rules).Err? then None else Some(ConsensusOf(q, now, rules).value)
    ensures Promised(q, now, rules, Finish(q, status, gates + [Decision(GATE_ORDER[|gates|], Fail)], None, consensus))
  {
    hide Obstacle, StopIndex, StatusAt, ConsensusOf, Promised, Finish;
    Blocked(q, now, rules, status, gates + [Decision(GATE_ORDER[|gates|], Fail)], GATE_ORDER[|gates|], consensus);
  }

  lemma BookTests(q: SignalRequest, now: real, rules: SignalRules)
    ensures var status := ValidateLbank(q.lbank, now, rules.consensus.lbank);
            && (status == LbankOk <==> BookUsable(q, now, rules))
            && (status == LbankPending ==> StatusAt(q, now, rules, 6) == ExecutionPending)
            && (status == LbankDegraded ==> StatusAt(q, now, rules, 6) == DataDegraded)
  {
    hide BuildConsensus;
    LbankMeaning(q.lbank, now, rules.consensus.lbank);
  }

  /** Where a request that passed the structure gates stops, and with which status. */
  lemma LateStops(q: SignalRequest, now: real, rules: SignalRules)
    requires EarlyClear(q, now, rules)
    ensures var lbank, stop := ValidateLbank(q.lbank, now, rules.consensus.lbank), StopIndex(q, now, rules);
            var status, found := ConsensusStatusOf(q, now, rules), Obstacle(q, now, rules);
            && ConsensusOf(q, now, rules).Ok? && ConsensusOf(q, now, rules).value.status == status
            && (EntryRaises(q, now, rules) <==>
                  q.plan.entry <= 0.0 && lbank == LbankOk && status in {ConsensusOk, ConsensusWarning})
            && (found.Some? ==> found.value == StatusAt(q, now, rules, stop) && found.value != ShortReady)
            && (found.None? <==> stop == 11)
            && (lbank == LbankPending ==> stop == 6 && found == Some(ExecutionPending))
            && (lbank == LbankDegraded ==> stop == 6 && found == Some(DataDegraded))
            && (lbank == LbankOk ==> stop >= 7)
            && (lbank == LbankOk && status !in {ConsensusOk, ConsensusWarning} ==>
                  stop == 7 && found == Some(if status == ConsensusPending then ExecutionPending
                                             else if status == ConsensusAvoid then Avoid else DataDegraded))
            && (lbank == LbankOk && status in {ConsensusOk, ConsensusWarning} ==>
                  if EntryDeviationBps(q) > rules.maxEntryBps then stop == 8 && found == Some(ExecutionPending)
                  else if BuildPlan(true, q.plan).Err? then stop == 9 && found == Some(DataDegraded)
                  else stop == 11)
  {
    GateTests(q, now, rules);
    BookTests(q, now, rules);
    NeverRaises(q.lbank, q.benchmarks, q.symbolMap, now, rules.consensus);
    hide ValidateLbank, BuildConsensus, BuildPlan, EntryDeviationBps, EvidenceFresh, SymbolsAligned, StructureOf,
         EvidenceCurrent, SymbolsAgree, EntryNear, PlanFits, BookUsable;
  }

  /** The states of the execution gates before the stop. */
  lemma LateStates(q: SignalRequest, now: real, rules: SignalRules)
    ensures var stop := StopIndex(q, now, rules);
            && (stop > 6 ==> ExpectedState(q, now, rules, 6) == Pass)
            && (stop > 7 ==>
                  ExpectedState(q, now, rules, 7) == if ConsensusStatusOf(q, now, rules) == ConsensusWarning then Warn else Pass)
            && (stop > 8 ==> ExpectedState(q, now, rules, 8) == Pass)
            && (stop == 11 ==> ExpectedState(q, now, rules, 9) == Pass && ExpectedState(q, now, rules, 10) == Pass)
  {
    hide StopIndex, ConsensusStatusOf;
  }

  /** The execution half: LBank, consensus, entry, planning and lifecycle. The handler for a raising
      consensus is left out, since it cannot be reached (`NeverRaises`). */
  method AssembleExecution(q: SignalRequest, now: real, rules: SignalRules, early: seq<Decision>) returns (r: Result<SignalReport>)
    requires EarlyClear(q, now, rules) && PassedSoFar(early, 6) && GatesSoFar(q, now, rules, early)
    ensures r.Err? <==> EntryRaises(q, now, rules)
    ensures r.Ok? ==> Promised(q, now, rules, r.value)
  {
    hide ValidateLbank, ConsensusOf, ConsensusStatusOf, BuildPlan, EntryDeviationBps, Obstacle, StopIndex, StatusAt, ExpectedState,
         EntryRaises, EarlyClear, Promised, Finish, PassedSoFar, GatesSoFar;
    LateStops(q, now, rules);
    LateStates(q, now, rules);
    GateCount(early, 6);
    var gates := early;
    var lbank := ValidateLbank(q.lbank, now, rules.consensus.lbank);
    if lbank != LbankOk {
      var status := if lbank == LbankPending then ExecutionPending else DataDegraded;
      GateFailed(q, now, rules, status, gates, None);
      gates := gates + [Decision(LbankExecution, Fail)];
      return Ok(Finish(q, status, gates, None, None));
    }
    GatePassed(q, now, rules, gates, Pass);
    gates := gates + [Decision(LbankExecution, Pass)];
    r := AssembleConsensus(q, now, rules, gates);
  }

  /** The consensus and entry gates, once the book is validated. */
  method AssembleConsensus(q: SignalRequest, now: real, rules: SignalRules, validated: seq<Decision>) returns (r: Result<SignalReport>)
    requires EarlyClear(q, now, rules) && ValidateLbank(q.lbank, now, rules.consensus.lbank) == LbankOk
    requires PassedSoFar(validated, 7) && GatesSoFar(q, now, rules, validated)
    ensures r.Err? <==> EntryRaises(q, now, rules)
    ensures r.Ok? ==> Promised(q, now, rules, r.value)
  {
    hide ValidateLbank, ConsensusOf, ConsensusStatusOf, BuildPlan, EntryDeviationBps, Obstacle, StopIndex, StatusAt, ExpectedState,
         EntryRaises, EarlyClear, Promised, Finish, PassedSoFar, GatesSoFar;
    LateStops(q, now, rules);
    LateStates(q, now, rules);
    GateCount(validated, 7);
    var gates := validated;
    var report := ConsensusOf(q, now, rules).value;
    if report.status !in {ConsensusOk, ConsensusWarning} {
      var status :=
        if report.status == ConsensusPending then ExecutionPending
        else if report.status == ConsensusAvoid then Avoid
        else DataDegraded;
      GateFailed(q, now, rules, status, gates, Some(report));
      gates := gates + [Decision(CrossExchange, Fail)];
      return Ok(Finish(q, status, gates, None, Some(report)));
    }
    var confirmed := if report.status == ConsensusOk then Pass else Warn;
    GatePassed(q, now, rules, gates, confirmed);
    gates := gates + [Decision(CrossExchange, confirmed)];
    if q.plan.entry <= 0.0 {
      return Err(InvalidReference);
    }
    if EntryDeviationBps(q) > rules.maxEntryBps {
      GateFailed(q, now, rules, ExecutionPending, gates, Some(report));
      gates := gates + [Decision(EntryAlignment, Fail)];
      return Ok(Finish(q, ExecutionPending, gates, None, Some(report)));
    }
    GatePassed(q, now, rules, gates, Pass);
    gates := gates + [Decision(EntryAlignment, Pass)];
    r := AssemblePlan(q, now, rules, gates, report);
  }

  /** The last two gates, once the entry is aligned. */
  method AssemblePlan(q: SignalRequest, now: real, rules: SignalRules, aligned: seq<Decision>, report: Report) returns (r: Result<SignalReport>)
    requires EarlyClear(q, now, rules) && StopIndex(q, now, rules) > 8 && ConsensusOf(q, now, rules) == Ok(report)
    requires ValidateLbank(q.lbank, now, rules.consensus.lbank) == LbankOk && report.status in {ConsensusOk, ConsensusWarning}
    requires EntryDeviationBps(q) <= rules.maxEntryBps
    requires PassedSoFar(aligned, 9) && GatesSoFar(q, now, rules, aligned)
    ensures r.Ok? && Promised(q, now, rules, r.value)
  {
    hide ValidateLbank, ConsensusOf, ConsensusStatusOf, BuildPlan, EntryDeviationBps, Obstacle, StopIndex, StatusAt, ExpectedState,
         EntryRaises, EarlyClear, Promised, Finish, PassedSoFar, GatesSoFar;
    LateStops(q, now, rules);
    LateStates(q, now, rules);
    GateCount(aligned, 9);
    var gates := aligned;
    var plan := BuildPlan(true, q.plan);
    if plan.Err? {
      GateFailed(q, now, rules, DataDegraded, gates, Some(report));
      gates := gates + [Decision(PlanningGate, Fail)];
      return Ok(Finish(q, DataDegraded, gates, None, Some(report)));
    }
    GatePassed(q, now, rules, gates, Pass);
    gates := gates + [Decision(PlanningGate, Pass)];
    GatePassed(q, now, rules, gates, Pass);
    gates := gates + [Decision(LifecycleGate, Pass)];
    AllGatesPassed(gates);
    Cleared(q, now, rules, gates, plan.value, report);
    return Ok(Finish(q, ShortReady, gates, Some(plan.value), Some(report)));
  }

  lemma GateCount(gates: seq<Decision>, n: nat)
    requires PassedSoFar(gates, n)
    ensures |gates| == n
  {
  }

  lemma AllGatesPassed(gates: seq<Decision>)
    requires PassedSoFar(gates, 11)
    ensures |gates| == |GATE_ORDER| && forall i :: 0 <= i < |gates| ==> gates[i].gate == GATE_ORDER[i] && Passed(gates[i])
  {
  }

  /** Completing an ordered list of decisions keeps it and appends skipped gates. */
  lemma {:induction false} StateAt(gates: seq<Decision>, i: nat)
    requires InGateOrder(gates) && i < |GATE_ORDER|
    ensures StateOf(gates, GATE_ORDER[i]) == if i < |gates| then gates[i].state else Skip
  {
    if gates != [] {
      var n := |gates| - 1;
      if i != n {
        GatesDiffer(i, n);
        StateAt(gates[..n], i);
      }
    }
  }

  lemma GatesDiffer(i: nat, j: nat)
    requires i < |GATE_ORDER| && j < |GATE_ORDER| && i != j
    ensures GATE_ORDER[i] != GATE_ORDER[j]
  {
  }

  /** A failed last decision is visible in the completed list, with nothing evaluated after it. */
  lemma FailureShows(gates: seq<Decision>, g: Gate)
    requires gates != [] && gates[|gates| - 1] == Decision(g, Fail) && InGateOrder(gates)
    ensures !AllPassed(CompleteGates(gates))
    ensures StoppedAt(CompleteGates(gates), |gates| - 1)
    ensures LaterSkipped(CompleteGates(gates)) <==> FailsOnlyLast(gates)
    ensures ThreeFail(gates) ==> ThreeFail(CompleteGates(gates))
  {
    hide StateOf;
    forall i | 0 <= i < |GATE_ORDER|
      ensures StateOf(gates, GATE_ORDER[i]) == if i < |gates| then gates[i].state else Skip
    {
      StateAt(gates, i);
    }
    var all, n := CompleteGates(gates), |gates| - 1;
    assert !Passed(all[n]);
    assert forall i :: 0 <= i < |all| ==> all[i].state == if i <= n then gates[i].state else Skip;
    if LaterSkipped(all) {
      assert forall i :: 0 <= i < n ==> all[i].state != Fail;
    }
  }

  lemma {:induction false} StateFromMember(gates: seq<Decision>, g: Gate)
    requires forall i :: 0 <= i < |gates| ==> Passed(gates[i])
    requires exists i :: 0 <= i < |gates| && gates[i].gate == g
    ensures Passed(Decision(g, StateOf(gates, g)))
  {
    if gates[|gates| - 1].gate != g {
      var i :| 0 <= i < |gates| && gates[i].gate == g;
      assert gates[..|gates| - 1][i].gate == g;
      StateFromMember(gates[..|gates| - 1], g);
    }
  }

  lemma EveryGatePassed(gates: seq<Decision>)
    requires |gates| == |GATE_ORDER| && forall i :: 0 <= i < |gates| ==> gates[i].gate == GATE_ORDER[i] && Passed(gates[i])
    ensures AllPassed(CompleteGates(gates)) && LaterSkipped(CompleteGates(gates))
  {
    forall i | 0 <= i < |GATE_ORDER| ensures Passed(CompleteGates(gates)[i]) {
      assert gates[i].gate == GATE_ORDER[i];
      StateFromMember(gates, GATE_ORDER[i]);
    }
  }

  // ----- What a ready signal means

  /** A scaled quotient within a limit bounds its numerator. */
  lemma Fraction(value: real, reference: real, limit: real, scale: real)
    requires reference > 0.0 && scale > 0.0 && value >= 0.0 && value / reference * scale <= limit
    ensures value <= limit / scale * reference
  {
    QuotientCompare(limit, scale, value / reference);
    QuotientCompare(value, reference, limit / scale);
  }

  /** Two proportional tolerances compose: within e of a price that is within d of a median is
      within e + d + e*d of the median. */
  lemma TolerancesCompose(entry: real, mid: real, median: real, e: real, d: real)
    requires mid > 0.0 && median > 0.0 && e >= 0.0 && d >= 0.0
    requires -e * mid <= entry - mid <= e * mid
    requires -d * median <= mid - median <= d * median
    ensures -(e + d + e * d) * median <= entry - median <= (e + d + e * d) * median
  {
    var dm, em := d * median, e * median;
    MulMonotone(mid, median + dm, e);
    assert (median + dm) * e == em + e * dm;
    assert e * dm == e * d * median;
    assert (e + d + e * d) * median == em + dm + e * d * median;
  }

  /** A ready signal has an ordered plan that the backtest accepts, an LBank book that passed
      validation, damage on both timeframes, benchmarks that agree within the dispersion limit, and
      an entry close to their median. */
  ghost predicate ReadyMeans(q: SignalRequest, now: real, rules: SignalRules, plan: Plan) {
    && ShortPlan(plan) && PlanAccepted(plan) && plan.entry == q.plan.entry
    && BothDamaged(q) && ValidateLbank(q.lbank, now, rules.consensus.lbank) == LbankOk
    && ConsensusOf(q, now, rules).Ok?
    && var median, prices := ConsensusOf(q, now, rules).value.median, IncludedPrices(ConsensusOf(q, now, rules).value.sources);
       && median.Some? && median.value > 0.0 && |prices| >= rules.consensus.minimumSources
       && (forall x, y :: x in prices && y in prices ==> (x - y) * 100.0 <= rules.consensus.maxDispersionPct * median.value)
       && var e, d := rules.maxEntryBps / 10000.0, rules.consensus.degradedPct / 100.0;
          -(e + d + e * d) * median.value <= plan.entry - median.value <= (e + d + e * d) * median.value
  }

  lemma EntryGap(q: SignalRequest, rules: SignalRules)
    requires EntryDeviationBps(q) <= rules.maxEntryBps
    ensures var e, mid := rules.maxEntryBps / 10000.0, q.lbank.Mid();
            -e * mid <= q.plan.entry - mid <= e * mid
  {
    var entry, mid := q.plan.entry, q.lbank.Mid();
    Fraction(if entry >= mid then entry - mid else mid - entry, mid, rules.maxEntryBps, 10000.0);
  }

  lemma MidGap(mid: real, median: real, limit: real)
    requires median > 0.0 && DeviationPct(mid, median) < limit
    ensures -(limit / 100.0) * median <= mid - median <= limit / 100.0 * median
  {
    Fraction(if mid >= median then mid - median else median - mid, median, limit, 100.0);
  }

  lemma ReadySignal(q: SignalRequest, now: real, rules: SignalRules)
    requires Obstacle(q, now, rules).None?
    ensures BuildPlan(true, q.plan).Ok? && ReadyMeans(q, now, rules, BuildPlan(true, q.plan).value)
  {
    hide ValidateLbank, BuildConsensus, BuildPlan, EvidenceFresh, SymbolsAligned, EntryDeviationBps, DeviationPct, IncludedPrices,
         BookCurrent, BookDeep, StructureOf, DiscoveryState;
    BuiltPlanIsShort(q.plan);
    ConfirmedIsClose(q.lbank, q.benchmarks, q.symbolMap, now, rules.consensus);
    AllowsExactly(q.lbank, q.benchmarks, q.symbolMap, now, rules.consensus);
    var mid, median := q.lbank.Mid(), ConsensusOf(q, now, rules).value.median.value;
    EntryGap(q, rules);
    MidGap(mid, median, rules.consensus.degradedPct);
    TolerancesCompose(q.plan.entry, mid, median, rules.maxEntryBps / 10000.0, rules.consensus.degradedPct / 100.0);
  }

  // ----- Requests that reach the two exceptions to the rule

  /** Damaged evidence, a healthy book around 100 and two benchmarks at 100. */
  function Sample(current: real, entry: real): RawSignalRequest
    requires current > 0.0
  {
    RawSignalRequest(
      "X", HigherTimeframeEvidence("X", "X", 0.0, true, true), RawStructureInput("X", current, 100.0, 110.0),
      RawLbank("X", 0.0, 0, 99.95, 100.05, 10.0, 1000.0, 1000.0),
      [RawSnapshot(Mexc, "X", 0.0, 0, Some(0.0), 100.0), RawSnapshot(BybitLinear, "X", 0.0, 0, Some(0.0), 100.0)],
      SymbolMap("X", "X", map[Mexc := "X", BybitLinear := "X"], true),
      PlanRequest("X", entry, 105.0, 1, 1.0), 1)
  }

  lemma SampleIsFresh(current: real, entry: real)
    requires current > 0.0
    ensures var q := Sample(current, entry);
            && DiscoveryState(q, DEFAULT_SIGNAL_RULES) == Pass && SymbolsAligned(q)
            && EvidenceFresh(q, 0.0, DEFAULT_SIGNAL_RULES) && BothDamaged(q)
  {
    assert AgeMinutes(Sample(current, entry), 0.0) == 0.0;
  }

  /** A price above its range: three gates fail one after another, none of them skipped. */
  lemma LaterGateNotSkipped(r: SignalReport)
    ensures StopsAtStructure(Sample(120.0, 100.0), 0.0, DEFAULT_SIGNAL_RULES)
    ensures Promised(Sample(120.0, 100.0), 0.0, DEFAULT_SIGNAL_RULES, r) ==>
              r.status == HypeWatch && ThreeFail(r.gates) && !LaterSkipped(r.gates)
  {
    hide LaterSkipped, ThreeFail, AllPassed, EvidenceFresh, ConsensusOf, ValidateLbank;
    SampleIsFresh(120.0, 100.0);
  }

  lemma SamplePrices(entry: real)
    ensures var q := Sample(90.0, entry);
            UsedPrices(Context(q.symbolMap, 0.0, DEFAULT_SIGNAL_RULES.consensus), q.benchmarks, 2) == [100.0, 100.0]
  {
    var q := Sample(90.0, entry);
    var c := Context(q.symbolMap, 0.0, DEFAULT_SIGNAL_RULES.consensus);
    assert ResultFor(c, q.benchmarks, 0).included && ResultFor(c, q.benchmarks, 1).included;
    hide ResultFor;
    assert UsedPrices(c, q.benchmarks, 1) == [100.0];
  }

  /** Two equal prices are their median and do not disperse. */
  lemma EqualPrices()
    ensures var prices := [100.0, 100.0]; Median(prices) == 100.0 && Highest(prices) == Lowest(prices)
  {
    hide Median;
    MedianBetween([100.0, 100.0], 100.0, 100.0);
  }

  lemma SampleConsensus(entry: real)
    ensures var report := ConsensusOf(Sample(90.0, entry), 0.0, DEFAULT_SIGNAL_RULES);
            report.Ok? && report.value.status == ConsensusOk
  {
    hide UsedPrices, Median, Highest, Lowest, Results, WithDeviations;
    SamplePrices(entry);
    EqualPrices();
  }

  /** A zero entry that passes every gate before its own escapes as an exception. */
  lemma ZeroEntryEscapes()
    ensures EntryRaises(Sample(90.0, 0.0), 0.0, DEFAULT_SIGNAL_RULES)
  {
    hide EvidenceFresh, ConsensusOf;
    SampleIsFresh(90.0, 0.0);
    SampleConsensus(0.0);
  }
}
