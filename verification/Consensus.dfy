/** Cross-exchange price consensus (app/execution/consensus.py, with the benchmark health and
    LBank validation it calls). Times are in seconds. */
module Consensus {
  import opened Basics
  import opened Ordering
  import opened Reals

  datatype BenchmarkSource = Mexc | Gate | BybitLinear | Binance

  datatype RawSnapshot = RawSnapshot(
    source: BenchmarkSource, symbol: string, receivedAt: real, latencyMs: int,
    sourceTimestamp: Option<real>, lastPrice: real)

  type Snapshot = s: RawSnapshot | s.lastPrice > 0.0 witness RawSnapshot(Mexc, "X", 0.0, 0, None, 1.0)

  datatype HealthRules = HealthRules(maxSourceAge: real, maxReceiveAge: real, maxLatencyMs: int)

  datatype HealthState = HealthOk | HealthDegraded | HealthStale

  function Health(s: Snapshot, now: real, rules: HealthRules): HealthState {
    var receiveAge := now - s.receivedAt;
    var stale :=
      || (receiveAge >= -1.0 && receiveAge > rules.maxReceiveAge)
      || (s.sourceTimestamp.Some? && now - s.sourceTimestamp.value >= -1.0
          && now - s.sourceTimestamp.value > rules.maxSourceAge);
    var degraded :=
      || receiveAge < -1.0
      || s.sourceTimestamp.None?
      || (s.sourceTimestamp.Some? && now - s.sourceTimestamp.value < -1.0)
      || s.latencyMs > rules.maxLatencyMs;
    if stale then HealthStale else if degraded then HealthDegraded else HealthOk
  }

  datatype RawLbank = RawLbank(
    symbol: string, receivedAt: real, latencyMs: int, bid: real, ask: real, spreadBps: real,
    bidDepth: real, askDepth: real)
  {
    predicate Valid() { 0.0 < bid < ask && spreadBps > 0.0 && bidDepth >= 0.0 && askDepth >= 0.0 }
    function Mid(): real { (bid + ask) / 2.0 }
  }

  type Lbank = s: RawLbank | s.Valid() witness RawLbank("X", 0.0, 0, 1.0, 2.0, 1.0, 0.0, 0.0)

  datatype LbankRules = LbankRules(maxAge: real, maxLatencyMs: int, maxSpreadBps: real, minBidDepth: real, minAskDepth: real)

  datatype LbankStatus = LbankOk | LbankPending | LbankDegraded

  function ValidateLbank(s: Lbank, now: real, rules: LbankRules): LbankStatus {
    var age := now - s.receivedAt;
    if age < -1.0 || age > rules.maxAge || s.latencyMs > rules.maxLatencyMs then LbankDegraded
    else if s.spreadBps > rules.maxSpreadBps || s.bidDepth < rules.minBidDepth || s.askDepth < rules.minAskDepth
    then LbankPending
    else LbankOk
  }

  datatype SymbolMap = SymbolMap(canonical: string, lbank: string, benchmarks: map<BenchmarkSource, string>, reliable: bool) {
    function Expected(s: BenchmarkSource): Option<string> { if s in benchmarks then Some(benchmarks[s]) else None }
  }

  datatype RawConsensusRules = RawConsensusRules(
    minimumSources: int, warningPct: real, degradedPct: real, avoidPct: real, maxDispersionPct: real,
    health: HealthRules, lbank: LbankRules)
  {
    predicate Valid() {
      minimumSources >= 1 && 0.0 < warningPct < degradedPct < avoidPct && maxDispersionPct > 0.0
    }
  }

  type ConsensusRules = r: RawConsensusRules | r.Valid()
    witness RawConsensusRules(2, 0.2, 0.5, 1.0, 1.0, HealthRules(20.0, 10.0, 2500), LbankRules(15.0, 2500, 25.0, 1000.0, 1000.0))

  datatype ConsensusStatus = ConsensusOk | ConsensusWarning | ConsensusPending | ConsensusDegraded | ConsensusAvoid

  datatype SourceResult = SourceResult(
    source: BenchmarkSource, expected: Option<string>, health: Option<HealthState>, price: real,
    included: bool, deviation: Option<real>)

  datatype Report = Report(
    lbankPrice: real, median: Option<real>, deviation: Option<real>, dispersion: Option<real>,
    status: ConsensusStatus, usable: nat, sources: seq<SourceResult>)

  /** Everything the source loop consults besides the snapshots. */
  datatype Context = Context(symbols: SymbolMap, now: real, rules: ConsensusRules)

  // ----- Inclusion

  predicate Matches(c: Context, s: Snapshot) { c.symbols.Expected(s.source) == Some(s.symbol) }

  /** The source is mapped, named as expected, and healthy. */
  predicate Admissible(c: Context, s: Snapshot) {
    Matches(c, s) && Health(s, c.now, c.rules.health) == HealthOk
  }

  predicate Repeated(snapshots: seq<Snapshot>, i: int)
    requires 0 <= i < |snapshots|
  {
    exists j :: 0 <= j < i && snapshots[j].source == snapshots[i].source
  }

  function ResultFor(c: Context, snapshots: seq<Snapshot>, i: nat): SourceResult
    requires i < |snapshots|
  {
    var s := snapshots[i];
    var checked := !Repeated(snapshots, i) && Matches(c, s);
    SourceResult(s.source, c.symbols.Expected(s.source),
                 if checked then Some(Health(s, c.now, c.rules.health)) else None, s.lastPrice,
                 checked && Health(s, c.now, c.rules.health) == HealthOk, None)
  }

  function Results(c: Context, snapshots: seq<Snapshot>, n: nat): (r: seq<SourceResult>)
    requires n <= |snapshots|
    ensures |r| == n && forall i :: 0 <= i < n ==> r[i] == ResultFor(c, snapshots, i)
  {
    if n == 0 then [] else Results(c, snapshots, n - 1) + [ResultFor(c, snapshots, n - 1)]
  }

  function UsedPrices(c: Context, snapshots: seq<Snapshot>, n: nat): seq<real>
    requires n <= |snapshots|
  {
    if n == 0 then []
    else
      UsedPrices(c, snapshots, n - 1)
      + if ResultFor(c, snapshots, n - 1).included then [snapshots[n - 1].lastPrice] else []
  }

  /** The source loop with the three collections it updates. */
  method CollectSources(c: Context, snapshots: seq<Snapshot>) returns (preliminary: seq<SourceResult>, used: seq<real>)
    ensures preliminary == Results(c, snapshots, |snapshots|)
    ensures used == UsedPrices(c, snapshots, |snapshots|)
  {
    hide Health;
    preliminary, used := [], [];
    var seen: set<BenchmarkSource> := {};
    for n := 0 to |snapshots|
      invariant preliminary == Results(c, snapshots, n)
      invariant used == UsedPrices(c, snapshots, n)
      invariant forall s :: s in seen <==> exists j :: 0 <= j < n && snapshots[j].source == s
    {
      var s := snapshots[n];
      var included := s.source !in seen;
      seen := seen + {s.source};
      if c.symbols.Expected(s.source) != Some(s.symbol) {
        included := false;
      }
      var health: Option<HealthState> := None;
      if included {
        health := Some(Health(s, c.now, c.rules.health));
        included := health.value == HealthOk;
      }
      if included {
        used := used + [s.lastPrice];
      }
      preliminary := preliminary + [SourceResult(s.source, c.symbols.Expected(s.source), health, s.lastPrice, included, None)];
    }
  }

  // ----- Summary of the used prices

  function DeviationPct(value: real, reference: real): real
    requires reference > 0.0
  {
    (if value >= reference then value - reference else reference - value) / reference * 100.0
  }

  function Highest(prices: seq<real>): real
    requires prices != []
  {
    if |prices| == 1 then prices[0]
    else if prices[0] >= Highest(prices[1..]) then prices[0] else Highest(prices[1..])
  }

  function Lowest(prices: seq<real>): real
    requires prices != []
  {
    if |prices| == 1 then prices[0]
    else if prices[0] <= Lowest(prices[1..]) then prices[0] else Lowest(prices[1..])
  }

  lemma {:induction false} Extremes(prices: seq<real>)
    requires prices != []
    ensures Highest(prices) in prices && Lowest(prices) in prices
    ensures forall x :: x in prices ==> Lowest(prices) <= x <= Highest(prices)
  {
    assert prices == [prices[0]] + prices[1..];
    if |prices| > 1 {
      Extremes(prices[1..]);
    }
  }

  ghost predicate AllPositive(prices: seq<real>) { forall x :: x in prices ==> x > 0.0 }

  lemma MedianPositive(prices: seq<real>)
    requires prices != [] && AllPositive(prices)
    ensures Median(prices) > 0.0
  {
    hide Median;
    Extremes(prices);
    MedianBetween(prices, Lowest(prices), Highest(prices));
  }

  function DispersionPct(prices: seq<real>): real
    requires prices != [] && AllPositive(prices)
  {
    MedianPositive(prices);
    (Highest(prices) - Lowest(prices)) / Median(prices) * 100.0
  }

  function Classify(rules: ConsensusRules, deviation: real): ConsensusStatus {
    if deviation >= rules.avoidPct then ConsensusAvoid
    else if deviation >= rules.degradedPct then ConsensusDegraded
    else if deviation >= rules.warningPct then ConsensusWarning
    else ConsensusOk
  }

  /** The status from the LBank validation and the used prices. */
  function StatusFor(rules: ConsensusRules, lbank: LbankStatus, mid: real, prices: seq<real>): Result<ConsensusStatus>
    requires AllPositive(prices)
  {
    if lbank == LbankPending then Ok(ConsensusPending)
    else if lbank == LbankDegraded then Ok(ConsensusDegraded)
    else if |prices| < rules.minimumSources then Ok(ConsensusDegraded)
    else if prices != [] && DispersionPct(prices) > rules.maxDispersionPct then Ok(ConsensusDegraded)
    else if prices == [] then Err(MissingMedian)
    else
      MedianPositive(prices);
      Ok(Classify(rules, DeviationPct(mid, Median(prices))))
  }

  function WithDeviations(results: seq<SourceResult>, median: real): (r: seq<SourceResult>)
    requires median > 0.0
    ensures |r| == |results|
    ensures forall i :: 0 <= i < |r| ==>
              r[i] == results[i].(deviation := if results[i].included then Some(DeviationPct(results[i].price, median)) else None)
  {
    if results == [] then []
    else
      WithDeviations(results[..|results| - 1], median)
      + [results[|results| - 1].(deviation :=
           if results[|results| - 1].included then Some(DeviationPct(results[|results| - 1].price, median)) else None)]
  }

  function BlockedResults(m: SymbolMap, snapshots: seq<Snapshot>): (r: seq<SourceResult>)
    ensures |r| == |snapshots| && forall i :: 0 <= i < |r| ==> !r[i].included
  {
    seq(|snapshots|, i requires 0 <= i < |snapshots| =>
      SourceResult(snapshots[i].source, m.Expected(snapshots[i].source), None, snapshots[i].lastPrice, false, None))
  }

  lemma {:induction false} UsedPositive(c: Context, snapshots: seq<Snapshot>, n: nat)
    requires n <= |snapshots|
    ensures AllPositive(UsedPrices(c, snapshots, n))
  {
    hide ResultFor;
    if n > 0 {
      UsedPositive(c, snapshots, n - 1);
    }
  }

  function BuildConsensus(lbank: Lbank, snapshots: seq<Snapshot>, m: SymbolMap, now: real, rules: ConsensusRules): Result<Report> {
    if !m.reliable || lbank.symbol != m.lbank then
      Ok(Report(lbank.Mid(), None, None, None, ConsensusDegraded, 0, BlockedResults(m, snapshots)))
    else
      var c := Context(m, now, rules);
      var prices := UsedPrices(c, snapshots, |snapshots|);
      UsedPositive(c, snapshots, |snapshots|);
      var results := Results(c, snapshots, |snapshots|);
      match StatusFor(rules, ValidateLbank(lbank, now, rules.lbank), lbank.Mid(), prices)
      case Err(fault) => Err(fault)
      case Ok(status) =>
        if prices == [] then Ok(Report(lbank.Mid(), None, None, None, status, 0, results))
        else
          MedianPositive(prices);
          var median := Median(prices);
          Ok(Report(lbank.Mid(), Some(median), Some(DeviationPct(lbank.Mid(), median)), Some(DispersionPct(prices)),
                    status, |prices|, WithDeviations(results, median)))
  }

  // ----- Properties of every report

  /** The error for a missing median cannot be reached. */
  lemma NeverRaises(lbank: Lbank, snapshots: seq<Snapshot>, m: SymbolMap, now: real, rules: ConsensusRules)
    ensures BuildConsensus(lbank, snapshots, m, now, rules).Ok?
  {
  }

  lemma {:induction false} IncludedIsUsed(c: Context, snapshots: seq<Snapshot>, n: nat, i: nat)
    requires i < n <= |snapshots| && ResultFor(c, snapshots, i).included
    ensures snapshots[i].lastPrice in UsedPrices(c, snapshots, n)
  {
    hide ResultFor;
    if i < n - 1 {
      IncludedIsUsed(c, snapshots, n - 1, i);
    }
  }

  lemma DeviationWithinDispersion(prices: seq<real>, p: real)
    requires p in prices && AllPositive(prices)
    ensures Median(prices) > 0.0 && DeviationPct(p, Median(prices)) <= DispersionPct(prices)
  {
    hide Median, Highest, Lowest;
    MedianPositive(prices);
    Extremes(prices);
    var median := Median(prices);
    MedianBetween(prices, Lowest(prices), Highest(prices));
    QuotientMonotone(if p >= median then p - median else median - p, Highest(prices) - Lowest(prices), median);
  }

  /** Each included price deviates from the median by at most the dispersion, and included
      sources are pairwise distinct. */
  lemma ReportTheorem(lbank: Lbank, snapshots: seq<Snapshot>, m: SymbolMap, now: real, rules: ConsensusRules)
    requires BuildConsensus(lbank, snapshots, m, now, rules).Ok?
    ensures var r := BuildConsensus(lbank, snapshots, m, now, rules).value;
            && |r.sources| == |snapshots|
            && (forall i, j :: 0 <= i < j < |r.sources| && r.sources[i].included && r.sources[j].included ==>
                  r.sources[i].source != r.sources[j].source)
            && (forall i :: 0 <= i < |r.sources| && r.sources[i].included ==>
                  && r.dispersion.Some? && r.sources[i].deviation.Some?
                  && r.sources[i].deviation.value <= r.dispersion.value)
  {
    hide Median, DeviationPct, DispersionPct, StatusFor, Health;
    var c := Context(m, now, rules);
    var prices := UsedPrices(c, snapshots, |snapshots|);
    UsedPositive(c, snapshots, |snapshots|);
    forall i | 0 <= i < |snapshots| && ResultFor(c, snapshots, i).included
      ensures snapshots[i].lastPrice in prices
      ensures Median(prices) > 0.0 && DeviationPct(snapshots[i].lastPrice, Median(prices)) <= DispersionPct(prices)
    {
      IncludedIsUsed(c, snapshots, |snapshots|, i);
      DeviationWithinDispersion(prices, snapshots[i].lastPrice);
    }
  }

  /** A report that confirms execution keeps the LBank price within the degraded limit of the median
      and any two included prices within the dispersion limit of each other. */
  lemma ConfirmedIsClose(lbank: Lbank, snapshots: seq<Snapshot>, m: SymbolMap, now: real, rules: ConsensusRules)
    requires BuildConsensus(lbank, snapshots, m, now, rules).Ok?
    requires BuildConsensus(lbank, snapshots, m, now, rules).value.status in {ConsensusOk, ConsensusWarning}
    ensures var r := BuildConsensus(lbank, snapshots, m, now, rules).value;
            && r.median.Some? && r.median.value > 0.0
            && r.lbankPrice == lbank.Mid()
            && DeviationPct(lbank.Mid(), r.median.value) < rules.degradedPct
            && ValidateLbank(lbank, now, rules.lbank) == LbankOk
            && r.usable >= rules.minimumSources
            && (forall i, j :: 0 <= i < |r.sources| && 0 <= j < |r.sources| && r.sources[i].included && r.sources[j].included ==>
                  (r.sources[i].price - r.sources[j].price) / r.median.value * 100.0 <= rules.maxDispersionPct)
  {
    hide DeviationPct, ValidateLbank, BuildConsensus, IncludedPrices, BookCurrent, BookDeep;
    AllowsExactly(lbank, snapshots, m, now, rules);
    StatusExactly(lbank, snapshots, m, now, rules);
    MedianOfReport(lbank, snapshots, m, now, rules);
    LbankMeaning(lbank, now, rules.lbank);
    MidOfReport(lbank, snapshots, m, now, rules);
    var r := BuildConsensus(lbank, snapshots, m, now, rules).value;
    DeviationCompare(lbank.Mid(), r.median.value, rules.degradedPct);
    forall i, j | 0 <= i < |r.sources| && 0 <= j < |r.sources| && r.sources[i].included && r.sources[j].included
      ensures (r.sources[i].price - r.sources[j].price) / r.median.value * 100.0 <= rules.maxDispersionPct
    {
      IncludedListed(r.sources, i);
      IncludedListed(r.sources, j);
      PercentCompare(r.sources[i].price - r.sources[j].price, r.median.value, rules.maxDispersionPct);
    }
  }

  lemma DeviationCompare(mid: real, median: real, limit: real)
    requires median > 0.0
    ensures DeviationPct(mid, median) < limit <==> Gap(mid, median) * 100.0 < limit * median
  {
    PercentCompare(Gap(mid, median), median, limit);
  }

  lemma MidOfReport(lbank: Lbank, snapshots: seq<Snapshot>, m: SymbolMap, now: real, rules: ConsensusRules)
    requires BuildConsensus(lbank, snapshots, m, now, rules).Ok?
    ensures BuildConsensus(lbank, snapshots, m, now, rules).value.lbankPrice == lbank.Mid()
  {
  }

  lemma {:induction false} IncludedListed(sources: seq<SourceResult>, i: nat)
    requires i < |sources| && sources[i].included
    ensures sources[i].price in IncludedPrices(sources)
  {
    if i < |sources| - 1 {
      IncludedListed(sources[..|sources| - 1], i);
    }
  }

  // ----- The order of the snapshots does not matter

  ghost predicate DistinctSources(snapshots: seq<Snapshot>) {
    forall i, j :: 0 <= i < j < |snapshots| ==> snapshots[i].source != snapshots[j].source
  }

  /** The prices of the admissible snapshots, in order. */
  function AdmittedPrices(c: Context, s: seq<Snapshot>): seq<real> {
    if s == [] then []
    else
      AdmittedPrices(c, s[..|s| - 1]) + if Admissible(c, s[|s| - 1]) then [s[|s| - 1].lastPrice] else []
  }

  /** Without repeated sources the used prices are those of the admissible snapshots. */
  lemma {:induction false} UsedAreAdmitted(c: Context, snapshots: seq<Snapshot>, n: nat)
    requires DistinctSources(snapshots) && n <= |snapshots|
    ensures UsedPrices(c, snapshots, n) == AdmittedPrices(c, snapshots[..n])
  {
    hide Health;
    if n > 0 {
      UsedAreAdmitted(c, snapshots, n - 1);
      assert snapshots[..n][..n - 1] == snapshots[..n - 1];
      assert !Repeated(snapshots, n - 1);
    }
  }

  lemma {:induction false} AdmittedSplit(c: Context, a: seq<Snapshot>, b: seq<Snapshot>)
    ensures AdmittedPrices(c, a + b) == AdmittedPrices(c, a) + AdmittedPrices(c, b)
  {
    hide Admissible;
    if b == [] {
      assert a + b == a;
    } else {
      assert (a + b)[..|a| + |b| - 1] == a + b[..|b| - 1];
      AdmittedSplit(c, a, b[..|b| - 1]);
    }
  }

  /** Moving one snapshot does not change the collection of admitted prices. */
  lemma AdmittedAround(c: Context, left: seq<Snapshot>, x: Snapshot, right: seq<Snapshot>)
    ensures multiset(AdmittedPrices(c, left + [x] + right))
         == multiset(AdmittedPrices(c, left + right)) + multiset(AdmittedPrices(c, [x]))
  {
    hide AdmittedPrices;
    AdmittedSplit(c, left + [x], right);
    AdmittedSplit(c, left, [x]);
    AdmittedSplit(c, left, right);
  }

  lemma {:induction false} AdmittedPermute(c: Context, s: seq<Snapshot>, t: seq<Snapshot>)
    requires multiset(s) == multiset(t)
    ensures multiset(AdmittedPrices(c, s)) == multiset(AdmittedPrices(c, t))
    decreases |s|
  {
    hide AdmittedPrices;
    if s == [] {
      SameElements(s, t);
      assert t == [];
    } else {
      var front, x := s[..|s| - 1], s[|s| - 1];
      assert s == front + [x];
      SameElements(s, t);
      assert x in s && x in t;
      var k :| 0 <= k < |t| && t[k] == x;
      var left, right := t[..k], t[k + 1..];
      assert t == left + [x] + right;
      RemoveOne(front, x, left, right);
      AdmittedPermute(c, front, left + right);
      AdmittedAround(c, left, x, right);
      AdmittedAround(c, front, x, []);
      assert front + [x] + [] == s && front + [] == front;
    }
  }

  lemma RemoveOne<T>(front: seq<T>, x: T, left: seq<T>, right: seq<T>)
    requires multiset(front + [x]) == multiset(left + [x] + right)
    ensures multiset(front) == multiset(left + right)
  {
    assert multiset(front + [x]) == multiset(front) + multiset{x};
    assert multiset(left + [x] + right) == multiset(left + right) + multiset{x};
    assert multiset(front) == multiset(front) + multiset{x} - multiset{x};
    assert multiset(left + right) == multiset(left + right) + multiset{x} - multiset{x};
  }

  lemma SameExtremes(s: seq<real>, t: seq<real>)
    requires s != [] && t != [] && multiset(s) == multiset(t)
    ensures Highest(s) == Highest(t) && Lowest(s) == Lowest(t)
  {
    hide Highest, Lowest;
    SameElements(s, t);
    Extremes(s);
    Extremes(t);
  }

  lemma SourcesStayDistinct(s: seq<Snapshot>, t: seq<Snapshot>)
    requires DistinctSources(s) && multiset(s) == multiset(t)
    ensures DistinctSources(t)
  {
    assert Distinct(s);
    DistinctPermutes(s, t);
    SameElements(s, t);
    forall i, j | 0 <= i < j < |t| ensures t[i].source != t[j].source {
      assert t[i] in s && t[j] in s && t[i] != t[j];
    }
  }

  /** With distinct sources, any reordering of the snapshots gives the same status, median,
      deviation, dispersion and number of usable sources. */
  lemma OrderIsIrrelevant(lbank: Lbank, s: seq<Snapshot>, t: seq<Snapshot>, m: SymbolMap, now: real, rules: ConsensusRules)
    requires DistinctSources(s) && multiset(s) == multiset(t)
    ensures var a, b := BuildConsensus(lbank, s, m, now, rules), BuildConsensus(lbank, t, m, now, rules);
            && a.Ok? && b.Ok?
            && a.value.status == b.value.status && a.value.median == b.value.median
            && a.value.deviation == b.value.deviation && a.value.dispersion == b.value.dispersion
            && a.value.usable == b.value.usable
  {
    hide Median, DeviationPct, ValidateLbank, UsedPrices, Highest, Lowest, ResultFor;
    NeverRaises(lbank, s, m, now, rules);
    NeverRaises(lbank, t, m, now, rules);
    var c := Context(m, now, rules);
    UsedPermute(c, s, t);
    var p, q := UsedPrices(c, s, |s|), UsedPrices(c, t, |t|);
    assert |p| == |multiset(p)| == |multiset(q)| == |q|;
    if p != [] {
      MedianPermutes(p, q);
      SameExtremes(p, q);
    }
  }

  lemma UsedPermute(c: Context, s: seq<Snapshot>, t: seq<Snapshot>)
    requires DistinctSources(s) && multiset(s) == multiset(t)
    ensures multiset(UsedPrices(c, s, |s|)) == multiset(UsedPrices(c, t, |t|))
  {
    hide UsedPrices, AdmittedPrices;
    SourcesStayDistinct(s, t);
    UsedAreAdmitted(c, s, |s|);
    UsedAreAdmitted(c, t, |t|);
    assert s[..|s|] == s && t[..|t|] == t;
    AdmittedPermute(c, s, t);
  }

  // ----- The report in prices and times

  /** Stamped and received within the limits, at most a second ahead of the clock, and quick. */
  predicate Fresh(s: Snapshot, now: real, rules: HealthRules) {
    && s.receivedAt - 1.0 <= now <= s.receivedAt + rules.maxReceiveAge
    && s.sourceTimestamp.Some?
    && s.sourceTimestamp.value - 1.0 <= now <= s.sourceTimestamp.value + rules.maxSourceAge
    && s.latencyMs <= rules.maxLatencyMs
  }

  predicate Outdated(at: real, now: real, limit: real) { at - 1.0 <= now && at + limit < now }

  lemma HealthMeaning(s: Snapshot, now: real, rules: HealthRules)
    ensures Health(s, now, rules) == HealthOk <==> Fresh(s, now, rules)
    ensures Health(s, now, rules) == HealthStale <==>
              || Outdated(s.receivedAt, now, rules.maxReceiveAge)
              || (s.sourceTimestamp.Some? && Outdated(s.sourceTimestamp.value, now, rules.maxSourceAge))
  {
  }

  predicate BookCurrent(s: Lbank, now: real, rules: LbankRules) {
    s.receivedAt - 1.0 <= now <= s.receivedAt + rules.maxAge && s.latencyMs <= rules.maxLatencyMs
  }

  predicate BookDeep(s: Lbank, rules: LbankRules) {
    s.spreadBps <= rules.maxSpreadBps && s.bidDepth >= rules.minBidDepth && s.askDepth >= rules.minAskDepth
  }

  /** An old or slow book is degraded; a current one that is wide or shallow is pending. */
  lemma LbankMeaning(s: Lbank, now: real, rules: LbankRules)
    ensures ValidateLbank(s, now, rules) ==
            if !BookCurrent(s, now, rules) then LbankDegraded else if !BookDeep(s, rules) then LbankPending else LbankOk
  {
  }

  /** The symbols are reliable and the book is the mapped market's. */
  predicate Mapped(lbank: Lbank, m: SymbolMap) { m.reliable && lbank.symbol == m.lbank }

  /** Snapshot `i` is the first of its source, carries the mapped symbol and is fresh. */
  ghost predicate Counted(snapshots: seq<Snapshot>, i: int, m: SymbolMap, now: real, rules: HealthRules)
    requires 0 <= i < |snapshots|
  {
    Checked(snapshots, i, m) && Fresh(snapshots[i], now, rules)
  }

  ghost predicate Checked(snapshots: seq<Snapshot>, i: int, m: SymbolMap)
    requires 0 <= i < |snapshots|
  {
    var s := snapshots[i];
    && s.source in m.benchmarks && m.benchmarks[s.source] == s.symbol
    && forall j :: 0 <= j < i ==> snapshots[j].source != s.source
  }

  /** The included prices of a report, in order. */
  function IncludedPrices(sources: seq<SourceResult>): seq<real> {
    if sources == [] then []
    else
      IncludedPrices(sources[..|sources| - 1])
      + if sources[|sources| - 1].included then [sources[|sources| - 1].price] else []
  }

  /** What the report says of one snapshot, when the symbols are mapped. */
  ghost predicate Reported(r: SourceResult, snapshots: seq<Snapshot>, i: int, m: SymbolMap, mapped: bool, now: real, rules: HealthRules)
    requires 0 <= i < |snapshots|
  {
    var s := snapshots[i];
    && r.source == s.source && r.price == s.lastPrice
    && r.expected == (if s.source in m.benchmarks then Some(m.benchmarks[s.source]) else None)
    && (r.included <==> mapped && Counted(snapshots, i, m, now, rules))
    && (r.health.Some? <==> mapped && Checked(snapshots, i, m))
    && (r.health.Some? ==> r.health.value == Health(s, now, rules))
  }

  lemma ResultReported(c: Context, snapshots: seq<Snapshot>, i: nat, deviation: Option<real>)
    requires i < |snapshots|
    ensures Reported(ResultFor(c, snapshots, i).(deviation := deviation), snapshots, i, c.symbols, true, c.now, c.rules.health)
  {
    hide Health, Fresh;
    HealthMeaning(snapshots[i], c.now, c.rules.health);
  }

  /** Exactly which sources a report includes, and what it says of each. */
  lemma IncludedExactly(lbank: Lbank, snapshots: seq<Snapshot>, m: SymbolMap, now: real, rules: ConsensusRules)
    requires BuildConsensus(lbank, snapshots, m, now, rules).Ok?
    ensures var r := BuildConsensus(lbank, snapshots, m, now, rules).value;
            && |r.sources| == |snapshots|
            && forall i :: 0 <= i < |snapshots| ==> Reported(r.sources[i], snapshots, i, m, Mapped(lbank, m), now, rules.health)
  {
    hide StatusFor, Median, DispersionPct, ResultFor, DeviationPct, UsedPrices, Counted, Checked, Health;
    var r, c := BuildConsensus(lbank, snapshots, m, now, rules).value, Context(m, now, rules);
    forall i | 0 <= i < |snapshots| ensures Reported(r.sources[i], snapshots, i, m, Mapped(lbank, m), now, rules.health) {
      if Mapped(lbank, m) {
        ResultReported(c, snapshots, i, r.sources[i].deviation);
        var plain := ResultFor(c, snapshots, i);
        assert r.sources[i] == plain.(deviation := r.sources[i].deviation);
      }
    }
  }

  lemma {:induction false} UsedAreIncluded(c: Context, snapshots: seq<Snapshot>, n: nat, sources: seq<SourceResult>)
    requires n <= |snapshots| && |sources| == n
    requires forall i :: 0 <= i < n ==>
               sources[i].price == snapshots[i].lastPrice && sources[i].included == ResultFor(c, snapshots, i).included
    ensures IncludedPrices(sources) == UsedPrices(c, snapshots, n)
  {
    hide ResultFor;
    if n > 0 {
      UsedAreIncluded(c, snapshots, n - 1, sources[..n - 1]);
    }
  }

  lemma {:induction false} NoneIncluded(sources: seq<SourceResult>)
    requires forall i :: 0 <= i < |sources| ==> !sources[i].included
    ensures IncludedPrices(sources) == []
  {
    if sources != [] {
      NoneIncluded(sources[..|sources| - 1]);
    }
  }

  /** The prices a report rests on: none for unmapped symbols, else those of its included sources. */
  lemma ReportPrices(lbank: Lbank, snapshots: seq<Snapshot>, m: SymbolMap, now: real, rules: ConsensusRules)
    requires BuildConsensus(lbank, snapshots, m, now, rules).Ok?
    ensures var r := BuildConsensus(lbank, snapshots, m, now, rules).value;
            IncludedPrices(r.sources) ==
            if Mapped(lbank, m) then UsedPrices(Context(m, now, rules), snapshots, |snapshots|) else []
  {
    hide StatusFor, Median, DispersionPct, Health, DeviationPct, UsedPrices, IncludedPrices;
    var r := BuildConsensus(lbank, snapshots, m, now, rules).value;
    if Mapped(lbank, m) {
      UsedAreIncluded(Context(m, now, rules), snapshots, |snapshots|, r.sources);
    } else {
      NoneIncluded(r.sources);
    }
  }

  function Gap(a: real, b: real): real { if a >= b then a - b else b - a }

  /** Two of the prices lie further apart than the limit allows, in percent of the median. */
  ghost predicate TooSpread(prices: seq<real>, median: real, limit: real) {
    exists x, y :: x in prices && y in prices && (x - y) * 100.0 > limit * median
  }

  lemma SpreadMeaning(prices: seq<real>, limit: real)
    requires prices != [] && AllPositive(prices)
    ensures DispersionPct(prices) > limit <==> TooSpread(prices, Median(prices), limit)
  {
    hide Median, Highest, Lowest;
    Extremes(prices);
    MedianPositive(prices);
    var hi, lo, median := Highest(prices), Lowest(prices), Median(prices);
    PercentCompare(hi - lo, median, limit);
    assert forall x, y :: x in prices && y in prices ==> x - y <= hi - lo;
  }

  lemma PercentCompare(value: real, reference: real, limit: real)
    requires reference > 0.0
    ensures value / reference * 100.0 > limit <==> value * 100.0 > limit * reference
    ensures value / reference * 100.0 >= limit <==> value * 100.0 >= limit * reference
  {
    QuotientCompare(value, reference, limit / 100.0);
    assert limit / 100.0 * reference * 100.0 == limit * reference;
  }

  /** How far the book is from the median, as the status it earns. */
  function GapStatus(gap: real, median: real, rules: ConsensusRules): ConsensusStatus {
    if gap * 100.0 >= rules.avoidPct * median then ConsensusAvoid
    else if gap * 100.0 >= rules.degradedPct * median then ConsensusDegraded
    else if gap * 100.0 >= rules.warningPct * median then ConsensusWarning
    else ConsensusOk
  }

  /** The status of every report, from the map, the book, the number and the spread of the included
      prices and the distance of the book's midpoint from their median. */
  lemma StatusExactly(lbank: Lbank, snapshots: seq<Snapshot>, m: SymbolMap, now: real, rules: ConsensusRules)
    ensures BuildConsensus(lbank, snapshots, m, now, rules).Ok?
    ensures var r := BuildConsensus(lbank, snapshots, m, now, rules).value;
            var prices := IncludedPrices(r.sources);
            && r.usable == |prices| && (r.median.Some? <==> prices != [])
            && r.status ==
               if !Mapped(lbank, m) || !BookCurrent(lbank, now, rules.lbank) then ConsensusDegraded
               else if !BookDeep(lbank, rules.lbank) then ConsensusPending
               else if |prices| < rules.minimumSources || TooSpread(prices, r.median.value, rules.maxDispersionPct)
               then ConsensusDegraded
               else GapStatus(Gap((lbank.bid + lbank.ask) / 2.0, r.median.value), r.median.value, rules)
  {
    hide UsedPrices, IncludedPrices, Median, DispersionPct, TooSpread, ValidateLbank, Results, WithDeviations, BookCurrent, BookDeep;
    NeverRaises(lbank, snapshots, m, now, rules);
    ReportPrices(lbank, snapshots, m, now, rules);
    LbankMeaning(lbank, now, rules.lbank);
    var c := Context(m, now, rules);
    var prices := UsedPrices(c, snapshots, |snapshots|);
    UsedPositive(c, snapshots, |snapshots|);
    if prices != [] {
      MedianPositive(prices);
      SpreadMeaning(prices, rules.maxDispersionPct);
      ClassifyMeaning(rules, lbank.Mid(), Median(prices));
    }
  }

  lemma ClassifyMeaning(rules: ConsensusRules, mid: real, median: real)
    requires median > 0.0
    ensures Classify(rules, DeviationPct(mid, median)) == GapStatus(Gap(mid, median), median, rules)
  {
    var gap := Gap(mid, median);
    PercentCompare(gap, median, rules.avoidPct);
    PercentCompare(gap, median, rules.degradedPct);
    PercentCompare(gap, median, rules.warningPct);
  }

  /** The figures of a report: the median is the middle of the included prices, the deviations are
      percentages of it, and the dispersion is the largest distance between two of the prices. */
  lemma FiguresExactly(lbank: Lbank, snapshots: seq<Snapshot>, m: SymbolMap, now: real, rules: ConsensusRules, t: seq<real>)
    requires BuildConsensus(lbank, snapshots, m, now, rules).Ok?
    requires var r := BuildConsensus(lbank, snapshots, m, now, rules).value;
             IncludedPrices(r.sources) != [] && Ascending(t) && multiset(t) == multiset(IncludedPrices(r.sources))
    ensures var r := BuildConsensus(lbank, snapshots, m, now, rules).value;
            && t != [] && r.median.Some? && r.deviation.Some? && r.dispersion.Some?
            && 2.0 * r.lbankPrice == lbank.bid + lbank.ask
            && 2.0 * r.median.value == t[(|t| - 1) / 2] + t[|t| / 2]
            && r.deviation.value * r.median.value == Gap(r.lbankPrice, r.median.value) * 100.0
            && r.dispersion.value * r.median.value == (t[|t| - 1] - t[0]) * 100.0
            && (forall i :: 0 <= i < |r.sources| ==>
                  && (r.sources[i].deviation.Some? <==> r.sources[i].included)
                  && (r.sources[i].included ==>
                        r.sources[i].deviation.value * r.median.value == Gap(r.sources[i].price, r.median.value) * 100.0))
  {
    hide IncludedPrices, BuildConsensus, DeviationPct, DispersionPct, Median;
    var r := BuildConsensus(lbank, snapshots, m, now, rules).value;
    var prices := IncludedPrices(r.sources);
    ReportFigures(lbank, snapshots, m, now, rules);
    MedianIsMiddle(prices, t);
    var median := Median(prices);
    PercentTimes(lbank.Mid(), median);
    DispersionEnds(prices, t);
    forall i | 0 <= i < |r.sources| && r.sources[i].included
      ensures r.sources[i].deviation.Some? && r.sources[i].deviation.value * median == Gap(r.sources[i].price, median) * 100.0
    {
      PercentTimes(r.sources[i].price, median);
    }
  }

  lemma ReportFigures(lbank: Lbank, snapshots: seq<Snapshot>, m: SymbolMap, now: real, rules: ConsensusRules)
    requires BuildConsensus(lbank, snapshots, m, now, rules).Ok?
    ensures var r := BuildConsensus(lbank, snapshots, m, now, rules).value;
            var prices := IncludedPrices(r.sources);
            && r.lbankPrice == lbank.Mid()
            && (prices != [] ==>
                  && AllPositive(prices) && Median(prices) > 0.0 && r.median == Some(Median(prices))
                  && r.deviation == Some(DeviationPct(lbank.Mid(), Median(prices)))
                  && r.dispersion == Some(DispersionPct(prices))
                  && forall i :: 0 <= i < |r.sources| ==>
                       r.sources[i].deviation == if r.sources[i].included then Some(DeviationPct(r.sources[i].price, Median(prices))) else None)
  {
    hide UsedPrices, IncludedPrices, StatusFor, Results, DeviationPct, DispersionPct, Median, WithDeviations;
    ReportPrices(lbank, snapshots, m, now, rules);
    var prices := UsedPrices(Context(m, now, rules), snapshots, |snapshots|);
    UsedPositive(Context(m, now, rules), snapshots, |snapshots|);
    if prices != [] {
      MedianPositive(prices);
    }
  }

  lemma PercentTimes(value: real, median: real)
    requires median > 0.0
    ensures DeviationPct(value, median) * median == Gap(value, median) * 100.0
  {
    QuotientTimes(Gap(value, median), median);
    assert Gap(value, median) / median * 100.0 * median == Gap(value, median) / median * median * 100.0;
  }

  lemma DispersionEnds(prices: seq<real>, t: seq<real>)
    requires prices != [] && AllPositive(prices) && Ascending(t) && multiset(t) == multiset(prices)
    ensures |t| == |prices| && DispersionPct(prices) * Median(prices) == (t[|t| - 1] - t[0]) * 100.0
  {
    hide Median, Highest, Lowest;
    assert |prices| == |multiset(prices)| == |multiset(t)| == |t|;
    MedianPositive(prices);
    Extremes(prices);
    SameElements(prices, t);
    assert t[0] in t && t[|t| - 1] in t;
    var h, l :| 0 <= h < |t| && 0 <= l < |t| && t[h] == Highest(prices) && t[l] == Lowest(prices);
    var d := Highest(prices) - Lowest(prices);
    QuotientTimes(d, Median(prices));
    assert d / Median(prices) * 100.0 * Median(prices) == d / Median(prices) * Median(prices) * 100.0;
  }

  /** Exactly when a report allows execution. */
  lemma AllowsExactly(lbank: Lbank, snapshots: seq<Snapshot>, m: SymbolMap, now: real, rules: ConsensusRules)
    requires BuildConsensus(lbank, snapshots, m, now, rules).Ok?
    ensures var r := BuildConsensus(lbank, snapshots, m, now, rules).value;
            var prices := IncludedPrices(r.sources);
            r.status in {ConsensusOk, ConsensusWarning} <==>
              && Mapped(lbank, m) && BookCurrent(lbank, now, rules.lbank) && BookDeep(lbank, rules.lbank)
              && |prices| >= rules.minimumSources && r.median.Some?
              && (forall x, y :: x in prices && y in prices ==> (x - y) * 100.0 <= rules.maxDispersionPct * r.median.value)
              && Gap((lbank.bid + lbank.ask) / 2.0, r.median.value) * 100.0 < rules.degradedPct * r.median.value
  {
    hide IncludedPrices, BuildConsensus, BookCurrent, BookDeep;
    StatusExactly(lbank, snapshots, m, now, rules);
    MedianOfReport(lbank, snapshots, m, now, rules);
  }

  lemma MedianOfReport(lbank: Lbank, snapshots: seq<Snapshot>, m: SymbolMap, now: real, rules: ConsensusRules)
    requires BuildConsensus(lbank, snapshots, m, now, rules).Ok?
    ensures var r := BuildConsensus(lbank, snapshots, m, now, rules).value; r.median.Some? ==> r.median.value > 0.0
  {
    hide UsedPrices, StatusFor, Median, DispersionPct, DeviationPct, Results, WithDeviations;
    var prices := UsedPrices(Context(m, now, rules), snapshots, |snapshots|);
    UsedPositive(Context(m, now, rules), snapshots, |snapshots|);
    if prices != [] {
      MedianPositive(prices);
    }
  }
}
