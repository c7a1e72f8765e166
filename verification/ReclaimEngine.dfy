/** The post-break classifier (app/setups/reclaim_engine.py). */
module ReclaimEngine {
  import opened Basics
  import opened Candles
  import opened ReclaimModels
  import opened Rounding
  import opened Streams
  import opened StructureEvents
  import opened SupportZones

  // ----- Measurements

  function PenetrationBps(price: real, low: real): real
    requires low > 0.0
  {
    if price <= low then 0.0 else (price - low) / low * BPS
  }

  /** Body over range, not rounded here. */
  function RawBody(c: Candle): real {
    if c.high == c.low then 0.0
    else (if c.close >= c.open then c.close - c.open else c.open - c.close) / (c.high - c.low)
  }

  function BounceRatio(s: seq<Candle>, breakdownVolume: real): Option<real> {
    if s == [] || breakdownVolume <= 0.0 then None
    else Some(TotalVolume(s) / |s| as real / breakdownVolume)
  }

  function CloseOver(z: Zone): Candle -> bool { (c: Candle) => Over(z, c) }

  function HighOver(z: Zone): Candle -> bool { (c: Candle) => c.high > z.high }

  // ----- The four searches

  /** A run of `required` consecutive closes above the zone ends at `i`. */
  predicate RunEnds(s: seq<Candle>, z: Zone, required: int, i: int) {
    && required <= i + 1 <= |s| && 0 <= i
    && forall j :: 0 <= j && i - required < j <= i ==> Over(z, s[j])
  }

  /** The least index that ends such a run, or `|s|`. */
  function FirstRun(s: seq<Candle>, z: Zone, required: int, from: nat): (r: nat)
    requires from <= |s|
    ensures from <= r <= |s|
    ensures r < |s| ==> RunEnds(s, z, required, r)
    ensures forall i :: from <= i < r ==> !RunEnds(s, z, required, i)
    decreases |s| - from
  {
    if from == |s| || RunEnds(s, z, required, from) then from else FirstRun(s, z, required, from + 1)
  }

  function Required(rules: ReclaimRules, interval: Interval): (n: int)
    ensures n >= 1
  {
    if interval == H4 then rules.successfulH4Closes else rules.successfulM15Closes
  }

  function Reaches(z: Zone, rules: ReclaimRules): (Candle, int) -> bool {
    (c: Candle, i: int) => c.high >= z.low * (1.0 + rules.minimumAttemptBps / BPS)
  }

  predicate Rejection(z: Zone, rules: ReclaimRules, c: Candle) {
    && c.high >= z.low && c.close < z.low && c.close < c.open
    && RawBody(c) >= rules.minimumBodyFraction
    && (z.low - c.close) / z.low * BPS >= rules.minimumDistanceBps
    && PenetrationBps(c.high, z.low) <= rules.maximumFailedBps
  }

  function Rejected(z: Zone, rules: ReclaimRules): (Candle, int) -> bool {
    (c: Candle, i: int) => Rejection(z, rules, c)
  }

  function ClosesUnder(price: real): (Candle, int) -> bool {
    (c: Candle, i: int) => c.close < price
  }

  /** The first index of the highest high. */
  function PeakIndex(s: seq<Candle>): (r: nat)
    requires s != []
    ensures r < |s|
    ensures forall j :: 0 <= j < |s| ==> s[j].high <= s[r].high
    ensures forall j :: 0 <= j < r ==> s[j].high < s[r].high
  {
    if |s| == 1 then 0
    else
      var r := PeakIndex(s[..|s| - 1]);
      assert forall j :: 0 <= j < |s| - 1 ==> s[..|s| - 1][j] == s[j];
      if s[|s| - 1].high > s[r].high then |s| - 1 else r
  }

  // ----- Records

  function Record(z: Zone, e: Event, interval: Interval, startedAt: int, observedAt: int,
                  outcome: Outcome, setupType: SetupType, readiness: Readiness, maximumPrice: real,
                  penetration: real, duration: int, closesAbove: int, barsAbove: int,
                  ratio: Option<real>, rejectionOpen: Option<int>, rejectionLow: Option<real>,
                  triggerOpen: Option<int>, quality: real): RawAttempt
  {
    RawAttempt(
      AttemptId(e.id, z.id, interval, startedAt), e.id, z.id, z.source, z.symbol, z.interval,
      startedAt, observedAt, outcome, setupType, readiness, z.low, z.high, maximumPrice,
      Quantize(penetration, 100.0), duration, closesAbove, barsAbove,
      if ratio.Some? then Some(Quantize(ratio.value, 10000.0)) else None,
      rejectionOpen, rejectionLow, triggerOpen, quality)
  }

  /** The five components, each rounded, before the cap. */
  function QualityTotal(penetration: real, body: real, ratio: Option<real>, duration: nat,
                        rules: ReclaimRules, triggered: bool): real
  {
    var limit := if rules.maximumFailedBps > 1.0 then rules.maximumFailedBps else 1.0;
    var depth := if penetration / limit < 1.0 then penetration / limit else 1.0;
    var age := duration as real / rules.maximumPullbackBars as real;
    Quantize(25.0 * (1.0 - depth), 100.0)
    + Quantize(30.0 * (if body < 1.0 then body else 1.0), 100.0)
    + Quantize(20.0 * (1.0 - (if age < 1.0 then age else 1.0)), 100.0)
    + VolumeComponent(ratio, rules)
    + (if triggered then 20.0 else 0.0)
  }

  function Quality(penetration: real, body: real, ratio: Option<real>, duration: nat,
                   rules: ReclaimRules, triggered: bool): real
  {
    var total := QualityTotal(penetration, body, ratio, duration, rules, triggered);
    Quantize(if total < 100.0 then total else 100.0, 100.0)
  }

  function VolumeComponent(ratio: Option<real>, rules: ReclaimRules): real {
    match ratio
    case None => 8.0
    case Some(r) =>
      if r <= rules.maximumVolumeRatio then
        var scale := if rules.maximumVolumeRatio > 0.0001 then rules.maximumVolumeRatio else 0.0001;
        Quantize(15.0 + 10.0 * (1.0 - r / scale), 100.0)
      else 0.0
  }

  function NoCandles(z: Zone, e: Event): RawAttempt {
    Record(z, e, H4, e.observedAt, e.observedAt, NoAttempt, BreakdownShort, Watching,
           e.closePrice, 0.0, 0, 0, 0, None, None, None, None, 0.0)
  }

  /** A record whose counters are taken over the stretch `w`, with no rejection evidence. */
  function Stretch(z: Zone, e: Event, bc: Candle, interval: Interval, w: seq<Candle>, outcome: Outcome,
                 setupType: SetupType, readiness: Readiness): RawAttempt
    requires w != []
  {
    Record(z, e, interval, w[0].openTime, w[|w| - 1].CloseTime(), outcome, setupType, readiness,
           HighestHigh(w), PenetrationBps(HighestHigh(w), z.low), |w|, Tally(w, CloseOver(z)),
           Tally(w, HighOver(z)), BounceRatio(w, bc.volume), None, None, None, 0.0)
  }

  /** A record of a zone that was never retested: penetration and counters are zero. */
  function Untouched(z: Zone, e: Event, bc: Candle, interval: Interval, w: seq<Candle>, outcome: Outcome,
                     setupType: SetupType, readiness: Readiness): RawAttempt
    requires w != []
  {
    Record(z, e, interval, w[0].openTime, w[|w| - 1].CloseTime(), outcome, setupType, readiness,
           HighestHigh(w), 0.0, |w|, 0, 0, BounceRatio(w, bc.volume), None, None, None, 0.0)
  }

  // ----- Continuation

  predicate ContinuationTrigger(bc: Candle, bounce: Candle, c: Candle) {
    c.close < bc.low && c.high < bounce.high
  }

  function Triggers(bc: Candle, bounce: Candle): (Candle, int) -> bool {
    (c: Candle, i: int) => ContinuationTrigger(bc, bounce, c)
  }

  function Equals(x: Candle): (Candle, int) -> bool { (c: Candle, i: int) => c == x }

  function ContinuationQuality(ratio: Option<real>, bars: nat, rules: ReclaimRules): real {
    var bonus := if ratio.Some? && ratio.value <= rules.maximumVolumeRatio then 10.0 else 0.0;
    var q := 65.0 + bonus - (if bars < 10 then bars as real else 10.0);
    Quantize(if q > 0.0 then q else 0.0, 100.0)
  }

  /** A bounce strictly inside the window, under the zone and over the break close, followed by
      a lower low; `None` when there is none. */
  function ContinuationResult(z: Zone, e: Event, bc: Candle, s: seq<Candle>, rules: ReclaimRules): Option<RawAttempt>
    requires s != []
  {
    if |s| < rules.continuationMinimumBars then None
    else
      var search := Take(s, rules.maximumPullbackBars);
      var b := PeakIndex(search);
      if b == 0 || b >= |search| - 1 then None
      else
        var bounce := search[b];
        if bounce.high >= z.low || bounce.high <= e.closePrice then None
        else
          var k := First(search, Triggers(bc, bounce), b + 1);
          if k == |search| then None
          else
            var trigger := search[k];
            var considered := search[..First(search, Equals(trigger), 0) + 1];
            var ratio := BounceRatio(considered, bc.volume);
            Some(Record(z, e, search[0].interval, search[0].openTime, trigger.CloseTime(), Continuation,
                        ContinuationShort, Qualified, HighestHigh(considered), 0.0, |considered|, 0, 0,
                        ratio, Some(bounce.openTime), Some(bc.low), Some(trigger.openTime),
                        ContinuationQuality(ratio, |considered|, rules)))
  }

  // ----- Classification of the relevant stream

  function Classify(z: Zone, e: Event, bc: Candle, s: seq<Candle>, rules: ReclaimRules): RawAttempt {
    if s == [] then NoCandles(z, e)
    else
      var run := FirstRun(s, z, Required(rules, s[0].interval), 0);
      if run < |s| then
        Stretch(z, e, bc, s[0].interval, s[..run + 1], SuccessfulReclaim, NoSetup, Cancelled)
      else
        var start := First(s, Reaches(z, rules), 0);
        if start == |s| then Untested(z, e, bc, s, rules)
        else Pullback(z, e, bc, s[0].interval, s[start..], rules)
  }

  function Untested(z: Zone, e: Event, bc: Candle, s: seq<Candle>, rules: ReclaimRules): RawAttempt
    requires s != []
  {
    match ContinuationResult(z, e, bc, s, rules)
    case Some(attempt) => attempt
    case None =>
      if |s| >= rules.maximumAgeBars
      then Untouched(z, e, bc, s[0].interval, s, Expired, NoSetup, OutOfTime)
      else Untouched(z, e, bc, s[0].interval, s, NoAttempt, BreakdownShort, Watching)
  }

  function Pullback(z: Zone, e: Event, bc: Candle, interval: Interval, w: seq<Candle>, rules: ReclaimRules): RawAttempt
    requires w != []
  {
    var limited := Take(w, rules.maximumPullbackBars);
    var r := First(limited, Rejected(z, rules), 0);
    if r == |limited| then
      if |w| > rules.maximumPullbackBars
      then Stretch(z, e, bc, interval, limited, PullbackExceeded, NoSetup, Void)
      else Stretch(z, e, bc, interval, w, Attempting, BreakdownShort, Watching)
    else Rejecting(z, e, bc, interval, w, rules, r)
  }

  /** The pullback was rejected at `r`; a later close under the rejection low triggers it. */
  function Rejecting(z: Zone, e: Event, bc: Candle, interval: Interval, w: seq<Candle>, rules: ReclaimRules, r: nat): RawAttempt
    requires r < |w|
  {
    var considered, rejection := w[..r + 1], w[r];
    var k := First(w, ClosesUnder(rejection.low), r + 1);
    var penetration := PenetrationBps(HighestHigh(considered), z.low);
    var ratio := BounceRatio(considered, bc.volume);
    var quality := Quality(penetration, RawBody(rejection), ratio, r + 1, rules, k < |w|);
    Record(z, e, interval, w[0].openTime,
           if k < |w| then w[k].CloseTime() else rejection.CloseTime(),
           if k < |w| then FailedPullback else FailedReclaim,
           if k < |w| then FailedPullbackShort else BreakdownShort,
           if k < |w| then Qualified else Watching,
           HighestHigh(considered), penetration, r + 1, Tally(considered, CloseOver(z)),
           Tally(considered, HighOver(z)), ratio, Some(rejection.openTime), Some(rejection.low),
           if k < |w| then Some(w[k].openTime) else None, quality)
  }

  // ----- The engine

  function AfterClose(t: int): Candle -> bool { (c: Candle) => c.CloseTime() > t }

  function Relevant(candles: seq<Candle>, e: Event): seq<Candle> { Filter(candles, AfterClose(e.observedAt)) }

  /** Candles of the zone's market, all 4H or all 15m, in strict time order. */
  predicate ConfirmationStream(candles: seq<Candle>, z: Zone) {
    candles == [] ||
    (candles[0].interval in {H4, M15} && Stream(candles, z.source, z.symbol, candles[0].interval))
  }

  function InputFault(z: Zone, e: Event, bc: Candle, candles: seq<Candle>): Option<Fault> {
    if e.state != ConfirmedBreak then Some(NotConfirmedBreak)
    else if e.zoneId != z.id || e.source != z.source || e.symbol != z.symbol || e.interval != z.interval
    then Some(ForeignBreak)
    else if !bc.Trades(z.source, z.symbol, z.interval) || bc.openTime != e.candleOpenTime || bc.CloseTime() != e.observedAt
    then Some(ForeignBreakCandle)
    else if !ConfirmationStream(candles, z) then Some(InvalidStream)
    else None
  }

  function AnalyzeReclaim(z: Zone, e: Event, bc: Candle, candles: seq<Candle>, rules: ReclaimRules): Result<RawAttempt> {
    var fault := InputFault(z, e, bc, candles);
    if fault.Some? then Err(fault.value)
    else
      var attempt := Classify(z, e, bc, Relevant(candles, e), rules);
      if attempt.Valid() then Ok(attempt) else Err(InvalidAttempt)
  }

  // ----- The loops as written

  /** `_successful_reclaim_index`: one pass with a counter of consecutive closes. */
  method SuccessfulReclaimIndex(s: seq<Candle>, z: Zone, rules: ReclaimRules) returns (index: nat)
    requires s != []
    ensures index == FirstRun(s, z, Required(rules, s[0].interval), 0)
  {
    hide Required, FirstRun, Over;
    var required := Required(rules, s[0].interval);
    var consecutive := 0;
    for n := 0 to |s|
      invariant 0 <= consecutive < required && consecutive <= n
      invariant forall j :: n - consecutive <= j < n ==> Over(z, s[j])
      invariant consecutive < n ==> !Over(z, s[n - consecutive - 1])
      invariant forall i :: 0 <= i < n ==> !RunEnds(s, z, required, i)
    {
      if Over(z, s[n]) {
        consecutive := consecutive + 1;
        if consecutive >= required {
          assert RunEnds(s, z, required, n);
          FirstRunIs(s, z, required, n);
          return n;
        }
        assert !RunEnds(s, z, required, n);
      } else {
        consecutive := 0;
        assert !RunEnds(s, z, required, n);
      }
    }
    FirstRunIs(s, z, required, |s|);
    return |s|;
  }

  lemma FirstRunIs(s: seq<Candle>, z: Zone, required: int, n: nat)
    requires n <= |s| && (n < |s| ==> RunEnds(s, z, required, n))
    requires forall i :: 0 <= i < n ==> !RunEnds(s, z, required, i)
    ensures FirstRun(s, z, required, 0) == n
  {
  }

  /** The loop of `_validate_inputs`, which fixes the interval at the first candle. */
  method CheckConfirmationStream(candles: seq<Candle>, z: Zone) returns (ok: bool)
    ensures ok == ConfirmationStream(candles, z)
  {
    var previous: Option<int> := None;
    var interval: Option<Interval> := None;
    for n := 0 to |candles|
      invariant n > 0 ==> previous == Some(candles[n - 1].openTime) && interval == Some(candles[0].interval)
      invariant n > 0 ==> candles[0].interval in {H4, M15}
      invariant n == 0 ==> previous == None && interval == None
      invariant forall i :: 0 <= i < n ==> candles[i].Trades(z.source, z.symbol, candles[0].interval)
      invariant forall i, j :: 0 <= i < j < n ==> candles[i].openTime < candles[j].openTime
    {
      var c := candles[n];
      if c.source != z.source || c.symbol != z.symbol {
        assert !c.Trades(z.source, z.symbol, candles[0].interval);
        return false;
      }
      if c.interval !in {H4, M15} {
        assert n > 0 ==> !c.Trades(z.source, z.symbol, candles[0].interval);
        return false;
      }
      if interval == None {
        interval := Some(c.interval);
      } else if Some(c.interval) != interval {
        assert !c.Trades(z.source, z.symbol, candles[0].interval);
        return false;
      }
      if previous.Some? && c.openTime <= previous.value {
        return false;
      }
      previous := Some(c.openTime);
    }
    return true;
  }
}
