/** Exactly which rules make an expiry and a continuation final as candles arrive. */
module ReclaimFinality {
  import opened Basics
  import opened Candles
  import opened ReclaimEngine
  import opened ReclaimGrowth
  import opened ReclaimModels
  import opened ReclaimRecords
  import opened Streams
  import opened StructureEvents
  import opened SupportZones

  // ----- A tape under a broken zone: a bounce at bar 1, a lower low at bar 2, then quiet

  function TapeZone(): Zone {
    RawZone(ZoneId(Bybit, "X", H4, 100.0, 110.0, 2, [0, 1]), Bybit, "X", H4, 100.0, 110.0, 1, 2, 2, 2, 0, 49.0, [0, 1])
  }

  function TapeBreak(): Event {
    RawEvent(EventId(TapeZone().id, 0, 14400, ConfirmedBreak), TapeZone().id, Bybit, "X", H4, ConfirmedBreak,
             14400, 0, 90.0, 100.0, 110.0, 0.0, 0.0, None, None, None)
  }

  function Bar(i: int, open: real, high: real, low: real, close: real): Candle
    requires 0.0 < low <= open <= high && low <= close <= high
  {
    RawCandle(Bybit, "X", H4, i * 14400, open, high, low, close, 1.0)
  }

  function BreakBar(): Candle { Bar(0, 101.0, 101.0, 89.0, 90.0) }

  function TapeBar(i: int): Candle {
    if i == 1 then Bar(i + 1, 94.0, 95.0, 93.0, 94.0)
    else if i == 2 then Bar(i + 1, 93.0, 93.0, 87.0, 88.0)
    else Bar(i + 1, 92.0, 93.0, 91.0, 92.0)
  }

  function Tape(n: nat): seq<Candle> { seq(n, i => TapeBar(i)) }

  /** A later bar higher than the bounce, still under the zone. */
  function Spike(n: nat): Candle { Bar(n + 1, 96.0, 97.0, 95.0, 96.0) }

  /** Candles that the engine accepts whole and that never touch the zone. */
  ghost predicate Quiet(s: seq<Candle>) {
    && Stream(s, Bybit, "X", H4)
    && forall i :: 0 <= i < |s| ==> s[i].low >= 80.0 && s[i].high < 100.0 && s[i].openTime > 0
  }

  lemma TapeIsQuiet(n: nat)
    ensures Quiet(Tape(n)) && Quiet(Tape(n) + [Spike(n)])
  {
  }

  lemma QuietIsUntested(s: seq<Candle>, rules: ReclaimRules)
    requires Quiet(s) && s != []
    ensures AnalyzeReclaim(TapeZone(), TapeBreak(), BreakBar(), s, rules)
         == Ok(Untested(TapeZone(), TapeBreak(), BreakBar(), s, rules))
  {
    hide Untested, First, FirstRun, Pullback, Stretch;
    var z, e, bc := TapeZone(), TapeBreak(), BreakBar();
    EngineNeverRaises(z, e, bc, s, rules);
    FilterSuffix(s, AfterClose(e.observedAt), 0);
    QuietTests(s, rules);
  }

  lemma QuietTests(s: seq<Candle>, rules: ReclaimRules)
    requires Quiet(s) && s != []
    ensures FirstRun(s, TapeZone(), Required(rules, s[0].interval), 0) == |s|
    ensures First(s, Reaches(TapeZone(), rules), 0) == |s|
  {
    hide Stream;
    var z := TapeZone();
    var run := FirstRun(s, z, Required(rules, s[0].interval), 0);
    assert run < |s| ==> Over(z, s[run]);
  }

  lemma TapeTake(n: nat, k: nat)
    ensures Take(Tape(n), k) == Tape(if k < n then k else n)
  {
  }

  /** On the tape a continuation is found exactly when enough bars are there. */
  lemma TapeContinuation(n: nat, rules: ReclaimRules)
    requires n >= 3 && rules.maximumPullbackBars >= 3
    ensures ContinuationResult(TapeZone(), TapeBreak(), BreakBar(), Tape(n), rules).Some? <==> n >= rules.continuationMinimumBars
  {
    hide HighestHigh, BounceRatio, ContinuationQuality, Record;
    TapeTake(n, rules.maximumPullbackBars);
    var search := Take(Tape(n), rules.maximumPullbackBars);
    var b := PeakIndex(search);
    assert search[1].high == 95.0;
    assert b == 1;
    var k := First(search, Triggers(BreakBar(), search[1]), 2);
    assert Triggers(BreakBar(), search[1])(search[2], 2);
    assert k == 2;
  }

  /** A higher bar inside the window moves the peak to the end, and the continuation is gone. */
  lemma SpikeWithdraws(n: nat, rules: ReclaimRules)
    requires n < rules.maximumPullbackBars
    ensures ContinuationResult(TapeZone(), TapeBreak(), BreakBar(), Tape(n) + [Spike(n)], rules).None?
  {
    hide HighestHigh, BounceRatio, ContinuationQuality, Record, First;
    var s := Tape(n) + [Spike(n)];
    assert Take(s, rules.maximumPullbackBars) == s;
    assert s[n].high == 97.0;
    assert PeakIndex(s) == n;
  }

  // ----- Expiry

  ghost predicate ExpiryIsFinal(rules: ReclaimRules) {
    forall z: Zone, e: Event, bc: Candle, s: seq<Candle>, t: seq<Candle> ::
      var a, b := AnalyzeReclaim(z, e, bc, s, rules), AnalyzeReclaim(z, e, bc, t, rules);
      s <= t && a.Ok? && b.Ok? && a.value.outcome == Expired ==> b.value.outcome != Continuation
  }

  /** An expired setup can never come back as a continuation, exactly when the continuation
      minimum is within the age limit or the window is too short to hold a bounce. */
  lemma ExpiryFinality(rules: ReclaimRules)
    ensures ExpiryIsFinal(rules) <==>
              rules.continuationMinimumBars <= rules.maximumAgeBars || rules.maximumPullbackBars < 3
  {
    hide AnalyzeReclaim;
    if rules.continuationMinimumBars <= rules.maximumAgeBars || rules.maximumPullbackBars < 3 {
      forall z: Zone, e: Event, bc: Candle, s: seq<Candle>, t: seq<Candle>
        | s <= t && AnalyzeReclaim(z, e, bc, s, rules).Ok? && AnalyzeReclaim(z, e, bc, t, rules).Ok?
          && AnalyzeReclaim(z, e, bc, s, rules).value.outcome == Expired
        ensures AnalyzeReclaim(z, e, bc, t, rules).value.outcome != Continuation
      {
        EngineGrows(z, e, bc, s, t, rules);
      }
    } else {
      ExpiredThenContinued(rules);
    }
  }

  lemma ExpiredThenContinued(rules: ReclaimRules)
    requires rules.continuationMinimumBars > rules.maximumAgeBars && rules.maximumPullbackBars >= 3
    ensures var z, e, bc := TapeZone(), TapeBreak(), BreakBar();
            var s, t := Tape(rules.maximumAgeBars), Tape(rules.continuationMinimumBars);
            var a, b := AnalyzeReclaim(z, e, bc, s, rules), AnalyzeReclaim(z, e, bc, t, rules);
            s <= t && a.Ok? && b.Ok? && a.value.outcome == Expired && b.value.outcome == Continuation
  {
    hide AnalyzeReclaim, Untested, ContinuationResult, Quiet;
    var s, t := Tape(rules.maximumAgeBars), Tape(rules.continuationMinimumBars);
    TapeIsQuiet(|s|);
    TapeIsQuiet(|t|);
    QuietIsUntested(s, rules);
    QuietIsUntested(t, rules);
    TapeContinuation(|s|, rules);
    TapeContinuation(|t|, rules);
    UntestedOutcomes(TapeZone(), TapeBreak(), BreakBar(), s, rules);
    UntestedOutcomes(TapeZone(), TapeBreak(), BreakBar(), t, rules);
  }

  // ----- Continuation

  ghost predicate ContinuationIsFinal(rules: ReclaimRules) {
    forall z: Zone, e: Event, bc: Candle, s: seq<Candle>, t: seq<Candle> ::
      var a, b := AnalyzeReclaim(z, e, bc, s, rules), AnalyzeReclaim(z, e, bc, t, rules);
      s <= t && a.Ok? && b.Ok? && a.value.outcome == Continuation ==> b == a || b.value.outcome !in UNTESTED
  }

  /** A qualified continuation is kept until the zone is retested or reclaimed, exactly when the
      pullback window is full by the time a continuation can be reported. */
  lemma ContinuationFinality(rules: ReclaimRules)
    ensures ContinuationIsFinal(rules) <==>
              rules.maximumPullbackBars <= 3 || rules.maximumPullbackBars <= rules.continuationMinimumBars
  {
    hide AnalyzeReclaim;
    if rules.maximumPullbackBars <= 3 || rules.maximumPullbackBars <= rules.continuationMinimumBars {
      forall z: Zone, e: Event, bc: Candle, s: seq<Candle>, t: seq<Candle>
        | s <= t && AnalyzeReclaim(z, e, bc, s, rules).Ok? && AnalyzeReclaim(z, e, bc, t, rules).Ok?
          && AnalyzeReclaim(z, e, bc, s, rules).value.outcome == Continuation
        ensures AnalyzeReclaim(z, e, bc, t, rules) == AnalyzeReclaim(z, e, bc, s, rules)
                || AnalyzeReclaim(z, e, bc, t, rules).value.outcome !in UNTESTED
      {
        ContinuationKept(z, e, bc, s, t, rules);
      }
    } else {
      ContinuedThenWithdrawn(rules);
    }
  }

  lemma ContinuationKept(z: Zone, e: Event, bc: Candle, s: seq<Candle>, t: seq<Candle>, rules: ReclaimRules)
    requires rules.maximumPullbackBars <= 3 || rules.maximumPullbackBars <= rules.continuationMinimumBars
    requires s <= t && AnalyzeReclaim(z, e, bc, s, rules).Ok? && AnalyzeReclaim(z, e, bc, t, rules).Ok?
    requires AnalyzeReclaim(z, e, bc, s, rules).value.outcome == Continuation
    ensures AnalyzeReclaim(z, e, bc, t, rules) == AnalyzeReclaim(z, e, bc, s, rules)
            || AnalyzeReclaim(z, e, bc, t, rules).value.outcome !in UNTESTED
  {
    hide Classify, Filter, Untested, ContinuationResult;
    var r := Relevant(s, e);
    FilterGrows(s, t, AfterClose(e.observedAt));
    ClassificationGrows(z, e, bc, r, Relevant(t, e), rules);
    ContinuationNeedsBars(z, e, bc, r, rules);
  }

  lemma ContinuationNeedsBars(z: Zone, e: Event, bc: Candle, r: seq<Candle>, rules: ReclaimRules)
    requires Classify(z, e, bc, r, rules).outcome == Continuation
    ensures |r| >= 3 && |r| >= rules.continuationMinimumBars
  {
    hide ContinuationResult, Untested, Pullback, First, FirstRun, HighestHigh, BounceRatio, Tally, PenetrationBps;
    Families(z, e, bc, r, rules);
    if r != [] {
      UntestedOutcomes(z, e, bc, r, rules);
      ContinuationGrows(z, e, bc, r, r, rules);
    }
  }

  lemma ContinuedThenWithdrawn(rules: ReclaimRules)
    requires rules.maximumPullbackBars > 3 && rules.maximumPullbackBars > rules.continuationMinimumBars
    ensures var z, e, bc := TapeZone(), TapeBreak(), BreakBar();
            var n := if rules.continuationMinimumBars > 3 then rules.continuationMinimumBars else 3;
            var s, t := Tape(n), Tape(n) + [Spike(n)];
            var a, b := AnalyzeReclaim(z, e, bc, s, rules), AnalyzeReclaim(z, e, bc, t, rules);
            && s <= t && a.Ok? && b.Ok? && a.value.outcome == Continuation
            && b.value.outcome in UNTESTED && b.value.outcome != Continuation
  {
    hide AnalyzeReclaim, Untested, ContinuationResult, Quiet;
    var n := if rules.continuationMinimumBars > 3 then rules.continuationMinimumBars else 3;
    var s, t := Tape(n), Tape(n) + [Spike(n)];
    TapeIsQuiet(n);
    QuietIsUntested(s, rules);
    QuietIsUntested(t, rules);
    TapeContinuation(n, rules);
    SpikeWithdraws(n, rules);
    UntestedOutcomes(TapeZone(), TapeBreak(), BreakBar(), s, rules);
    UntestedOutcomes(TapeZone(), TapeBreak(), BreakBar(), t, rules);
  }
}
