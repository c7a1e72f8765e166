/** Every record on every return path satisfies the constructor, and the searches of the
    classifier mean what they say. */
module ReclaimRecords {
  import opened Basics
  import opened Candles
  import opened Reals
  import opened ReclaimEngine
  import opened ReclaimGrowth
  import opened ReclaimModels
  import opened Rounding
  import opened Streams
  import opened StructureEvents
  import opened SupportZones

  /** A chronological stream of one interval whose lows clear the floor. */
  ghost predicate Clean(s: seq<Candle>) {
    && Chronological(s)
    && (forall i :: 0 <= i < |s| ==> s[i].low >= FLOOR)
    && (forall i, j :: 0 <= i < |s| && 0 <= j < |s| ==> s[i].interval == s[j].interval)
  }

  lemma CleanPart(s: seq<Candle>, lo: nat, hi: nat)
    requires Clean(s) && lo <= hi <= |s|
    ensures Clean(s[lo..hi])
  {
  }

  lemma CleanTimes(s: seq<Candle>, i: nat, j: nat)
    requires Clean(s) && i <= j < |s|
    ensures s[i].openTime <= s[j].openTime < s[j].CloseTime() && s[i].CloseTime() <= s[j].CloseTime()
    ensures i < j ==> s[i].openTime < s[j].openTime
  {
  }

  // ----- Signs and ranges of the measurements

  lemma PenetrationSign(price: real, low: real)
    requires low > 0.0
    ensures PenetrationBps(price, low) >= 0.0
  {
    if price > low {
      QuotientCompare(price - low, low, 0.0);
    }
  }

  lemma RatioSign(s: seq<Candle>, volume: real)
    ensures var r := BounceRatio(s, volume); r.Some? ==> r.value >= 0.0
  {
    if s != [] && volume > 0.0 {
      QuotientCompare(TotalVolume(s), |s| as real, 0.0);
      QuotientCompare(TotalVolume(s) / |s| as real, volume, 0.0);
    }
  }

  lemma BodySign(c: Candle)
    ensures 0.0 <= RawBody(c) <= 1.0
  {
    if c.high != c.low {
      var body := if c.close >= c.open then c.close - c.open else c.open - c.close;
      QuotientCompare(body, c.high - c.low, 0.0);
      QuotientCompare(body, c.high - c.low, 1.0);
    }
  }

  lemma HighestClearsFloor(s: seq<Candle>)
    requires s != [] && s[0].low >= FLOOR
    ensures HighestHigh(s) >= FLOOR
  {
  }

  lemma ClosesWithinBars(s: seq<Candle>, z: Zone)
    ensures Tally(s, CloseOver(z)) <= Tally(s, HighOver(z))
  {
  }

  function VolumeScale(rules: ReclaimRules): real {
    if rules.maximumVolumeRatio > 0.0001 then rules.maximumVolumeRatio else 0.0001
  }

  lemma QuietVolumeRange(x: real, rules: ReclaimRules)
    requires 0.0 <= x <= rules.maximumVolumeRatio
    ensures 15.0 <= VolumeComponent(Some(x), rules) <= 25.0
  {
    hide Quantize;
    var scale := VolumeScale(rules);
    QuotientCompare(x, scale, 0.0);
    QuotientCompare(x, scale, 1.0);
    QuantizeBounds(15.0 + 10.0 * (1.0 - x / scale), 100.0, 1500, 2500);
  }

  lemma VolumeComponentRange(ratio: Option<real>, rules: ReclaimRules)
    requires ratio.Some? ==> ratio.value >= 0.0
    ensures 0.0 <= VolumeComponent(ratio, rules) <= 25.0
  {
    if ratio.Some? && ratio.value <= rules.maximumVolumeRatio {
      QuietVolumeRange(ratio.value, rules);
    }
  }

  lemma QualityRange(penetration: real, body: real, ratio: Option<real>, duration: nat, rules: ReclaimRules, triggered: bool)
    requires penetration >= 0.0 && 0.0 <= body <= 1.0 && (ratio.Some? ==> ratio.value >= 0.0)
    ensures 0.0 <= Quality(penetration, body, ratio, duration, rules, triggered) <= 100.0
  {
    hide Quantize, VolumeComponent;
    var limit := if rules.maximumFailedBps > 1.0 then rules.maximumFailedBps else 1.0;
    QuotientCompare(penetration, limit, 0.0);
    var depth := if penetration / limit < 1.0 then penetration / limit else 1.0;
    var age := duration as real / rules.maximumPullbackBars as real;
    QuantizeNonNegative(25.0 * (1.0 - depth), 100.0);
    QuantizeNonNegative(30.0 * (if body < 1.0 then body else 1.0), 100.0);
    QuantizeNonNegative(20.0 * (1.0 - (if age < 1.0 then age else 1.0)), 100.0);
    VolumeComponentRange(ratio, rules);
    var total := QualityTotal(penetration, body, ratio, duration, rules, triggered);
    QuantizeBounds(if total < 100.0 then total else 100.0, 100.0, 0, 10000);
  }

  /** The five components: what each is worth at its best and at its worst. */
  lemma QualityWeights(rules: ReclaimRules, worn: nat)
    requires worn >= rules.maximumPullbackBars
    ensures var loud := Some(rules.maximumVolumeRatio + 1.0);
            var deep := if rules.maximumFailedBps > 1.0 then rules.maximumFailedBps else 1.0;
            && Quality(deep, 0.0, loud, worn, rules, false) == 0.0
            && Quality(0.0, 0.0, loud, worn, rules, false) == 25.0
            && Quality(deep, 1.0, loud, worn, rules, false) == 30.0
            && Quality(deep, 0.0, loud, 0, rules, false) == 20.0
            && Quality(deep, 0.0, Some(0.0), worn, rules, false) == 25.0
            && Quality(deep, 0.0, Some(rules.maximumVolumeRatio), worn, rules, false)
               == Quantize(25.0 - 10.0 * (rules.maximumVolumeRatio / VolumeScale(rules)), 100.0)
            && (rules.maximumVolumeRatio >= 0.0001 ==>
                  Quality(deep, 0.0, Some(rules.maximumVolumeRatio), worn, rules, false) == 15.0)
            && Quality(deep, 0.0, None, worn, rules, false) == 8.0
            && Quality(deep, 0.0, loud, worn, rules, true) == 20.0
            && Quality(0.0, 1.0, Some(0.0), 0, rules, true) == 100.0
  {
    hide Quantize;
    var deep := if rules.maximumFailedBps > 1.0 then rules.maximumFailedBps else 1.0;
    assert deep / deep == 1.0 && 0.0 / deep == 0.0;
    QuotientCompare(worn as real, rules.maximumPullbackBars as real, 1.0);
    assert 0.0 / rules.maximumPullbackBars as real == 0.0;
    var scale, limit := VolumeScale(rules), rules.maximumVolumeRatio;
    assert 0.0 / scale == 0.0 && scale / scale == 1.0;
    GridPoints();
    VolumeComponentRange(Some(limit), rules);
    assert VolumeComponent(Some(limit), rules) == Quantize(25.0 - 10.0 * (limit / scale), 100.0);
    QuantizeTwice(25.0 - 10.0 * (limit / scale), 100.0);
  }

  lemma GridPoints()
    ensures Quantize(0.0, 100.0) == 0.0 && Quantize(8.0, 100.0) == 8.0 && Quantize(15.0, 100.0) == 15.0
    ensures Quantize(20.0, 100.0) == 20.0 && Quantize(25.0, 100.0) == 25.0 && Quantize(30.0, 100.0) == 30.0
    ensures Quantize(100.0, 100.0) == 100.0
  {
  }

  /** `q` is at least as good a bounce volume as `r`: a ratio over the limit is worst, a missing one
      is better, and among those within the limit the smaller is better. */
  predicate AtLeastAsQuiet(q: Option<real>, r: Option<real>, limit: real) {
    match r
    case None => q.None? || q.value <= limit
    case Some(x) => x > limit || (q.Some? && q.value <= x)
  }

  /** A shallower, sharper, faster pullback on weaker volume, or a triggered one, never scores
      lower: the weak bounce improves quality, as do the other components. */
  lemma QualityMonotone(p: real, p': real, body: real, body': real, r: Option<real>, r': Option<real>, n: nat, n': nat,
                        rules: ReclaimRules, triggered: bool, triggered': bool)
    requires 0.0 <= p' <= p && body <= body' && n' <= n && (triggered ==> triggered')
    requires (r'.Some? ==> r'.value >= 0.0) && AtLeastAsQuiet(r', r, rules.maximumVolumeRatio)
    ensures Quality(p, body, r, n, rules, triggered) <= Quality(p', body', r', n', rules, triggered')
  {
    hide Quantize, VolumeComponent;
    var limit := if rules.maximumFailedBps > 1.0 then rules.maximumFailedBps else 1.0;
    QuotientMonotone(p', p, limit);
    QuotientMonotone(n' as real, n as real, rules.maximumPullbackBars as real);
    DepthMonotone(p, p', limit);
    BodyMonotone(body, body');
    AgeMonotone(n as real / rules.maximumPullbackBars as real, n' as real / rules.maximumPullbackBars as real);
    VolumeMonotone(r, r', rules);
    TotalMonotone(QualityTotal(p, body, r, n, rules, triggered), QualityTotal(p', body', r', n', rules, triggered'));
  }

  lemma DepthMonotone(p: real, p': real, limit: real)
    requires limit > 0.0 && p' / limit <= p / limit
    ensures var d, d' := if p / limit < 1.0 then p / limit else 1.0, if p' / limit < 1.0 then p' / limit else 1.0;
            Quantize(25.0 * (1.0 - d), 100.0) <= Quantize(25.0 * (1.0 - d'), 100.0)
  {
    var d, d' := if p / limit < 1.0 then p / limit else 1.0, if p' / limit < 1.0 then p' / limit else 1.0;
    QuantizeMonotone(25.0 * (1.0 - d), 25.0 * (1.0 - d'), 100.0);
  }

  lemma BodyMonotone(b: real, b': real)
    requires b <= b'
    ensures Quantize(30.0 * (if b < 1.0 then b else 1.0), 100.0) <= Quantize(30.0 * (if b' < 1.0 then b' else 1.0), 100.0)
  {
    QuantizeMonotone(30.0 * (if b < 1.0 then b else 1.0), 30.0 * (if b' < 1.0 then b' else 1.0), 100.0);
  }

  lemma AgeMonotone(a: real, a': real)
    requires a' <= a
    ensures Quantize(20.0 * (1.0 - (if a < 1.0 then a else 1.0)), 100.0)
         <= Quantize(20.0 * (1.0 - (if a' < 1.0 then a' else 1.0)), 100.0)
  {
    QuantizeMonotone(20.0 * (1.0 - (if a < 1.0 then a else 1.0)), 20.0 * (1.0 - (if a' < 1.0 then a' else 1.0)), 100.0);
  }

  lemma VolumeMonotone(r: Option<real>, r': Option<real>, rules: ReclaimRules)
    requires (r'.Some? ==> r'.value >= 0.0) && AtLeastAsQuiet(r', r, rules.maximumVolumeRatio)
    ensures VolumeComponent(r, rules) <= VolumeComponent(r', rules)
  {
    hide Quantize;
    VolumeComponentRange(r', rules);
    if r.Some? && r.value <= rules.maximumVolumeRatio {
      var scale := VolumeScale(rules);
      QuotientMonotone(r'.value, r.value, scale);
      QuantizeMonotone(15.0 + 10.0 * (1.0 - r.value / scale), 15.0 + 10.0 * (1.0 - r'.value / scale), 100.0);
    } else if r.None? && r'.Some? {
      QuietVolumeRange(r'.value, rules);
    }
  }

  lemma TotalMonotone(a: real, b: real)
    requires a <= b
    ensures Quantize(if a < 100.0 then a else 100.0, 100.0) <= Quantize(if b < 100.0 then b else 100.0, 100.0)
  {
    QuantizeMonotone(if a < 100.0 then a else 100.0, if b < 100.0 then b else 100.0, 100.0);
  }

  lemma ContinuationQualityRange(ratio: Option<real>, bars: nat, rules: ReclaimRules)
    requires bars >= 3
    ensures 55.0 <= ContinuationQuality(ratio, bars, rules) <= 72.0
  {
    var bonus := if ratio.Some? && ratio.value <= rules.maximumVolumeRatio then 10.0 else 0.0;
    var q := 65.0 + bonus - (if bars < 10 then bars as real else 10.0);
    QuantizeBounds(if q > 0.0 then q else 0.0, 100.0, 5500, 7200);
  }

  // ----- Each builder

  lemma StretchAccepted(z: Zone, e: Event, bc: Candle, interval: Interval, w: seq<Candle>, outcome: Outcome, setupType: SetupType, readiness: Readiness)
    requires w != [] && Clean(w)
    requires outcome == SuccessfulReclaim ==> readiness == Cancelled && setupType == NoSetup
    requires outcome != FailedPullback && (readiness == Qualified ==> setupType != NoSetup)
    requires readiness in {Cancelled, OutOfTime, Void} ==> setupType == NoSetup
    ensures Stretch(z, e, bc, interval, w, outcome, setupType, readiness).Valid()
    ensures Untouched(z, e, bc, interval, w, outcome, setupType, readiness).Valid()
  {
    hide Quantize, HighestHigh, PenetrationBps, BounceRatio, Tally;
    CleanTimes(w, 0, |w| - 1);
    HighestClearsFloor(w);
    PenetrationSign(HighestHigh(w), z.low);
    QuantizeNonNegative(PenetrationBps(HighestHigh(w), z.low), 100.0);
    QuantizeNonNegative(0.0, 100.0);
    ClosesWithinBars(w, z);
    RatioAccepted(w, bc.volume);
  }

  lemma RatioAccepted(w: seq<Candle>, volume: real)
    ensures var r := BounceRatio(w, volume); r.Some? ==> Quantize(r.value, 10000.0) >= 0.0
  {
    hide Quantize, BounceRatio;
    RatioSign(w, volume);
    var r := BounceRatio(w, volume);
    if r.Some? {
      QuantizeNonNegative(r.value, 10000.0);
    }
  }

  lemma RejectingAccepted(z: Zone, e: Event, bc: Candle, interval: Interval, w: seq<Candle>, rules: ReclaimRules, r: nat)
    requires r < |w| && Clean(w)
    ensures Rejecting(z, e, bc, interval, w, rules, r).Valid()
  {
    hide Quantize, HighestHigh, PenetrationBps, BounceRatio, Tally, Quality, RawBody, First;
    var considered := w[..r + 1];
    var penetration := PenetrationBps(HighestHigh(considered), z.low);
    var ratio := BounceRatio(considered, bc.volume);
    var k := First(w, ClosesUnder(w[r].low), r + 1);
    CleanTimes(w, 0, r);
    if k < |w| {
      CleanTimes(w, 0, k);
      CleanTimes(w, r, k);
    }
    HighestClearsFloor(considered);
    PenetrationSign(HighestHigh(considered), z.low);
    QuantizeNonNegative(penetration, 100.0);
    ClosesWithinBars(considered, z);
    RatioSign(considered, bc.volume);
    RatioAccepted(considered, bc.volume);
    BodySign(w[r]);
    QualityRange(penetration, RawBody(w[r]), ratio, r + 1, rules, k < |w|);
  }

  lemma FirstEqual(s: seq<Candle>, k: nat)
    requires k < |s| && Chronological(s)
    ensures First(s, Equals(s[k]), 0) == k
  {
  }

  lemma ContinuationAccepted(z: Zone, e: Event, bc: Candle, s: seq<Candle>, rules: ReclaimRules)
    requires s != [] && Clean(s) && bc.low >= FLOOR
    ensures var r := ContinuationResult(z, e, bc, s, rules);
            r.Some? ==> r.value.Valid() && 55.0 <= r.value.quality <= 72.0 && r.value.readiness == Qualified
                        && r.value.outcome == Continuation
  {
    hide Quantize, HighestHigh, BounceRatio, ContinuationQuality, First, PeakIndex;
    if ContinuationResult(z, e, bc, s, rules).Some? {
      var search := Take(s, rules.maximumPullbackBars);
      CleanPart(s, 0, |search|);
      assert search == s[0..|search|];
      var b := PeakIndex(search);
      var k := First(search, Triggers(bc, search[b]), b + 1);
      FirstEqual(search, k);
      var considered := search[..k + 1];
      CleanTimes(search, 0, k);
      CleanTimes(search, b, k);
      HighestClearsFloor(considered);
      RatioAccepted(considered, bc.volume);
      QuantizeNonNegative(0.0, 100.0);
      ContinuationQualityRange(BounceRatio(considered, bc.volume), |considered|, rules);
    }
  }

  lemma NoCandlesAccepted(z: Zone, e: Event)
    ensures NoCandles(z, e).Valid()
  {
  }

  /** All return paths at once. */
  lemma EveryRecordAccepted(z: Zone, e: Event, bc: Candle, s: seq<Candle>, rules: ReclaimRules)
    requires Clean(s) && bc.low >= FLOOR
    ensures var a := Classify(z, e, bc, s, rules);
            a.Valid() && (a.outcome == Continuation ==> 55.0 <= a.quality <= 72.0)
  {
    hide NoCandles, Stretch, Untouched, Rejecting, ContinuationResult, FirstRun, First, Clean;
    if s == [] {
      NoCandlesAccepted(z, e);
      PlainOutcome(z, e);
    } else {
      var interval := s[0].interval;
      var run, start := FirstRun(s, z, Required(rules, interval), 0), First(s, Reaches(z, rules), 0);
      if run < |s| {
        CleanPart(s, 0, run + 1);
        StretchAccepted(z, e, bc, interval, s[..run + 1], SuccessfulReclaim, NoSetup, Cancelled);
        StretchOutcome(z, e, bc, interval, s[..run + 1], SuccessfulReclaim, NoSetup, Cancelled);
      } else if start == |s| {
        ContinuationAccepted(z, e, bc, s, rules);
        StretchAccepted(z, e, bc, interval, s, Expired, NoSetup, OutOfTime);
        StretchAccepted(z, e, bc, interval, s, NoAttempt, BreakdownShort, Watching);
        StretchOutcome(z, e, bc, interval, s, Expired, NoSetup, OutOfTime);
        StretchOutcome(z, e, bc, interval, s, NoAttempt, BreakdownShort, Watching);
      } else {
        CleanPart(s, start, |s|);
        assert s[start..] == s[start..|s|];
        PullbackAccepted(z, e, bc, interval, s[start..], rules);
        PullbackOutcomes(z, e, bc, interval, s[start..], rules);
      }
    }
  }

  lemma PlainOutcome(z: Zone, e: Event)
    ensures NoCandles(z, e).outcome == NoAttempt
  {
  }

  lemma StretchOutcome(z: Zone, e: Event, bc: Candle, interval: Interval, w: seq<Candle>, outcome: Outcome, setupType: SetupType, readiness: Readiness)
    requires w != []
    ensures Stretch(z, e, bc, interval, w, outcome, setupType, readiness).outcome == outcome
    ensures Untouched(z, e, bc, interval, w, outcome, setupType, readiness).outcome == outcome
    ensures Stretch(z, e, bc, interval, w, outcome, setupType, readiness).readiness == readiness
    ensures Untouched(z, e, bc, interval, w, outcome, setupType, readiness).readiness == readiness
  {
  }

  lemma PullbackAccepted(z: Zone, e: Event, bc: Candle, interval: Interval, w: seq<Candle>, rules: ReclaimRules)
    requires w != [] && Clean(w)
    ensures Pullback(z, e, bc, interval, w, rules).Valid()
  {
    hide Stretch, Rejecting, First;
    var limited := Take(w, rules.maximumPullbackBars);
    CleanPart(w, 0, |limited|);
    assert limited == w[0..|limited|];
    StretchAccepted(z, e, bc, interval, limited, PullbackExceeded, NoSetup, Void);
    StretchAccepted(z, e, bc, interval, w, Attempting, BreakdownShort, Watching);
    var r := First(limited, Rejected(z, rules), 0);
    if r < |limited| {
      RejectingAccepted(z, e, bc, interval, w, rules, r);
    }
  }

  // ----- The engine never raises on matching inputs

  lemma StreamIsClean(s: seq<Candle>, source: Source, symbol: string, interval: Interval)
    requires Stream(s, source, symbol, interval) && forall c :: c in s ==> c.low >= FLOOR
    ensures Clean(s)
  {
  }

  lemma RelevantIsClean(candles: seq<Candle>, z: Zone, p: Candle -> bool)
    requires ConfirmationStream(candles, z) && forall i :: 0 <= i < |candles| ==> candles[i].low >= FLOOR
    ensures Clean(Filter(candles, p))
  {
    if candles == [] {
      StreamIsClean([], Bybit, "", H4);
    } else {
      hide Clean, Stream;
      FilterStream(candles, p, z.source, z.symbol, candles[0].interval);
      StreamIsClean(Filter(candles, p), z.source, z.symbol, candles[0].interval);
    }
  }

  /** All candles are the zone's market, and all 4H or all 15m. */
  predicate OneMarket(candles: seq<Candle>, z: Zone) {
    forall i :: 0 <= i < |candles| ==>
      && candles[i].source == z.source && candles[i].symbol == z.symbol
      && candles[i].interval in {H4, M15} && candles[i].interval == candles[0].interval
  }

  lemma StreamIsOneMarket(candles: seq<Candle>, z: Zone)
    ensures ConfirmationStream(candles, z) <==> OneMarket(candles, z) && Chronological(candles)
  {
    if ConfirmationStream(candles, z) && candles != [] {
      assert forall i :: 0 <= i < |candles| ==> candles[i].Trades(z.source, z.symbol, candles[0].interval);
    }
  }

  /** The engine raises exactly for the inputs it refuses: an event that is not the zone's confirmed
      break, a candle that is not the break's, or candles that are not one market in time order. */
  lemma EngineNeverRaises(z: Zone, e: Event, bc: Candle, candles: seq<Candle>, rules: ReclaimRules)
    requires bc.low >= FLOOR && forall i :: 0 <= i < |candles| ==> candles[i].low >= FLOOR
    ensures AnalyzeReclaim(z, e, bc, candles, rules).Ok? <==>
              && e.state == ConfirmedBreak && e.zoneId == z.id
              && e.source == z.source && e.symbol == z.symbol && e.interval == z.interval
              && bc.source == z.source && bc.symbol == z.symbol && bc.interval == z.interval
              && bc.openTime == e.candleOpenTime && bc.openTime + Duration(bc.interval) == e.observedAt
              && OneMarket(candles, z) && Chronological(candles)
    ensures AnalyzeReclaim(z, e, bc, candles, rules).Err? <==> InputFault(z, e, bc, candles).Some?
    ensures InputFault(z, e, bc, candles).None? ==>
              AnalyzeReclaim(z, e, bc, candles, rules) == Ok(Classify(z, e, bc, Relevant(candles, e), rules))
  {
    hide Classify, Filter, Clean, ConfirmationStream, OneMarket, Chronological;
    StreamIsOneMarket(candles, z);
    if InputFault(z, e, bc, candles).None? {
      RelevantIsClean(candles, z, AfterClose(e.observedAt));
      EveryRecordAccepted(z, e, bc, Relevant(candles, e), rules);
    }
  }

  // ----- Reclaim safety

  /** Somewhere in the stream the required number of consecutive closes is above the zone. */
  ghost predicate HasRun(s: seq<Candle>, z: Zone, rules: ReclaimRules) {
    s != [] && exists i :: RunEnds(s, z, Required(rules, s[0].interval), i)
  }

  lemma RecoveredIsRun(s: seq<Candle>, z: Zone, rules: ReclaimRules)
    ensures Regained(s, z, rules) <==> HasRun(s, z, rules)
  {
  }

  /** A reclaim is reported exactly when such a run exists, at the least index that ends one,
      and no record qualifies a short on a stream that contains one. */
  lemma ReclaimSafety(z: Zone, e: Event, bc: Candle, s: seq<Candle>, rules: ReclaimRules)
    ensures var a := Classify(z, e, bc, s, rules);
            && (a.outcome == SuccessfulReclaim <==> HasRun(s, z, rules))
            && (a.outcome == SuccessfulReclaim ==>
                  && 0 < a.durationBars <= |s| && a.observedAt == s[a.durationBars - 1].CloseTime()
                  && RunEnds(s, z, Required(rules, s[0].interval), a.durationBars - 1)
                  && forall i :: 0 <= i < a.durationBars - 1 ==> !RunEnds(s, z, Required(rules, s[0].interval), i))
            && (a.readiness == Qualified ==> !HasRun(s, z, rules))
  {
    hide Untested, Pullback, First, HighestHigh, BounceRatio, Tally, PenetrationBps, Quantize, HasRun, RunEnds, Required;
    Families(z, e, bc, s, rules);
    RecoveredIsRun(s, z, rules);
  }
}
