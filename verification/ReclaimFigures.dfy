/** What every record of the classifier measures, and over which candles. */
module ReclaimFigures {
  import opened Basics
  import opened Candles
  import opened EventMeaning
  import opened Reals
  import opened ReclaimEngine
  import opened ReclaimGrowth
  import opened ReclaimMeaning
  import opened ReclaimModels
  import opened ReclaimRecords
  import opened Rounding
  import opened Streams
  import opened StructureEvents
  import opened SupportZones

  // ----- Measurements over a stretch of candles

  ghost predicate HighestIs(s: seq<Candle>, lo: int, hi: int, price: real)
    requires 0 <= lo <= hi <= |s|
  {
    (exists j :: lo <= j < hi && s[j].high == price) && forall j :: lo <= j < hi ==> s[j].high <= price
  }

  function ClosesOver(s: seq<Candle>, price: real, lo: int, hi: int): nat
    requires 0 <= lo <= hi <= |s|
    decreases hi - lo
  {
    if lo == hi then 0 else ClosesOver(s, price, lo, hi - 1) + if s[hi - 1].close > price then 1 else 0
  }

  function HighsOver(s: seq<Candle>, price: real, lo: int, hi: int): nat
    requires 0 <= lo <= hi <= |s|
    decreases hi - lo
  {
    if lo == hi then 0 else HighsOver(s, price, lo, hi - 1) + if s[hi - 1].high > price then 1 else 0
  }

  /** The mean volume of the stretch over the volume of the break candle, when that traded. */
  function Bounce(s: seq<Candle>, lo: int, hi: int, volume: real): Option<real>
    requires 0 <= lo < hi <= |s|
  {
    if volume <= 0.0 then None else Some(VolumeBetween(s, lo, hi) / (hi - lo) as real / volume)
  }

  ghost predicate RoundedBounce(exact: Option<real>, ratio: Option<real>) {
    if exact.None? then ratio == None else ratio.Some? && Rounded(exact.value, 10000.0, ratio.value)
  }

  /** How deep a price reaches into the zone from below, in basis points of its low edge. */
  function Depth(z: Zone, price: real): real { if price > z.low then (price - z.low) / z.low * 10000.0 else 0.0 }

  lemma HighestMeaning(s: seq<Candle>, lo: nat, hi: nat)
    requires lo < hi <= |s|
    ensures HighestIs(s, lo, hi, HighestHigh(s[lo..hi]))
  {
    var w := s[lo..hi];
    HighestHighIsMaximum(w);
    var j :| 0 <= j < |w| && w[j].high == HighestHigh(w);
    assert s[lo + j].high == HighestHigh(w);
    assert forall i :: lo <= i < hi ==> s[i] == w[i - lo];
  }

  lemma {:induction false} CountsMeaning(z: Zone, s: seq<Candle>, lo: nat, hi: nat)
    requires lo <= hi <= |s|
    ensures Tally(s[lo..hi], CloseOver(z)) == ClosesOver(s, z.high, lo, hi)
    ensures Tally(s[lo..hi], HighOver(z)) == HighsOver(s, z.high, lo, hi)
    decreases hi - lo
  {
    if lo < hi {
      CountsMeaning(z, s, lo, hi - 1);
      assert s[lo..hi] == s[lo..hi - 1] + [s[hi - 1]];
      TallyAppend(s[lo..hi - 1], [s[hi - 1]], CloseOver(z));
      TallyAppend(s[lo..hi - 1], [s[hi - 1]], HighOver(z));
    }
  }

  lemma BounceMeaning(s: seq<Candle>, lo: nat, hi: nat, volume: real)
    requires lo < hi <= |s|
    ensures BounceRatio(s[lo..hi], volume) == Bounce(s, lo, hi, volume)
    ensures var r := BounceRatio(s[lo..hi], volume);
            RoundedBounce(Bounce(s, lo, hi, volume), if r.Some? then Some(Quantize(r.value, 10000.0)) else None)
  {
    hide Quantize, Rounded, TotalVolume, VolumeBetween;
    VolumeSums(s, lo, hi);
    var r := BounceRatio(s[lo..hi], volume);
    if r.Some? {
      QuantizeExact(r.value, 10000.0, Quantize(r.value, 10000.0));
    }
  }

  lemma DepthMeaning(z: Zone, price: real)
    ensures PenetrationBps(price, z.low) == Depth(z, price)
    ensures Rounded(Depth(z, price), 100.0, Quantize(PenetrationBps(price, z.low), 100.0))
  {
    hide Quantize, Rounded;
    QuantizeExact(Depth(z, price), 100.0, Quantize(Depth(z, price), 100.0));
  }

  // ----- The quality score

  /** The volume component: a quiet bounce earns 15 to 25, a missing ratio 8, a loud one nothing. */
  ghost predicate VolumeScores(ratio: Option<real>, rules: ReclaimRules, points: real) {
    match ratio
    case None => points == 8.0
    case Some(r) =>
      if r > rules.maximumVolumeRatio then points == 0.0
      else Rounded(25.0 - 10.0 * (r / (if rules.maximumVolumeRatio > 0.0001 then rules.maximumVolumeRatio else 0.0001)), 100.0, points)
  }

  function AtMostOne(x: real): real { if x < 1.0 then x else 1.0 }

  /** Shallowness up to 25, body up to 30, speed up to 20, volume, and 20 for a trigger; each rounded
      to cents, the sum capped at a hundred. */
  ghost predicate Scores(depth: real, body: real, ratio: Option<real>, bars: nat, triggered: bool, rules: ReclaimRules, quality: real) {
    exists shallow, sharp, quick, quiet :: Components(depth, body, ratio, bars, rules, shallow, sharp, quick, quiet)
      && TotalScores(shallow + sharp + quick + quiet + if triggered then 20.0 else 0.0, quality)
  }

  ghost predicate Components(depth: real, body: real, ratio: Option<real>, bars: nat, rules: ReclaimRules,
                             shallow: real, sharp: real, quick: real, quiet: real) {
    var limit := if rules.maximumFailedBps > 1.0 then rules.maximumFailedBps else 1.0;
    && Rounded(25.0 * (1.0 - AtMostOne(depth / limit)), 100.0, shallow)
    && Rounded(30.0 * AtMostOne(body), 100.0, sharp)
    && Rounded(20.0 * (1.0 - AtMostOne(bars as real / rules.maximumPullbackBars as real)), 100.0, quick)
    && VolumeScores(ratio, rules, quiet)
  }

  ghost predicate TotalScores(total: real, quality: real) { Rounded(if total > 100.0 then 100.0 else total, 100.0, quality) }

  lemma VolumeScoring(ratio: Option<real>, rules: ReclaimRules)
    ensures VolumeScores(ratio, rules, VolumeComponent(ratio, rules))
  {
    hide Quantize, Rounded;
    if ratio.Some? && ratio.value <= rules.maximumVolumeRatio {
      var x := ratio.value / VolumeScale(rules);
      assert 15.0 + 10.0 * (1.0 - x) == 25.0 - 10.0 * x;
      QuantizeExact(25.0 - 10.0 * x, 100.0, VolumeComponent(ratio, rules));
    }
  }

  lemma QualityScores(depth: real, body: real, ratio: Option<real>, bars: nat, rules: ReclaimRules, triggered: bool)
    ensures Scores(depth, body, ratio, bars, triggered, rules, Quality(depth, body, ratio, bars, rules, triggered))
  {
    hide Quantize, Rounded, VolumeComponent, VolumeScores;
    var limit := if rules.maximumFailedBps > 1.0 then rules.maximumFailedBps else 1.0;
    var d, b, a := AtMostOne(depth / limit), AtMostOne(body), AtMostOne(bars as real / rules.maximumPullbackBars as real);
    var shallow, sharp, quick := Quantize(25.0 * (1.0 - d), 100.0), Quantize(30.0 * b, 100.0), Quantize(20.0 * (1.0 - a), 100.0);
    var quiet := VolumeComponent(ratio, rules);
    QuantizeExact(25.0 * (1.0 - d), 100.0, shallow);
    QuantizeExact(30.0 * b, 100.0, sharp);
    QuantizeExact(20.0 * (1.0 - a), 100.0, quick);
    VolumeScoring(ratio, rules);
    assert Components(depth, body, ratio, bars, rules, shallow, sharp, quick, quiet);
    var total := QualityTotal(depth, body, ratio, bars, rules, triggered);
    assert total == shallow + sharp + quick + quiet + if triggered then 20.0 else 0.0;
    var capped := if total > 100.0 then 100.0 else total;
    QuantizeExact(capped, 100.0, Quality(depth, body, ratio, bars, rules, triggered));
    assert TotalScores(total, Quality(depth, body, ratio, bars, rules, triggered));
  }

  // ----- The records

  /** Whose record it is. */
  ghost predicate Identified(a: RawAttempt, z: Zone, e: Event, interval: Interval) {
    && a.id == AttemptId(e.id, z.id, interval, a.startedAt) && a.breakEventId == e.id && a.zoneId == z.id
    && a.source == z.source && a.symbol == z.symbol && a.structureInterval == z.interval
    && a.zoneLow == z.low && a.zoneHigh == z.high
  }

  /** The record is taken over the candles from `lo` to before `hi`. */
  ghost predicate TakenOver(a: RawAttempt, bc: Candle, s: seq<Candle>, lo: int, hi: int) {
    && 0 <= lo < hi <= |s| && a.startedAt == s[lo].openTime && a.durationBars == hi - lo
    && HighestIs(s, lo, hi, a.maximumPrice) && RoundedBounce(Bounce(s, lo, hi, bc.volume), a.bounceVolumeRatio)
  }

  /** It counts closes and highs above the zone and measures how deep the highest high reached. */
  ghost predicate Entered(a: RawAttempt, z: Zone, s: seq<Candle>, lo: int, hi: int) {
    && 0 <= lo < hi <= |s| && Rounded(Depth(z, a.maximumPrice), 100.0, a.maximumPenetrationBps)
    && a.closesAbove == ClosesOver(s, z.high, lo, hi) && a.barsAbove == HighsOver(s, z.high, lo, hi)
  }

  predicate NotEntered(a: RawAttempt) { a.maximumPenetrationBps == 0.0 && a.closesAbove == 0 && a.barsAbove == 0 }

  predicate NoEvidence(a: RawAttempt) {
    a.rejectionOpen == None && a.rejectionLow == None && a.triggerOpen == None && a.quality == 0.0
  }

  /** A record over a whole stretch, observed at its last close. */
  ghost predicate Surveyed(a: RawAttempt, z: Zone, bc: Candle, s: seq<Candle>, lo: int, hi: int) {
    && TakenOver(a, bc, s, lo, hi) && NoEvidence(a) && a.observedAt == s[hi - 1].CloseTime()
  }

  /** A rejected pullback from `lo` to `r`, with its score. */
  ghost predicate RejectedOver(a: RawAttempt, z: Zone, bc: Candle, s: seq<Candle>, rules: ReclaimRules, lo: int, r: int, triggered: bool) {
    && TakenOver(a, bc, s, lo, r + 1) && Entered(a, z, s, lo, r + 1)
    && a.rejectionOpen == Some(s[r].openTime) && a.rejectionLow == Some(s[r].low) && s[r].high > s[r].low
    && Scores(Depth(z, a.maximumPrice), (s[r].open - s[r].close) / (s[r].high - s[r].low), Bounce(s, lo, r + 1, bc.volume),
              r + 1 - lo, triggered, rules, a.quality)
  }

  ghost predicate PullbackRecord(a: RawAttempt, z: Zone, bc: Candle, s: seq<Candle>, rules: ReclaimRules, lo: int) {
    match a.outcome
    case Attempting =>
      Surveyed(a, z, bc, s, lo, |s|) && Entered(a, z, s, lo, |s|) && a.setupType == BreakdownShort && a.readiness == Watching
    case PullbackExceeded =>
      && Surveyed(a, z, bc, s, lo, lo + rules.maximumPullbackBars) && Entered(a, z, s, lo, lo + rules.maximumPullbackBars)
      && a.setupType == NoSetup && a.readiness == Void
    case FailedReclaim =>
      exists r :: TurnedBackAt(z, s, rules, lo, r) && RejectedOver(a, z, bc, s, rules, lo, r, false)
        && a.triggerOpen == None && a.observedAt == s[r].CloseTime()
        && a.setupType == BreakdownShort && a.readiness == Watching
    case FailedPullback =>
      exists r, k :: TurnedBackAt(z, s, rules, lo, r) && UndercutAt(s, r, k) && RejectedOver(a, z, bc, s, rules, lo, r, true)
        && a.triggerOpen == Some(s[k].openTime) && a.observedAt == s[k].CloseTime()
        && a.setupType == FailedPullbackShort && a.readiness == Qualified
    case _ => false
  }

  /** A continuation record: the bounce, the break's low and the trigger, and a score of 65 points,
      ten more for a quiet bounce, less one for every bar up to ten. */
  ghost predicate ContinuationRecord(a: RawAttempt, z: Zone, e: Event, bc: Candle, s: seq<Candle>, rules: ReclaimRules, b: int, k: int) {
    && ContinuesAt(z, e, bc, s, rules, b, k) && TakenOver(a, bc, s, 0, k + 1) && NotEntered(a)
    && a.rejectionOpen == Some(s[b].openTime) && a.rejectionLow == Some(bc.low) && a.triggerOpen == Some(s[k].openTime)
    && a.observedAt == s[k].CloseTime() && a.setupType == ContinuationShort && a.readiness == Qualified
    && var ratio := Bounce(s, 0, k + 1, bc.volume);
       a.quality == (if ratio.Some? && ratio.value <= rules.maximumVolumeRatio then 75.0 else 65.0) - (if k < 9 then k + 1 else 10) as real
  }

  /** What the record of each outcome holds, on a stream that is not empty. */
  ghost predicate RecordMeans(a: RawAttempt, z: Zone, e: Event, bc: Candle, s: seq<Candle>, rules: ReclaimRules) {
    && s != [] && Identified(a, z, e, s[0].interval)
    && match a.outcome
       case SuccessfulReclaim =>
         exists i :: RegainedAt(z, s, rules, i) && Surveyed(a, z, bc, s, 0, i + 1) && Entered(a, z, s, 0, i + 1)
           && a.setupType == NoSetup && a.readiness == Cancelled
       case Continuation => exists b, k :: ContinuationRecord(a, z, e, bc, s, rules, b, k)
       case Expired => Surveyed(a, z, bc, s, 0, |s|) && NotEntered(a) && a.setupType == NoSetup && a.readiness == OutOfTime
       case NoAttempt => Surveyed(a, z, bc, s, 0, |s|) && NotEntered(a) && a.setupType == BreakdownShort && a.readiness == Watching
       case _ => exists lo :: RetestedAt(z, s, rules, lo) && PullbackRecord(a, z, bc, s, rules, lo)
  }

  lemma StretchFigures(z: Zone, e: Event, bc: Candle, interval: Interval, s: seq<Candle>, lo: nat, hi: nat,
                       outcome: Outcome, setupType: SetupType, readiness: Readiness)
    requires lo < hi <= |s|
    ensures var a := Stretch(z, e, bc, interval, s[lo..hi], outcome, setupType, readiness);
            && Surveyed(a, z, bc, s, lo, hi) && Entered(a, z, s, lo, hi) && Identified(a, z, e, interval)
            && a.outcome == outcome && a.setupType == setupType && a.readiness == readiness
    ensures var a := Untouched(z, e, bc, interval, s[lo..hi], outcome, setupType, readiness);
            && Surveyed(a, z, bc, s, lo, hi) && NotEntered(a) && Identified(a, z, e, interval)
            && a.outcome == outcome && a.setupType == setupType && a.readiness == readiness
  {
    hide HighestHigh, HighestIs, Tally, ClosesOver, HighsOver, BounceRatio, Bounce, RoundedBounce, PenetrationBps, Depth, Quantize, Rounded;
    HighestMeaning(s, lo, hi);
    CountsMeaning(z, s, lo, hi);
    BounceMeaning(s, lo, hi, bc.volume);
    DepthMeaning(z, HighestHigh(s[lo..hi]));
    ZeroRounds();
  }

  lemma ZeroRounds()
    ensures Quantize(0.0, 100.0) == 0.0
  {
  }

  lemma BodyOfRejection(z: Zone, rules: ReclaimRules, c: Candle)
    requires TurnsBack(z, rules, c)
    ensures c.high > c.low && RawBody(c) == (c.open - c.close) / (c.high - c.low)
  {
  }

  lemma RejectingMeasured(z: Zone, e: Event, bc: Candle, interval: Interval, s: seq<Candle>, rules: ReclaimRules, lo: nat, r: nat)
    requires lo <= r < |s| && TurnsBack(z, rules, s[r])
    ensures var a := Rejecting(z, e, bc, interval, s[lo..], rules, r - lo);
            Identified(a, z, e, interval) && RejectedOver(a, z, bc, s, rules, lo, r, a.outcome == FailedPullback)
  {
    hide First, HighestHigh, HighestIs, Tally, ClosesOver, HighsOver, BounceRatio, Bounce, RoundedBounce, PenetrationBps, Depth,
         Quantize, Rounded, Quality, Scores, RawBody, TurnsBack;
    var w, considered := s[lo..], s[lo..r + 1];
    assert w[..r - lo + 1] == considered && w[r - lo] == s[r];
    HighestMeaning(s, lo, r + 1);
    CountsMeaning(z, s, lo, r + 1);
    BounceMeaning(s, lo, r + 1, bc.volume);
    DepthMeaning(z, HighestHigh(considered));
    BodyOfRejection(z, rules, s[r]);
    var k := First(w, ClosesUnder(w[r - lo].low), r - lo + 1);
    QualityScores(Depth(z, HighestHigh(considered)), RawBody(s[r]), Bounce(s, lo, r + 1, bc.volume), r - lo + 1, rules, k < |w|);
  }

  lemma RejectingEnds(z: Zone, e: Event, bc: Candle, interval: Interval, s: seq<Candle>, rules: ReclaimRules, lo: nat, r: nat)
    requires lo <= r < |s|
    ensures var a := Rejecting(z, e, bc, interval, s[lo..], rules, r - lo);
            if a.outcome == FailedPullback then
              && (exists k :: UndercutAt(s, r, k) && a.triggerOpen == Some(s[k].openTime) && a.observedAt == s[k].CloseTime())
              && a.setupType == FailedPullbackShort && a.readiness == Qualified
            else
              && a.outcome == FailedReclaim && a.triggerOpen == None && a.observedAt == s[r].CloseTime()
              && a.setupType == BreakdownShort && a.readiness == Watching
  {
    hide First, HighestHigh, Tally, BounceRatio, PenetrationBps, Quantize, Quality, RawBody, UndercutAt, NotUndercut;
    var w := s[lo..];
    UndercutMeaning(s, lo, r - lo);
    var k := First(w, ClosesUnder(w[r - lo].low), r - lo + 1);
    if k < |w| {
      assert UndercutAt(s, r, lo + k) && w[k] == s[lo + k];
    }
  }

  lemma ContinuationScore(ratio: Option<real>, bars: nat, rules: ReclaimRules)
    ensures ContinuationQuality(ratio, bars, rules) ==
            (if ratio.Some? && ratio.value <= rules.maximumVolumeRatio then 75.0 else 65.0) - (if bars < 10 then bars else 10) as real
  {
    var bonus := if ratio.Some? && ratio.value <= rules.maximumVolumeRatio then 75 else 65;
    var points := bonus - if bars < 10 then bars else 10;
    QuantizeGrid(points as real, 100.0, points * 100);
  }

  /** The continuation record, with its bounce and trigger as indices of the stream. */
  lemma ContinuationIs(z: Zone, e: Event, bc: Candle, s: seq<Candle>, rules: ReclaimRules) returns (b: nat, k: nat)
    requires s != [] && Chronological(s) && ContinuationResult(z, e, bc, s, rules).Some?
    ensures ContinuesAt(z, e, bc, s, rules, b, k)
    ensures var considered := s[0..k + 1];
            ContinuationResult(z, e, bc, s, rules).value ==
            Record(z, e, s[0].interval, s[0].openTime, s[k].CloseTime(), Continuation, ContinuationShort, Qualified,
                   HighestHigh(considered), 0.0, k + 1, 0, 0, BounceRatio(considered, bc.volume), Some(s[b].openTime),
                   Some(bc.low), Some(s[k].openTime), ContinuationQuality(BounceRatio(considered, bc.volume), k + 1, rules))
  {
    hide First, PeakIndex, HighestHigh, BounceRatio, ContinuationQuality, Record, ContinuesAt, Triggers;
    var search := Take(s, rules.maximumPullbackBars);
    b := PeakIndex(search);
    k := First(search, Triggers(bc, search[b]), b + 1);
    ContinuationFound(z, e, bc, s, rules);
    FirstEqual(search, k);
    assert search[..k + 1] == s[0..k + 1];
  }

  lemma ContinuationFigures(z: Zone, e: Event, bc: Candle, s: seq<Candle>, rules: ReclaimRules)
    requires s != [] && Chronological(s) && ContinuationResult(z, e, bc, s, rules).Some?
    ensures var a := ContinuationResult(z, e, bc, s, rules).value;
            a.outcome == Continuation && Identified(a, z, e, s[0].interval)
            && exists b, k :: ContinuationRecord(a, z, e, bc, s, rules, b, k)
  {
    hide ContinuationResult, HighestHigh, HighestIs, BounceRatio, Bounce, RoundedBounce, Quantize, ContinuationQuality, ContinuesAt;
    var b, k := ContinuationIs(z, e, bc, s, rules);
    assert k < |s| by { ContinuesWithin(z, e, bc, s, rules, b, k); }
    HighestMeaning(s, 0, k + 1);
    BounceMeaning(s, 0, k + 1, bc.volume);
    ContinuationScore(BounceRatio(s[0..k + 1], bc.volume), k + 1, rules);
    ZeroRounds();
    assert ContinuationRecord(ContinuationResult(z, e, bc, s, rules).value, z, e, bc, s, rules, b, k);
  }

  lemma ContinuesWithin(z: Zone, e: Event, bc: Candle, s: seq<Candle>, rules: ReclaimRules, b: int, k: int)
    requires ContinuesAt(z, e, bc, s, rules, b, k)
    ensures 0 < b < k < |s|
  {
  }

  lemma UntestedFigures(z: Zone, e: Event, bc: Candle, s: seq<Candle>, rules: ReclaimRules)
    requires s != [] && Chronological(s)
    ensures RecordMeans(Untested(z, e, bc, s, rules), z, e, bc, s, rules)
  {
    hide ContinuationResult, ContinuationRecord, Untouched, Surveyed, NotEntered, Identified, RegainedAt, RetestedAt, PullbackRecord;
    assert s[0..|s|] == s;
    if ContinuationResult(z, e, bc, s, rules).Some? {
      ContinuationFigures(z, e, bc, s, rules);
    } else {
      StretchFigures(z, e, bc, s[0].interval, s, 0, |s|, Expired, NoSetup, OutOfTime);
      StretchFigures(z, e, bc, s[0].interval, s, 0, |s|, NoAttempt, BreakdownShort, Watching);
    }
  }

  lemma RejectedIsRecord(a: RawAttempt, z: Zone, bc: Candle, s: seq<Candle>, rules: ReclaimRules, lo: int, r: int)
    requires TurnedBackAt(z, s, rules, lo, r) && RejectedOver(a, z, bc, s, rules, lo, r, a.outcome == FailedPullback)
    requires if a.outcome == FailedPullback then
               && (exists k :: UndercutAt(s, r, k) && a.triggerOpen == Some(s[k].openTime) && a.observedAt == s[k].CloseTime())
               && a.setupType == FailedPullbackShort && a.readiness == Qualified
             else
               && a.outcome == FailedReclaim && a.triggerOpen == None && a.observedAt == s[r].CloseTime()
               && a.setupType == BreakdownShort && a.readiness == Watching
    ensures PullbackRecord(a, z, bc, s, rules, lo)
  {
    hide TurnedBackAt, RejectedOver, UndercutAt;
  }

  lemma PullbackFigures(z: Zone, e: Event, bc: Candle, interval: Interval, s: seq<Candle>, rules: ReclaimRules, lo: nat)
    requires lo < |s|
    ensures var a := Pullback(z, e, bc, interval, s[lo..], rules);
            Identified(a, z, e, interval) && PullbackRecord(a, z, bc, s, rules, lo)
  {
    hide First, Rejecting, Stretch, Identified, TurnedBackAt, RejectedOver, PullbackRecord, Surveyed, Entered, UndercutAt;
    var w := s[lo..];
    var limited := Take(w, rules.maximumPullbackBars);
    var r := First(limited, Rejected(z, rules), 0);
    TurnedBackMeaning(z, s, rules, lo);
    if r == |limited| {
      SurveyFigures(z, e, bc, interval, s, rules, lo);
    } else {
      TurnedIsTurn(z, s, rules, lo, lo + r);
      RejectingMeasured(z, e, bc, interval, s, rules, lo, lo + r);
      RejectingEnds(z, e, bc, interval, s, rules, lo, lo + r);
      RejectedIsRecord(Rejecting(z, e, bc, interval, w, rules, r), z, bc, s, rules, lo, lo + r);
    }
  }

  lemma SurveyFigures(z: Zone, e: Event, bc: Candle, interval: Interval, s: seq<Candle>, rules: ReclaimRules, lo: nat)
    requires lo < |s|
    ensures var w := s[lo..];
            var limited := Take(w, rules.maximumPullbackBars);
            var a := if |w| > rules.maximumPullbackBars
                     then Stretch(z, e, bc, interval, limited, PullbackExceeded, NoSetup, Void)
                     else Stretch(z, e, bc, interval, w, Attempting, BreakdownShort, Watching);
            Identified(a, z, e, interval) && PullbackRecord(a, z, bc, s, rules, lo)
  {
    hide Stretch, Identified, Surveyed, Entered;
    var w := s[lo..];
    var limited := Take(w, rules.maximumPullbackBars);
    assert limited == s[lo..lo + |limited|] && w == s[lo..|s|];
    StretchFigures(z, e, bc, interval, s, lo, lo + |limited|, PullbackExceeded, NoSetup, Void);
    StretchFigures(z, e, bc, interval, s, lo, |s|, Attempting, BreakdownShort, Watching);
  }

  lemma TurnedIsTurn(z: Zone, s: seq<Candle>, rules: ReclaimRules, lo: int, r: int)
    requires TurnedBackAt(z, s, rules, lo, r)
    ensures 0 <= lo <= r < |s| && TurnsBack(z, rules, s[r])
  {
  }

  /** Every record of the classifier, in full. */
  lemma RecordExactly(z: Zone, e: Event, bc: Candle, s: seq<Candle>, rules: ReclaimRules)
    requires s != [] && Chronological(s)
    ensures RecordMeans(Classify(z, e, bc, s, rules), z, e, bc, s, rules)
  {
    hide FirstRun, First, Stretch, Untested, Pullback, RegainedAt, RetestedAt, Surveyed, Entered, NotEntered, Identified, PullbackRecord,
         ContinuationRecord, Required;
    RegainedMeaning(z, s, rules);
    RetestedMeaning(z, s, rules);
    var run, lo := FirstRun(s, z, Required(rules, s[0].interval), 0), First(s, Reaches(z, rules), 0);
    if run < |s| {
      assert s[..run + 1] == s[0..run + 1];
      StretchFigures(z, e, bc, s[0].interval, s, 0, run + 1, SuccessfulReclaim, NoSetup, Cancelled);
    } else if lo == |s| {
      UntestedFigures(z, e, bc, s, rules);
    } else {
      PullbackFigures(z, e, bc, s[0].interval, s, rules, lo);
      PullbackOutcomes(z, e, bc, s[0].interval, s[lo..], rules);
    }
  }

  /** Without a later candle there is nothing to measure: the record repeats the break. */
  lemma EmptyRecord(z: Zone, e: Event, bc: Candle, rules: ReclaimRules)
    ensures var a := Classify(z, e, bc, [], rules);
            && a.outcome == NoAttempt && a.setupType == BreakdownShort && a.readiness == Watching
            && Identified(a, z, e, H4) && a.startedAt == e.observedAt && a.observedAt == e.observedAt
            && a.maximumPrice == e.closePrice && a.durationBars == 0 && NotEntered(a) && NoEvidence(a) && a.bounceVolumeRatio == None
  {
    hide Quantize;
    ZeroRounds();
  }

  // ----- The engine

  /** Candle `m` is the first that closes after the break was observed. */
  ghost predicate FollowsFrom(candles: seq<Candle>, e: Event, m: int) {
    && 0 <= m <= |candles|
    && (forall i :: 0 <= i < m ==> candles[i].CloseTime() <= e.observedAt)
    && (m < |candles| ==> candles[m].CloseTime() > e.observedAt)
  }

  /** The engine on a confirmation stream: it classifies exactly the candles from `m` on. */
  lemma EngineExactly(z: Zone, e: Event, bc: Candle, candles: seq<Candle>, rules: ReclaimRules, m: nat)
    requires FollowsFrom(candles, e, m) && AnalyzeReclaim(z, e, bc, candles, rules).Ok?
    ensures var a, s := AnalyzeReclaim(z, e, bc, candles, rules).value, candles[m..];
            && OutcomeMeans(a.outcome, z, e, bc, s, rules)
            && (s != [] ==> RecordMeans(a, z, e, bc, s, rules))
            && a == Classify(z, e, bc, s, rules)
  {
    hide Classify, OutcomeMeans, RecordMeans, Filter;
    var s := candles[m..];
    assert forall i :: 0 <= i < |candles| ==> candles[i].interval == candles[0].interval by { OneInterval(candles, z); }
    FilterSuffix(candles, AfterClose(e.observedAt), m);
    OutcomeFits(z, e, bc, s, rules);
    if s != [] {
      assert Chronological(s);
      RecordExactly(z, e, bc, s, rules);
    }
  }

  lemma OneInterval(candles: seq<Candle>, z: Zone)
    requires ConfirmationStream(candles, z)
    ensures forall i :: 0 <= i < |candles| ==> candles[i].interval == candles[0].interval
  {
    forall i | 0 <= i < |candles| ensures candles[i].interval == candles[0].interval {
      assert candles[i].Trades(z.source, z.symbol, candles[0].interval);
    }
  }
}
