/** The classifier read in prices and candle indices: when each outcome is reported. */
module ReclaimMeaning {
  import opened Basics
  import opened Candles
  import opened EventMeaning
  import opened Reals
  import opened ReclaimEngine
  import opened ReclaimGrowth
  import opened ReclaimModels
  import opened ReclaimRecords
  import opened Rounding
  import opened Streams
  import opened StructureEvents
  import opened SupportZones

  // ----- What happens at a candle

  /** The high comes up to the zone's low edge, plus the minimum attempt. */
  predicate Retests(z: Zone, rules: ReclaimRules, c: Candle) {
    c.high * 10000.0 >= z.low * (10000.0 + rules.minimumAttemptBps)
  }

  /** The high reaches the zone, not too deep, and the close falls back under it, far enough and on a
      large enough body. */
  predicate TurnsBack(z: Zone, rules: ReclaimRules, c: Candle) {
    && c.close < z.low <= c.high && c.close < c.open
    && c.open - c.close >= rules.minimumBodyFraction * (c.high - c.low)
    && (z.low - c.close) * 10000.0 >= rules.minimumDistanceBps * z.low
    && (c.high - z.low) * 10000.0 <= rules.maximumFailedBps * z.low
  }

  function ClosesNeeded(rules: ReclaimRules, interval: Interval): int {
    match interval
    case H4 => rules.successfulH4Closes
    case _ => rules.successfulM15Closes
  }

  /** The last `n` closes up to candle `i` are all above the zone. */
  predicate HoldsAbove(z: Zone, s: seq<Candle>, n: int, i: int) {
    0 <= i < |s| && n <= i + 1 && forall j :: 0 <= j < |s| && i - n < j <= i ==> s[j].close > z.high
  }

  // ----- The steps of a stream

  ghost predicate RegainedAt(z: Zone, s: seq<Candle>, rules: ReclaimRules, i: int) {
    && s != [] && HoldsAbove(z, s, ClosesNeeded(rules, s[0].interval), i)
    && forall k :: 0 <= k < i ==> !HoldsAbove(z, s, ClosesNeeded(rules, s[0].interval), k)
  }

  ghost predicate NeverRegained(z: Zone, s: seq<Candle>, rules: ReclaimRules) {
    s == [] || forall k :: 0 <= k < |s| ==> !HoldsAbove(z, s, ClosesNeeded(rules, s[0].interval), k)
  }

  ghost predicate RetestedAt(z: Zone, s: seq<Candle>, rules: ReclaimRules, a: int) {
    0 <= a < |s| && Retests(z, rules, s[a]) && forall j :: 0 <= j < a ==> !Retests(z, rules, s[j])
  }

  ghost predicate NeverRetested(z: Zone, s: seq<Candle>, rules: ReclaimRules) {
    forall j :: 0 <= j < |s| ==> !Retests(z, rules, s[j])
  }

  /** The first rejecting candle of the pullback that starts at `a` is `r`, within its window. */
  ghost predicate TurnedBackAt(z: Zone, s: seq<Candle>, rules: ReclaimRules, a: int, r: int) {
    && 0 <= a <= r < |s| && r - a < rules.maximumPullbackBars && TurnsBack(z, rules, s[r])
    && forall j :: a <= j < r ==> !TurnsBack(z, rules, s[j])
  }

  ghost predicate NotTurnedBack(z: Zone, s: seq<Candle>, rules: ReclaimRules, a: int) {
    forall j :: 0 <= a <= j < |s| && j - a < rules.maximumPullbackBars ==> !TurnsBack(z, rules, s[j])
  }

  /** The first close under the low of candle `r` after it is at `k`. */
  ghost predicate UndercutAt(s: seq<Candle>, r: int, k: int) {
    && 0 <= r < k < |s| && s[k].close < s[r].low
    && forall j :: r < j < k ==> s[j].close >= s[r].low
  }

  ghost predicate NotUndercut(s: seq<Candle>, r: int) {
    forall j :: 0 <= r < j < |s| ==> s[j].close >= s[r].low
  }

  function Window(s: seq<Candle>, rules: ReclaimRules): nat {
    if |s| < rules.maximumPullbackBars then |s| else rules.maximumPullbackBars
  }

  /** A bounce peaks at `b` inside the window, under the zone and above the break's close, and the
      first candle after it that closes under the break's low without reaching the peak is `k`. */
  ghost predicate ContinuesAt(z: Zone, e: Event, bc: Candle, s: seq<Candle>, rules: ReclaimRules, b: int, k: int) {
    && |s| >= rules.continuationMinimumBars && 0 < b < k < Window(s, rules)
    && (forall j :: 0 <= j < Window(s, rules) ==> s[j].high <= s[b].high)
    && (forall j :: 0 <= j < b ==> s[j].high < s[b].high)
    && e.closePrice < s[b].high < z.low
    && s[k].close < bc.low && s[k].high < s[b].high
    && forall j :: b < j < k ==> s[j].close >= bc.low || s[j].high >= s[b].high
  }

  ghost predicate Continues(z: Zone, e: Event, bc: Candle, s: seq<Candle>, rules: ReclaimRules) {
    exists b, k :: ContinuesAt(z, e, bc, s, rules, b, k)
  }

  /** The pullback that starts at `a`, as far as the stream goes. */
  ghost predicate PullbackEnds(outcome: Outcome, z: Zone, s: seq<Candle>, rules: ReclaimRules, a: int) {
    match outcome
    case Attempting => NotTurnedBack(z, s, rules, a) && |s| - a <= rules.maximumPullbackBars
    case PullbackExceeded => NotTurnedBack(z, s, rules, a) && |s| - a > rules.maximumPullbackBars
    case FailedReclaim => exists r :: TurnedBackAt(z, s, rules, a, r) && NotUndercut(s, r)
    case FailedPullback => exists r, k :: TurnedBackAt(z, s, rules, a, r) && UndercutAt(s, r, k)
    case _ => false
  }

  /** What each outcome says about the candles after the break. */
  ghost predicate OutcomeMeans(outcome: Outcome, z: Zone, e: Event, bc: Candle, s: seq<Candle>, rules: ReclaimRules) {
    match outcome
    case SuccessfulReclaim => exists i :: RegainedAt(z, s, rules, i)
    case Continuation =>
      NeverRegained(z, s, rules) && NeverRetested(z, s, rules) && Continues(z, e, bc, s, rules)
    case Expired =>
      && NeverRegained(z, s, rules) && NeverRetested(z, s, rules) && !Continues(z, e, bc, s, rules)
      && |s| >= rules.maximumAgeBars
    case NoAttempt =>
      && NeverRegained(z, s, rules) && NeverRetested(z, s, rules) && !Continues(z, e, bc, s, rules)
      && |s| < rules.maximumAgeBars
    case _ =>
      NeverRegained(z, s, rules) && exists a :: RetestedAt(z, s, rules, a) && PullbackEnds(outcome, z, s, rules, a)
  }

  // ----- The classifier's own terms, translated

  lemma RetestMeaning(z: Zone, rules: ReclaimRules, c: Candle, i: int)
    ensures Reaches(z, rules)(c, i) <==> Retests(z, rules, c)
  {
    var p := rules.minimumAttemptBps / 10000.0;
    assert rules.minimumAttemptBps == p * 10000.0;
    assert z.low * (1.0 + p) * 10000.0 == z.low * ((1.0 + p) * 10000.0);
  }

  lemma RejectionMeaning(z: Zone, rules: ReclaimRules, c: Candle)
    ensures Rejection(z, rules, c) <==> TurnsBack(z, rules, c)
  {
    if c.close < z.low <= c.high && c.close < c.open {
      BpsCompare(z.low - c.close, z.low, rules.minimumDistanceBps);
      BpsCompare(c.high - z.low, z.low, rules.maximumFailedBps);
      QuotientCompare(c.open - c.close, c.high - c.low, rules.minimumBodyFraction);
      if c.high == z.low {
        MulMonotone(0.0, rules.maximumFailedBps, z.low);
      }
    }
  }

  lemma RunMeaning(z: Zone, s: seq<Candle>, rules: ReclaimRules, i: int)
    requires s != []
    ensures RunEnds(s, z, Required(rules, s[0].interval), i) <==> HoldsAbove(z, s, ClosesNeeded(rules, s[0].interval), i)
  {
  }

  lemma RegainedMeaning(z: Zone, s: seq<Candle>, rules: ReclaimRules)
    requires s != []
    ensures var run := FirstRun(s, z, Required(rules, s[0].interval), 0);
            if run < |s| then RegainedAt(z, s, rules, run) else NeverRegained(z, s, rules)
  {
    hide HoldsAbove, RunEnds, Required, ClosesNeeded;
    forall i | 0 <= i < |s|
      ensures RunEnds(s, z, Required(rules, s[0].interval), i) <==> HoldsAbove(z, s, ClosesNeeded(rules, s[0].interval), i)
    {
      RunMeaning(z, s, rules, i);
    }
  }

  lemma RetestedMeaning(z: Zone, s: seq<Candle>, rules: ReclaimRules)
    ensures var a := First(s, Reaches(z, rules), 0);
            if a < |s| then RetestedAt(z, s, rules, a) else NeverRetested(z, s, rules)
  {
    hide Retests, Reaches;
    forall i | 0 <= i < |s| ensures Reaches(z, rules)(s[i], i) <==> Retests(z, rules, s[i]) {
      RetestMeaning(z, rules, s[i], i);
    }
  }

  lemma TurnedBackMeaning(z: Zone, s: seq<Candle>, rules: ReclaimRules, a: nat)
    requires a < |s|
    ensures var limited := Take(s[a..], rules.maximumPullbackBars);
            var r := First(limited, Rejected(z, rules), 0);
            if r < |limited| then TurnedBackAt(z, s, rules, a, a + r) else NotTurnedBack(z, s, rules, a)
  {
    hide TurnsBack, Rejection, First;
    var limited := Take(s[a..], rules.maximumPullbackBars);
    assert forall j :: 0 <= j < |limited| ==> limited[j] == s[a + j];
    assert forall j :: a <= j < |s| && j - a < rules.maximumPullbackBars ==> s[j] == limited[j - a];
    forall j | 0 <= j < |limited| ensures Rejection(z, rules, limited[j]) <==> TurnsBack(z, rules, s[a + j]) {
      RejectionMeaning(z, rules, limited[j]);
    }
  }

  lemma UndercutMeaning(s: seq<Candle>, a: nat, r: nat)
    requires a + r < |s|
    ensures var w := s[a..];
            var k := First(w, ClosesUnder(w[r].low), r + 1);
            if k < |w| then UndercutAt(s, a + r, a + k) else NotUndercut(s, a + r)
  {
    hide First;
    var w := s[a..];
    assert forall j :: 0 <= j < |w| ==> w[j] == s[a + j];
    assert forall j :: a <= j < |s| ==> s[j] == w[j - a];
  }

  lemma PullbackMeaning(z: Zone, e: Event, bc: Candle, interval: Interval, s: seq<Candle>, rules: ReclaimRules, a: nat)
    requires a < |s|
    ensures PullbackEnds(Pullback(z, e, bc, interval, s[a..], rules).outcome, z, s, rules, a)
  {
    hide First, TurnedBackAt, NotTurnedBack, UndercutAt, NotUndercut, HighestHigh, BounceRatio, Quality, Tally, PenetrationBps, Quantize, RawBody;
    TurnedBackMeaning(z, s, rules, a);
    var w := s[a..];
    var r := First(Take(w, rules.maximumPullbackBars), Rejected(z, rules), 0);
    if r < |Take(w, rules.maximumPullbackBars)| {
      UndercutMeaning(s, a, r);
    }
  }

  lemma PeakIsUnique(s: seq<Candle>, n: nat, b: nat)
    requires 0 < n <= |s| && b < n
    requires forall j :: 0 <= j < n ==> s[j].high <= s[b].high
    requires forall j :: 0 <= j < b ==> s[j].high < s[b].high
    ensures PeakIndex(s[..n]) == b
  {
    hide PeakIndex;
    var w := s[..n];
    var p := PeakIndex(w);
    assert w[p] == s[p] && w[b] == s[b];
    assert s[p].high == s[b].high;
  }

  /** The bounce and the trigger that the search finds. */
  lemma ContinuationFound(z: Zone, e: Event, bc: Candle, s: seq<Candle>, rules: ReclaimRules)
    requires s != [] && ContinuationResult(z, e, bc, s, rules).Some?
    ensures var search := Take(s, rules.maximumPullbackBars);
            var b := PeakIndex(search);
            b + 1 < |search| && ContinuesAt(z, e, bc, s, rules, b, First(search, Triggers(bc, search[b]), b + 1))
  {
    hide PeakIndex, First, HighestHigh, BounceRatio, ContinuationQuality, Record;
    var search := Take(s, rules.maximumPullbackBars);
    assert search == s[..Window(s, rules)];
    assert forall j :: 0 <= j < |search| ==> search[j] == s[j];
  }

  lemma ContinuationMeaning(z: Zone, e: Event, bc: Candle, s: seq<Candle>, rules: ReclaimRules)
    requires s != []
    ensures ContinuationResult(z, e, bc, s, rules).Some? <==> Continues(z, e, bc, s, rules)
  {
    hide PeakIndex, First, ContinuesAt, ContinuationResult;
    if ContinuationResult(z, e, bc, s, rules).Some? {
      ContinuationFound(z, e, bc, s, rules);
    } else if Continues(z, e, bc, s, rules) {
      var b, k :| ContinuesAt(z, e, bc, s, rules, b, k);
      ContinuesIsFound(z, e, bc, s, rules, b, k);
    }
  }

  lemma ContinuesIsFound(z: Zone, e: Event, bc: Candle, s: seq<Candle>, rules: ReclaimRules, b: int, k: int)
    requires s != [] && ContinuesAt(z, e, bc, s, rules, b, k)
    ensures ContinuationResult(z, e, bc, s, rules).Some?
  {
    hide PeakIndex, First, HighestHigh, BounceRatio, ContinuationQuality, Record;
    var n := Window(s, rules);
    assert Take(s, rules.maximumPullbackBars) == s[..n];
    PeakIsUnique(s, n, b);
    TriggerIsFound(z, e, bc, s, rules, b, k);
  }

  lemma TriggerIsFound(z: Zone, e: Event, bc: Candle, s: seq<Candle>, rules: ReclaimRules, b: nat, k: nat)
    requires ContinuesAt(z, e, bc, s, rules, b, k)
    ensures First(s[..Window(s, rules)], Triggers(bc, s[b]), b + 1) == k
  {
    var search := s[..Window(s, rules)];
    assert forall j :: 0 <= j < |search| ==> search[j] == s[j];
  }

  lemma OutcomeFits(z: Zone, e: Event, bc: Candle, s: seq<Candle>, rules: ReclaimRules)
    ensures OutcomeMeans(Classify(z, e, bc, s, rules).outcome, z, e, bc, s, rules)
  {
    hide FirstRun, First, Stretch, Untested, Pullback, RegainedAt, NeverRegained, RetestedAt, NeverRetested, Continues, PullbackEnds;
    if s == [] {
      EmptyFits(z, e, bc, rules);
    } else {
      RegainedMeaning(z, s, rules);
      RetestedMeaning(z, s, rules);
      var run, a := FirstRun(s, z, Required(rules, s[0].interval), 0), First(s, Reaches(z, rules), 0);
      if run < |s| {
        StretchOutcome(z, e, bc, s[0].interval, s[..run + 1], SuccessfulReclaim, NoSetup, Cancelled);
      } else if a == |s| {
        ContinuationMeaning(z, e, bc, s, rules);
        UntestedOutcomes(z, e, bc, s, rules);
      } else {
        PullbackMeaning(z, e, bc, s[0].interval, s, rules, a);
        PullbackOutcomes(z, e, bc, s[0].interval, s[a..], rules);
      }
    }
  }

  lemma EmptyFits(z: Zone, e: Event, bc: Candle, rules: ReclaimRules)
    ensures OutcomeMeans(NoCandles(z, e).outcome, z, e, bc, [], rules)
  {
  }

  lemma OutcomeIsUnique(x: Outcome, y: Outcome, z: Zone, e: Event, bc: Candle, s: seq<Candle>, rules: ReclaimRules)
    requires OutcomeMeans(x, z, e, bc, s, rules) && OutcomeMeans(y, z, e, bc, s, rules)
    ensures x == y
  {
    hide HoldsAbove, Retests, TurnsBack, Continues, ClosesNeeded;
    forall i | RegainedAt(z, s, rules, i) ensures !NeverRegained(z, s, rules) {
      assert HoldsAbove(z, s, ClosesNeeded(rules, s[0].interval), i);
      HoldsWithin(z, s, ClosesNeeded(rules, s[0].interval), i);
    }
    forall a, b | RetestedAt(z, s, rules, a) && RetestedAt(z, s, rules, b) ensures a == b {
    }
    forall a, r, q | TurnedBackAt(z, s, rules, a, r) && TurnedBackAt(z, s, rules, a, q) ensures r == q {
    }
  }

  lemma HoldsWithin(z: Zone, s: seq<Candle>, n: int, i: int)
    requires HoldsAbove(z, s, n, i)
    ensures 0 <= i < |s|
  {
  }

  /** Every outcome of the classifier, exactly. */
  lemma OutcomeExactly(z: Zone, e: Event, bc: Candle, s: seq<Candle>, rules: ReclaimRules, outcome: Outcome)
    ensures Classify(z, e, bc, s, rules).outcome == outcome <==> OutcomeMeans(outcome, z, e, bc, s, rules)
  {
    hide Classify, OutcomeMeans;
    OutcomeFits(z, e, bc, s, rules);
    if OutcomeMeans(outcome, z, e, bc, s, rules) {
      OutcomeIsUnique(outcome, Classify(z, e, bc, s, rules).outcome, z, e, bc, s, rules);
    }
  }
}
