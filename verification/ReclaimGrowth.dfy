/** How a classification moves as later confirmation candles arrive. */
module ReclaimGrowth {
  import opened Candles
  import opened ReclaimEngine
  import opened ReclaimModels
  import opened Streams
  import opened StructureEvents
  import opened SupportZones

  lemma FirstRunGrows(s: seq<Candle>, t: seq<Candle>, z: Zone, required: int)
    requires s <= t
    ensures FirstRun(s, z, required, 0) < |s| ==> FirstRun(t, z, required, 0) == FirstRun(s, z, required, 0)
    ensures FirstRun(s, z, required, 0) == |s| ==> FirstRun(t, z, required, 0) >= |s|
  {
    hide Over;
    assert forall i :: 0 <= i < |s| ==> s[i] == t[i];
    forall i | 0 <= i < |s| ensures RunEnds(s, z, required, i) == RunEnds(t, z, required, i) {}
  }

  /** The two ways past the success test, as the engine takes them. */
  ghost predicate Retested(s: seq<Candle>, z: Zone, rules: ReclaimRules) {
    s != [] && First(s, Reaches(z, rules), 0) < |s|
  }

  ghost predicate Regained(s: seq<Candle>, z: Zone, rules: ReclaimRules) {
    s != [] && FirstRun(s, z, Required(rules, s[0].interval), 0) < |s|
  }

  const UNTESTED: set<Outcome> := {NoAttempt, Continuation, Expired}
  const PULLED_BACK: set<Outcome> := {Attempting, FailedReclaim, FailedPullback, PullbackExceeded}

  lemma UntestedOutcomes(z: Zone, e: Event, bc: Candle, s: seq<Candle>, rules: ReclaimRules)
    requires s != []
    ensures Untested(z, e, bc, s, rules).outcome in UNTESTED
    ensures Untested(z, e, bc, s, rules).outcome == Continuation <==> ContinuationResult(z, e, bc, s, rules).Some?
    ensures Untested(z, e, bc, s, rules).outcome == Expired <==>
              ContinuationResult(z, e, bc, s, rules).None? && |s| >= rules.maximumAgeBars
  {
  }

  lemma PullbackOutcomes(z: Zone, e: Event, bc: Candle, interval: Interval, w: seq<Candle>, rules: ReclaimRules)
    requires w != []
    ensures Pullback(z, e, bc, interval, w, rules).outcome in PULLED_BACK
  {
    hide First, HighestHigh, BounceRatio, Quality, Tally, PenetrationBps;
  }

  /** Which family of outcomes a stream falls into is decided by the two tests alone. */
  lemma Families(z: Zone, e: Event, bc: Candle, s: seq<Candle>, rules: ReclaimRules)
    ensures var o := Classify(z, e, bc, s, rules).outcome;
            && (o == SuccessfulReclaim <==> Regained(s, z, rules))
            && (o in UNTESTED <==> !Regained(s, z, rules) && !Retested(s, z, rules))
            && (o in PULLED_BACK <==> !Regained(s, z, rules) && Retested(s, z, rules))
  {
    hide Untested, Pullback, First, FirstRun, HighestHigh, BounceRatio, Tally, PenetrationBps;
    if s != [] {
      UntestedOutcomes(z, e, bc, s, rules);
      var start := First(s, Reaches(z, rules), 0);
      if start < |s| {
        PullbackOutcomes(z, e, bc, s[0].interval, s[start..], rules);
      }
    }
  }

  lemma TestsGrow(z: Zone, s: seq<Candle>, t: seq<Candle>, rules: ReclaimRules)
    requires s <= t && s != []
    ensures Regained(s, z, rules) ==> Regained(t, z, rules)
    ensures Retested(s, z, rules) ==> Retested(t, z, rules)
    ensures Retested(s, z, rules) ==> First(t, Reaches(z, rules), 0) == First(s, Reaches(z, rules), 0)
    ensures Regained(s, z, rules) ==>
              FirstRun(t, z, Required(rules, t[0].interval), 0) == FirstRun(s, z, Required(rules, s[0].interval), 0)
  {
    hide First, FirstRun, RunEnds, Required;
    FirstRunGrows(s, t, z, Required(rules, s[0].interval));
    FirstGrows(s, t, Reaches(z, rules), 0);
  }

  lemma RejectingGrows(z: Zone, e: Event, bc: Candle, interval: Interval, w: seq<Candle>, v: seq<Candle>, rules: ReclaimRules, r: nat)
    requires w <= v && r < |w|
    ensures var a, b := Rejecting(z, e, bc, interval, w, rules, r), Rejecting(z, e, bc, interval, v, rules, r);
            && (a.outcome == FailedPullback ==> b == a)
            && (a.outcome == FailedReclaim ==> b == a || b.outcome == FailedPullback)
            && a.outcome in {FailedPullback, FailedReclaim} && b.outcome in {FailedPullback, FailedReclaim}
  {
    hide First, HighestHigh, BounceRatio, Quality, Tally, PenetrationBps, RawBody;
    assert w[..r + 1] == v[..r + 1];
    FirstGrows(w, v, ClosesUnder(w[r].low), r + 1);
  }

  /** What later candles do to a pullback, as long as no successful reclaim intervenes. */
  lemma PullbackGrows(z: Zone, e: Event, bc: Candle, interval: Interval, w: seq<Candle>, v: seq<Candle>, rules: ReclaimRules)
    requires w <= v && w != []
    ensures var a, b := Pullback(z, e, bc, interval, w, rules), Pullback(z, e, bc, interval, v, rules);
            && (a.outcome == FailedPullback ==> b == a)
            && (a.outcome == PullbackExceeded ==> b == a)
            && (a.outcome == FailedReclaim ==> b == a || b.outcome == FailedPullback)
  {
    hide First, Rejecting, HighestHigh, BounceRatio, Tally, PenetrationBps;
    var a, b := Take(w, rules.maximumPullbackBars), Take(v, rules.maximumPullbackBars);
    assert a <= b && (|w| > rules.maximumPullbackBars ==> a == b);
    FirstGrows(a, b, Rejected(z, rules), 0);
    var r := First(a, Rejected(z, rules), 0);
    if r < |a| {
      RejectingGrows(z, e, bc, interval, w, v, rules, r);
    }
  }

  /** Once the window is full, or always when it is too short for a bounce, later candles do
      not change whether there is a continuation, nor its record. */
  lemma ContinuationGrows(z: Zone, e: Event, bc: Candle, s: seq<Candle>, t: seq<Candle>, rules: ReclaimRules)
    requires s <= t && s != []
    ensures |s| >= rules.maximumPullbackBars && |s| >= rules.continuationMinimumBars ==>
              ContinuationResult(z, e, bc, t, rules) == ContinuationResult(z, e, bc, s, rules)
    ensures rules.maximumPullbackBars < 3 ==> ContinuationResult(z, e, bc, t, rules).None?
    ensures ContinuationResult(z, e, bc, s, rules).Some? ==> |s| >= rules.continuationMinimumBars && |s| >= 3
  {
    hide PeakIndex, First, HighestHigh, BounceRatio, ContinuationQuality;
    if |s| >= rules.maximumPullbackBars {
      assert Take(s, rules.maximumPullbackBars) == Take(t, rules.maximumPullbackBars);
    }
  }

  /** Growth of the relevant stream moves the classification only forward. */
  lemma ClassificationGrows(z: Zone, e: Event, bc: Candle, s: seq<Candle>, t: seq<Candle>, rules: ReclaimRules)
    requires s <= t
    ensures var a, b := Classify(z, e, bc, s, rules), Classify(z, e, bc, t, rules);
            && (a.outcome == SuccessfulReclaim ==> b == a)
            && (a.outcome in {FailedPullback, PullbackExceeded} ==> b == a || b.outcome == SuccessfulReclaim)
            && (a.outcome == FailedReclaim ==> b == a || b.outcome in {FailedPullback, SuccessfulReclaim})
            && (a.outcome == Attempting ==> b.outcome !in UNTESTED)
            && (a.outcome == Expired ==>
                  b.outcome != NoAttempt
                  && (rules.continuationMinimumBars <= rules.maximumAgeBars || rules.maximumPullbackBars < 3 ==>
                        b.outcome != Continuation))
            && (a.outcome == Continuation && |s| >= rules.maximumPullbackBars ==>
                  b == a || b.outcome !in UNTESTED)
  {
    hide Untested, Pullback, First, FirstRun, HighestHigh, BounceRatio, Tally, PenetrationBps, ContinuationResult;
    var a, b := Classify(z, e, bc, s, rules), Classify(z, e, bc, t, rules);
    Families(z, e, bc, s, rules);
    Families(z, e, bc, t, rules);
    if s != [] {
      TestsGrow(z, s, t, rules);
      if a.outcome == SuccessfulReclaim {
        var run := FirstRun(s, z, Required(rules, s[0].interval), 0);
        assert s[..run + 1] == t[..run + 1];
      } else if b.outcome != SuccessfulReclaim {
        if a.outcome in PULLED_BACK {
          var start := First(s, Reaches(z, rules), 0);
          assert s[start..] <= t[start..];
          PullbackGrows(z, e, bc, s[0].interval, s[start..], t[start..], rules);
        } else if b.outcome in UNTESTED {
          UntestedGrows(z, e, bc, s, t, rules);
        }
      }
    }
  }

  lemma UntestedGrows(z: Zone, e: Event, bc: Candle, s: seq<Candle>, t: seq<Candle>, rules: ReclaimRules)
    requires s <= t && s != []
    ensures var a, b := Untested(z, e, bc, s, rules), Untested(z, e, bc, t, rules);
            && (a.outcome == Expired ==>
                  b.outcome != NoAttempt
                  && (rules.continuationMinimumBars <= rules.maximumAgeBars || rules.maximumPullbackBars < 3 ==>
                        b.outcome != Continuation))
            && (a.outcome == Continuation && |s| >= rules.maximumPullbackBars ==> b == a)
  {
    hide Untouched, ContinuationResult;
    UntestedOutcomes(z, e, bc, s, rules);
    UntestedOutcomes(z, e, bc, t, rules);
    ContinuationGrows(z, e, bc, s, t, rules);
  }

  /** The same for the engine: candles appended to the confirmation stream it is given. */
  lemma EngineGrows(z: Zone, e: Event, bc: Candle, s: seq<Candle>, t: seq<Candle>, rules: ReclaimRules)
    requires s <= t && AnalyzeReclaim(z, e, bc, s, rules).Ok? && AnalyzeReclaim(z, e, bc, t, rules).Ok?
    ensures var a, b := AnalyzeReclaim(z, e, bc, s, rules).value, AnalyzeReclaim(z, e, bc, t, rules).value;
            && (a.outcome == SuccessfulReclaim ==> b == a)
            && (a.outcome in {FailedPullback, PullbackExceeded} ==> b == a || b.outcome == SuccessfulReclaim)
            && (a.outcome == FailedReclaim ==> b == a || b.outcome in {FailedPullback, SuccessfulReclaim})
            && (a.outcome == Attempting ==> b.outcome !in UNTESTED)
            && (a.outcome == Expired ==>
                  b.outcome != NoAttempt
                  && (rules.continuationMinimumBars <= rules.maximumAgeBars || rules.maximumPullbackBars < 3 ==>
                        b.outcome != Continuation))
  {
    hide Classify, Filter;
    FilterGrows(s, t, AfterClose(e.observedAt));
    ClassificationGrows(z, e, bc, Relevant(s, e), Relevant(t, e), rules);
  }
}
