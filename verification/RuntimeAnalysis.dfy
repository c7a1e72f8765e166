/** Joining the structure machine and the reclaim classifier on a 4H batch
    (app/setups/runtime_analysis.py, lines 14-50). */
module RuntimeAnalysis {
  import opened Basics
  import opened Candles
  import opened EventMeaning
  import opened HtfEngine
  import opened Ordering
  import opened Pivots
  import opened ReclaimEngine
  import opened ReclaimGrowth
  import opened ReclaimModels
  import opened ReclaimRecords
  import opened Rounding
  import opened Streams
  import opened StructureEvents
  import opened SupportZones

  predicate IsConfirmed(e: Event) { e.state == ConfirmedBreak }

  function HasId(id: ZoneId): (Zone, int) -> bool { (z: Zone, i: int) => z.id == id }

  function OpensAt(t: int): (Candle, int) -> bool { (c: Candle, i: int) => c.openTime == t }

  /** The confirmed break observed last, ties broken by the digest order. */
  function ChosenBreak(a: Analysis, rank: EventId -> int): Option<Event> {
    var confirmed := Filter(a.events, IsConfirmed);
    if confirmed == [] then None else Some(MaxBy(confirmed, EventOrder(rank)))
  }

  function DeriveReclaimFromStructure(b: Batch, a: Analysis, rank: EventId -> int): Result<Option<RawAttempt>> {
    if b.interval != H4 then Ok(None)
    else if a.source != b.source || a.symbol != b.symbol || a.interval != b.interval then Err(InvalidAnalysis)
    else
      match ChosenBreak(a, rank)
      case None => Ok(None)
      case Some(e) =>
        var z := First(a.zones, HasId(e.zoneId), 0);
        var c := First(b.candles, OpensAt(e.candleOpenTime), 0);
        if z == |a.zones| then Err(MissingZone)
        else if c == |b.candles| then Err(MissingCandle)
        else
          match AnalyzeReclaim(a.zones[z], e, b.candles[c], b.candles, DEFAULT_RECLAIM_RULES)
          case Err(fault) => Err(fault)
          case Ok(attempt) => Ok(Some(attempt))
  }

  // ----- Both filters are suffixes of the batch

  /** The candles the classifier looks at are those after the break candle. */
  lemma RelevantIsSuffix(candles: seq<Candle>, source: Source, symbol: string, interval: Interval, e: Event, n: nat)
    requires Stream(candles, source, symbol, interval) && n < |candles| && e.observedAt == candles[n].CloseTime()
    ensures Relevant(candles, e) == candles[n + 1..]
  {
    hide Filter;
    assert forall i :: 0 <= i < |candles| ==> candles[i].Trades(source, symbol, interval);
    FilterSuffix(candles, AfterClose(e.observedAt), n + 1);
  }

  // ----- Members of the event list by state

  lemma ConfirmedMember(z: Zone, s: seq<Candle>, rules: EventRules, e: RawEvent)
    requires e in EventsOf(z, s, rules) && e.state == ConfirmedBreak
    ensures var k := First(s, Settles(z, rules), 0);
            k < |s| && Confirms(z, rules, s[k]) && e == ConfirmedAt(z, s, rules, k)
  {
    hide First, Confirms, EventsOf, Quantize, BodyFraction, VolumeRatio, DistanceUnder, DistanceOver;
    Members(z, s, rules, e);
  }

  lemma ClosingMember(z: Zone, s: seq<Candle>, rules: EventRules, c: RawEvent)
    requires c in EventsOf(z, s, rules) && c.state in {FakeBreak, Reclaimed}
    ensures var k := First(s, Settles(z, rules), 0);
            && k < |s|
            && var back := First(s, ClosesAbove(z), k + 1);
               back < |s| && c == ClosingAt(z, s, rules, k, back)
  {
    hide First, Confirms, EventsOf, Quantize, BodyFraction, VolumeRatio, DistanceUnder, DistanceOver;
    Members(z, s, rules, c);
  }

  lemma ClosingExists(z: Zone, s: seq<Candle>, rules: EventRules, k: nat)
    requires k < |s| && k == First(s, Settles(z, rules), 0) && Confirms(z, rules, s[k])
    requires First(s, ClosesAbove(z), k + 1) < |s|
    ensures ClosingAt(z, s, rules, k, First(s, ClosesAbove(z), k + 1)) in EventsOf(z, s, rules)
  {
  }

  // ----- The two engines look for the same candle

  /** With one required close, the classifier's run search is the machine's return search. */
  lemma SameFirstClose(z: Zone, s: seq<Candle>, k: nat)
    requires k < |s|
    ensures First(s, ClosesAbove(z), k + 1) == k + 1 + FirstRun(s[k + 1..], z, 1, 0)
  {
    var t := s[k + 1..];
    var run, back := FirstRun(t, z, 1, 0), First(s, ClosesAbove(z), k + 1);
    assert forall j :: 0 <= j < |t| ==> t[j] == s[k + 1 + j];
    assert forall j :: 0 <= j < |t| ==> (RunEnds(t, z, 1, j) <==> Over(z, t[j]));
    assert back < |s| ==> Over(z, t[back - k - 1]);
  }

  /** The classifier's success and the machine's closing event coincide, candle and bar count. */
  ghost predicate EnginesAgree(z: Zone, s: seq<Candle>, rules: EventRules, k: nat, attempt: RawAttempt)
    requires k < |s|
  {
    var back := First(s, ClosesAbove(z), k + 1);
    && (attempt.outcome == SuccessfulReclaim <==> back < |s|)
    && (back < |s| ==> attempt.observedAt == s[back].CloseTime() && attempt.durationBars == back - k)
  }

  lemma AgreementOnSuffix(z: Zone, e: Event, bc: Candle, s: seq<Candle>, rules: EventRules, k: nat)
    requires k < |s| && forall i :: 0 <= i < |s| ==> s[i].interval == H4
    ensures EnginesAgree(z, s, rules, k, Classify(z, e, bc, s[k + 1..], DEFAULT_RECLAIM_RULES))
  {
    hide Classify, First, FirstRun, RunEnds, ClosesAbove;
    var t := s[k + 1..];
    SameFirstClose(z, s, k);
    Families(z, e, bc, t, DEFAULT_RECLAIM_RULES);
    if t != [] {
      assert t[0].interval == H4 && Required(DEFAULT_RECLAIM_RULES, H4) == 1;
      SuccessRecord(z, e, bc, t, DEFAULT_RECLAIM_RULES);
    }
  }

  lemma SuccessRecord(z: Zone, e: Event, bc: Candle, t: seq<Candle>, rules: ReclaimRules)
    requires t != []
    ensures var run := FirstRun(t, z, Required(rules, t[0].interval), 0);
            run < |t| ==>
              Classify(z, e, bc, t, rules).observedAt == t[run].CloseTime()
              && Classify(z, e, bc, t, rules).durationBars == run + 1
  {
  }

  // ----- The theorem

  /** What the join returns for a chosen break: a record that succeeds exactly when the same zone
      has a closing event, in which case both name the same candle and count the same bars. */
  ghost predicate JoinAgrees(a: Analysis, e: Event, attempt: RawAttempt) {
    && attempt.zoneId == e.zoneId && attempt.breakEventId == e.id
    && (attempt.outcome == SuccessfulReclaim <==> exists c :: ClosesFor(a, e, c))
    && (forall c :: ClosesFor(a, e, c) ==>
          && c.observedAt == attempt.observedAt
          && c.barsAfterBreak == Some(attempt.durationBars)
          && c.invalidates == Some(e.id))
  }

  ghost predicate ClosesFor(a: Analysis, e: Event, c: Event) {
    c in a.events && c.zoneId == e.zoneId && c.state in {FakeBreak, Reclaimed}
  }

  lemma ChosenBreakIsLatest(a: Analysis, rank: EventId -> int)
    ensures var chosen := ChosenBreak(a, rank);
            && (chosen.None? <==> forall e :: e in a.events ==> e.state != ConfirmedBreak)
            && (chosen.Some? ==>
                  && chosen.value in a.events && chosen.value.state == ConfirmedBreak
                  && forall e :: e in a.events && e.state == ConfirmedBreak ==> EventNotAfter(rank, e, chosen.value))
  {
    hide MaxBy, EventNotAfter;
    var confirmed := Filter(a.events, IsConfirmed);
    forall e | e in a.events && IsConfirmed(e) ensures e in confirmed { FilterComplete(a.events, IsConfirmed, e); }
    if confirmed != [] {
      EventOrderIsTotal(rank);
      MaxByGreatest(confirmed, EventOrder(rank));
      assert forall e :: e in confirmed ==> EventOrder(rank)(e, MaxBy(confirmed, EventOrder(rank)));
    }
  }

  /** The zone and the candle of a confirmed break are found, and they are its own. */
  lemma BreakIsLocated(b: Batch, a: Analysis, zoneRules: ZoneRules, rules: EventRules, e: Event) returns (z: Zone, m: nat, k: nat)
    requires SoundAnalysis(a, b, zoneRules, rules) && e in a.events && e.state == ConfirmedBreak
    ensures z in a.zones && z.id == e.zoneId && EventOf(z, b.candles, rules, e)
    ensures First(a.zones, HasId(e.zoneId), 0) < |a.zones| && a.zones[First(a.zones, HasId(e.zoneId), 0)] == z
    ensures StartsAt(z, b.candles, m) && m + k < |b.candles| && Filter(b.candles, Since(z)) == b.candles[m..]
    ensures k == First(b.candles[m..], Settles(z, rules), 0) && Confirms(z, rules, b.candles[m..][k])
    ensures e == ConfirmedAt(z, b.candles[m..], rules, k)
    ensures First(b.candles, OpensAt(e.candleOpenTime), 0) == m + k
  {
    hide EventsOf, Filter, SoundZone, Confirms, EventOf, Quantize, BodyFraction, VolumeRatio, DistanceUnder;
    z :| z in a.zones && EventOf(z, b.candles, rules, e);
    EventMatchesZone(z, b.candles, rules, e);
    ZoneIsFound(a, z);
    m := StartExists(z, b.candles);
    RunsFrom(z, b.candles, rules, m);
    var s := b.candles[m..];
    EventInRun(z, b.candles, rules, e);
    ConfirmedMember(z, s, rules, e);
    k := First(s, Settles(z, rules), 0);
    assert s[k] == b.candles[m + k];
    CandleIsFound(b.candles, m + k);
  }

  lemma EventInRun(z: Zone, candles: seq<Candle>, rules: EventRules, e: Event)
    requires EventOf(z, candles, rules, e)
    ensures e in EventsOf(z, Filter(candles, Since(z)), rules)
  {
  }

  lemma ZoneIsFound(a: Analysis, z: Zone)
    requires z in a.zones && forall x, y :: x in a.zones && y in a.zones && x.id == y.id ==> x == y
    ensures First(a.zones, HasId(z.id), 0) < |a.zones| && a.zones[First(a.zones, HasId(z.id), 0)] == z
  {
  }

  lemma CandleIsFound(candles: seq<Candle>, n: nat)
    requires Chronological(candles) && n < |candles|
    ensures First(candles, OpensAt(candles[n].openTime), 0) == n
  {
  }

  /** Every closing event of the zone is the machine's return from this break. */
  lemma ClosingIsReturn(b: Batch, a: Analysis, zoneRules: ZoneRules, rules: EventRules, z: Zone, s: seq<Candle>, k: nat, e: Event, c: Event)
    requires SoundAnalysis(a, b, zoneRules, rules) && z in a.zones && z.id == e.zoneId
    requires s == Filter(b.candles, Since(z)) && k < |s| && k == First(s, Settles(z, rules), 0)
    requires e == ConfirmedAt(z, s, rules, k) && ClosesFor(a, e, c)
    ensures var back := First(s, ClosesAbove(z), k + 1);
            back < |s| && c.observedAt == s[back].CloseTime() && c.barsAfterBreak == Some(back - k)
            && c.invalidates == Some(e.id)
  {
    hide EventsOf, Filter, SoundZone, EventOf, Quantize, BodyFraction, VolumeRatio, DistanceUnder, DistanceOver, First;
    var y :| y in a.zones && EventOf(y, b.candles, rules, c);
    EventMatchesZone(y, b.candles, rules, c);
    EventInRun(y, b.candles, rules, c);
    ClosingMember(z, s, rules, c);
  }

  lemma ReturnIsClosing(b: Batch, a: Analysis, zoneRules: ZoneRules, rules: EventRules, z: Zone, s: seq<Candle>, k: nat, e: Event)
    requires SoundAnalysis(a, b, zoneRules, rules) && z in a.zones && z.id == e.zoneId
    requires s == Filter(b.candles, Since(z)) && k < |s| && k == First(s, Settles(z, rules), 0)
    requires Confirms(z, rules, s[k]) && First(s, ClosesAbove(z), k + 1) < |s|
    ensures exists c :: ClosesFor(a, e, c)
  {
    hide EventsOf, Filter, SoundZone, Quantize, BodyFraction, VolumeRatio, DistanceUnder, DistanceOver, First, Confirms;
    ClosingExists(z, s, rules, k);
    var c := ClosingAt(z, s, rules, k, First(s, ClosesAbove(z), k + 1));
    var events := BuildStructureEvents(z, b.candles, rules).value;
    assert c in events;
    assert EventOf(z, b.candles, rules, c);
    assert c in a.events;
    assert ClosesFor(a, e, c);
  }

  lemma JoinOnBreak(b: Batch, a: Analysis, zoneRules: ZoneRules, rules: EventRules, e: Event)
    requires b.interval == H4 && ClearsFloor(b.candles)
    requires SoundAnalysis(a, b, zoneRules, rules) && e in a.events && e.state == ConfirmedBreak
    ensures var z, c := First(a.zones, HasId(e.zoneId), 0), First(b.candles, OpensAt(e.candleOpenTime), 0);
            && z < |a.zones| && c < |b.candles|
            && var r := AnalyzeReclaim(a.zones[z], e, b.candles[c], b.candles, DEFAULT_RECLAIM_RULES);
               r.Ok? && JoinAgrees(a, e, r.value)
  {
    hide SoundAnalysis, AnalyzeReclaim, Classify, JoinAgrees, EnginesAgree, ClearsFloor, Filter, First, Confirms, ConfirmedAt, EventOf;
    var z, m, k := BreakIsLocated(b, a, zoneRules, rules, e);
    var s := b.candles[m..];
    AttemptOnBreak(b, z, rules, m, k, e);
    var attempt := Classify(z, e, b.candles[m + k], b.candles[m + k + 1..], DEFAULT_RECLAIM_RULES);
    JoinFromAgreement(b, a, zoneRules, rules, z, s, k, e, attempt);
  }

  /** Every low clears the price floor of the records. */
  ghost predicate ClearsFloor(candles: seq<Candle>) {
    forall i :: 0 <= i < |candles| ==> candles[i].low >= FLOOR
  }

  lemma AttemptOnBreak(b: Batch, z: Zone, rules: EventRules, m: nat, k: nat, e: Event)
    requires b.interval == H4 && ClearsFloor(b.candles) && m + k < |b.candles|
    requires EventOf(z, b.candles, rules, e) && e == ConfirmedAt(z, b.candles[m..], rules, k)
    ensures var attempt := Classify(z, e, b.candles[m + k], b.candles[m + k + 1..], DEFAULT_RECLAIM_RULES);
            && AnalyzeReclaim(z, e, b.candles[m + k], b.candles, DEFAULT_RECLAIM_RULES) == Ok(attempt)
            && EnginesAgree(z, b.candles[m..], rules, k, attempt)
            && attempt.zoneId == z.id && attempt.breakEventId == e.id
  {
    hide Classify, EventsOf, Filter, Quantize, BodyFraction, VolumeRatio, DistanceUnder, EnginesAgree;
    var c := b.candles;
    assert c[m..][k] == c[m + k];
    assert c[m + k].Trades(z.source, z.symbol, z.interval);
    assert c[0].Trades(b.source, b.symbol, b.interval) && c[0].Trades(z.source, z.symbol, z.interval);
    RelevantIsSuffix(c, b.source, b.symbol, b.interval, e, m + k);
    EngineNeverRaises(z, e, c[m + k], c, DEFAULT_RECLAIM_RULES);
    assert c[m..][k + 1..] == c[m + k + 1..];
    assert forall i :: 0 <= i < |c[m..]| ==> c[m..][i].interval == H4 by {
      forall i | 0 <= i < |c[m..]| ensures c[m..][i].interval == H4 {
        assert c[m + i].Trades(b.source, b.symbol, b.interval);
      }
    }
    AgreementOnSuffix(z, e, c[m + k], c[m..], rules, k);
    AttemptNames(z, e, c[m + k], c[m + k + 1..], DEFAULT_RECLAIM_RULES);
  }

  lemma AttemptNames(z: Zone, e: Event, bc: Candle, s: seq<Candle>, rules: ReclaimRules)
    ensures var a := Classify(z, e, bc, s, rules); a.zoneId == z.id && a.breakEventId == e.id
  {
    hide First, FirstRun, HighestHigh, BounceRatio, Tally, PenetrationBps, Quantize, PeakIndex, Quality, ContinuationQuality, RawBody;
  }

  lemma JoinFromAgreement(b: Batch, a: Analysis, zoneRules: ZoneRules, rules: EventRules, z: Zone, s: seq<Candle>, k: nat, e: Event, attempt: RawAttempt)
    requires SoundAnalysis(a, b, zoneRules, rules) && z in a.zones && z.id == e.zoneId
    requires s == Filter(b.candles, Since(z)) && k < |s| && k == First(s, Settles(z, rules), 0)
    requires Confirms(z, rules, s[k]) && e == ConfirmedAt(z, s, rules, k)
    requires EnginesAgree(z, s, rules, k, attempt) && attempt.zoneId == z.id && attempt.breakEventId == e.id
    ensures JoinAgrees(a, e, attempt)
  {
    hide SoundAnalysis, Filter, First, Confirms, ConfirmedAt, ClosesFor;
    var back := First(s, ClosesAbove(z), k + 1);
    forall c | ClosesFor(a, e, c)
      ensures back < |s| && c.observedAt == s[back].CloseTime() && c.barsAfterBreak == Some(back - k) && c.invalidates == Some(e.id)
    {
      ClosingIsReturn(b, a, zoneRules, rules, z, s, k, e, c);
    }
    if back < |s| {
      ReturnIsClosing(b, a, zoneRules, rules, z, s, k, e);
    }
  }

  /** For every 4H batch and its own analysis, under any zone and event rules, the join never
      raises; it returns a record exactly when some zone broke, for the break observed last, and
      the two engines agree on it. */
  lemma JoinTheorem(b: Batch, zoneRules: ZoneRules, rules: EventRules, ranks: Ranks)
    requires b.interval == H4 && ClearsFloor(b.candles)
    requires AnalyzeHigherTimeframe(b, zoneRules, rules, ranks).Ok?
    ensures var a := AnalyzeHigherTimeframe(b, zoneRules, rules, ranks).value;
            var r := DeriveReclaimFromStructure(b, a, ranks.event);
            && r.Ok?
            && (r.value.Some? <==> exists e :: e in a.events && e.state == ConfirmedBreak)
            && (r.value.Some? ==>
                  && ChosenBreak(a, ranks.event).Some?
                  && JoinAgrees(a, ChosenBreak(a, ranks.event).value, r.value.value))
  {
    hide AnalyzeHigherTimeframe, ChosenBreak, AnalyzeReclaim, JoinAgrees, ClearsFloor, EventNotAfter, First, SoundZone,
         BuildStructureEvents, EventsComeFromZones;
    AnalysisIsSound(b, zoneRules, rules, ranks);
    var a := AnalyzeHigherTimeframe(b, zoneRules, rules, ranks).value;
    ChosenBreakIsLatest(a, ranks.event);
    var chosen := ChosenBreak(a, ranks.event);
    if chosen.Some? {
      JoinOnBreak(b, a, zoneRules, rules, chosen.value);
    }
  }

  /** A qualified short is never derived for a zone that the machine saw recover: the zone of the
      chosen break has no closing event anywhere in the batch. */
  lemma QualifiedZoneStillBroken(b: Batch, zoneRules: ZoneRules, rules: EventRules, ranks: Ranks, c: Event)
    requires b.interval == H4 && ClearsFloor(b.candles)
    requires AnalyzeHigherTimeframe(b, zoneRules, rules, ranks).Ok?
    requires var a := AnalyzeHigherTimeframe(b, zoneRules, rules, ranks).value;
             var r := DeriveReclaimFromStructure(b, a, ranks.event);
             && r.Ok? && r.value.Some? && r.value.value.readiness == Qualified
             && c in a.events && c.zoneId == r.value.value.zoneId
    ensures c.state !in {FakeBreak, Reclaimed}
  {
    hide AnalyzeHigherTimeframe, ClearsFloor, ChosenBreak;
    JoinTheorem(b, zoneRules, rules, ranks);
    var a := AnalyzeHigherTimeframe(b, zoneRules, rules, ranks).value;
    var attempt := DeriveReclaimFromStructure(b, a, ranks.event).value.value;
    assert attempt.Valid();
    assert attempt.outcome != SuccessfulReclaim;
    assert !ClosesFor(a, ChosenBreak(a, ranks.event).value, c);
  }

  /** The record returned for the chosen break is the classification, under the default rules, of the
      candles after the break candle against the break's own zone. */
  lemma JoinRecord(b: Batch, zoneRules: ZoneRules, rules: EventRules, ranks: Ranks) returns (z: Zone, n: nat)
    requires b.interval == H4 && ClearsFloor(b.candles)
    requires AnalyzeHigherTimeframe(b, zoneRules, rules, ranks).Ok?
    requires ChosenBreak(AnalyzeHigherTimeframe(b, zoneRules, rules, ranks).value, ranks.event).Some?
    ensures var a := AnalyzeHigherTimeframe(b, zoneRules, rules, ranks).value;
            var e := ChosenBreak(a, ranks.event).value;
            && z in a.zones && z.id == e.zoneId && n < |b.candles|
            && b.candles[n].openTime == e.candleOpenTime && b.candles[n].CloseTime() == e.observedAt
            && DeriveReclaimFromStructure(b, a, ranks.event)
               == Ok(Some(Classify(z, e, b.candles[n], b.candles[n + 1..], DEFAULT_RECLAIM_RULES)))
  {
    hide AnalyzeHigherTimeframe, ChosenBreak, AnalyzeReclaim, Classify, ClearsFloor, First, SoundZone, BuildStructureEvents,
         EventsComeFromZones, Filter, Confirms, EventOf, EventNotAfter, Quantize, BodyFraction, VolumeRatio, DistanceUnder, EnginesAgree;
    AnalysisIsSound(b, zoneRules, rules, ranks);
    var a := AnalyzeHigherTimeframe(b, zoneRules, rules, ranks).value;
    ChosenBreakIsLatest(a, ranks.event);
    var e := ChosenBreak(a, ranks.event).value;
    var m, k;
    z, m, k := BreakIsLocated(b, a, zoneRules, rules, e);
    n := m + k;
    assert b.candles[m..][k] == b.candles[n];
    AttemptOnBreak(b, z, rules, m, k, e);
  }

  /** Other timeframes and batches without a break have no record, and a foreign analysis is refused. */
  lemma JoinGuards(b: Batch, a: Analysis, rank: EventId -> int)
    ensures b.interval != H4 ==> DeriveReclaimFromStructure(b, a, rank) == Ok(None)
    ensures b.interval == H4 && !(a.source == b.source && a.symbol == b.symbol && a.interval == H4) ==>
              DeriveReclaimFromStructure(b, a, rank) == Err(InvalidAnalysis)
    ensures (&& a.source == b.source && a.symbol == b.symbol && a.interval == b.interval
             && (forall e :: e in a.events ==> e.state != ConfirmedBreak)) ==>
              DeriveReclaimFromStructure(b, a, rank) == Ok(None)
  {
    hide ChosenBreak, AnalyzeReclaim;
    ChosenBreakIsLatest(a, rank);
  }

  /** A closing event of a zone is observed after the zone's break. */
  lemma ClosingIsLater(b: Batch, a: Analysis, zoneRules: ZoneRules, rules: EventRules, e: Event, c: Event)
    requires SoundAnalysis(a, b, zoneRules, rules) && e in a.events && e.state == ConfirmedBreak && ClosesFor(a, e, c)
    ensures e.observedAt < c.observedAt
  {
    hide SoundAnalysis, Filter, First, Confirms, EventOf, ClosesFor, Quantize, BodyFraction, VolumeRatio, DistanceUnder;
    var z, m, k := BreakIsLocated(b, a, zoneRules, rules, e);
    var s := b.candles[m..];
    ClosingIsReturn(b, a, zoneRules, rules, z, s, k, e, c);
    var back := First(s, ClosesAbove(z), k + 1);
    assert s[k] == b.candles[m + k] && s[back] == b.candles[m + back];
    assert b.candles[m + k].Trades(b.source, b.symbol, b.interval);
    assert b.candles[m + back].Trades(b.source, b.symbol, b.interval);
  }

  /** The evidence and the classifier never contradict each other, although each picks its own
      zone: on damaged 4H evidence the join classifies a break observed when the evidence was, and
      does not call it reclaimed. */
  lemma DamagedIsNotReclaimed(b: Batch, zoneRules: ZoneRules, rules: EventRules, ranks: Ranks)
    requires b.interval == H4 && ClearsFloor(b.candles)
    requires AnalyzeHigherTimeframe(b, zoneRules, rules, ranks).Ok?
    requires AnalyzeHigherTimeframe(b, zoneRules, rules, ranks).value.evidence.status == Damaged
    ensures var a := AnalyzeHigherTimeframe(b, zoneRules, rules, ranks).value;
            var r := DeriveReclaimFromStructure(b, a, ranks.event);
            && r.Ok? && r.value.Some? && r.value.value.outcome != SuccessfulReclaim
            && ChosenBreak(a, ranks.event).Some?
            && ChosenBreak(a, ranks.event).value.observedAt == a.evidence.observedAt
  {
    hide AnalyzeHigherTimeframe, ChosenBreak, DeriveReclaimFromStructure, ClearsFloor, SoundAnalysis;
    var a := AnalyzeHigherTimeframe(b, zoneRules, rules, ranks).value;
    AnalysisIsSound(b, zoneRules, rules, ranks);
    JoinTheorem(b, zoneRules, rules, ranks);
    ChosenBreakIsLatest(a, ranks.event);
    var shown := DamagedByBreak(b, zoneRules, rules, ranks);
    var chosen := ChosenBreak(a, ranks.event).value;
    EvidenceIsLatest(b, zoneRules, rules, ranks, chosen);
    forall c | ClosesFor(a, chosen, c) ensures false {
      ClosingIsLater(b, a, zoneRules, rules, chosen, c);
      EvidenceIsLatest(b, zoneRules, rules, ranks, c);
    }
  }
}
