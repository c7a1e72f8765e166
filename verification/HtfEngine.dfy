/** Zones, events and the evidence of one timeframe (app/structure/htf_engine.py and
    `evidence_from_events`). */
module HtfEngine {
  import opened Basics
  import opened Candles
  import opened EventMeaning
  import opened Ordering
  import opened Pivots
  import opened Rounding
  import opened Streams
  import opened StructureEvents
  import opened SupportZones

  datatype TimeframeStatus = Intact | Watch | Damaged | Recovered | Lapsed | Insufficient

  datatype RawEvidence = RawEvidence(
    source: Source, symbol: string, interval: Interval, status: TimeframeStatus, observedAt: int,
    zoneId: Option<ZoneId>, eventId: Option<EventId>)
  {
    predicate Valid() {
      symbol != "" && interval in {D1, H4} && (status == Damaged ==> eventId.Some?)
    }
  }

  datatype Analysis = Analysis(
    source: Source, symbol: string, interval: Interval, observedAt: int, zones: seq<Zone>,
    primary: Option<Zone>, events: seq<Event>, evidence: RawEvidence)
  {
    predicate Valid() {
      && symbol != "" && interval in {D1, H4}
      && evidence.Valid() && evidence.symbol == symbol && evidence.interval == interval
      && (primary.Some? ==> primary.value in zones)
      && (forall z :: z in zones ==> z.source == source && z.symbol == symbol && z.interval == interval)
      && (forall e :: e in events ==> e.source == source && e.symbol == symbol && e.interval == interval)
    }
  }

  function StatusOf(state: EventState): TimeframeStatus {
    match state
    case PendingBreak => Watch
    case ConfirmedBreak => Damaged
    case FakeBreak => Recovered
    case Reclaimed => Recovered
    case Invalidated => Lapsed
  }

  function EvidenceFrom(zone: Option<Zone>, events: seq<Event>, source: Source, symbol: string,
                        interval: Interval, observedAt: int): RawEvidence
  {
    match zone
    case None => RawEvidence(source, symbol, interval, Insufficient, observedAt, None, None)
    case Some(z) =>
      if events == [] then RawEvidence(source, symbol, interval, Intact, observedAt, Some(z.id), None)
      else
        var latest := events[|events| - 1];
        RawEvidence(source, symbol, interval, StatusOf(latest.state), latest.observedAt, Some(z.id), Some(latest.id))
  }

  /** A zone with its own events. */
  datatype Bundle = Bundle(zone: Zone, events: seq<Event>)

  function BundlesOf(zones: seq<Zone>, candles: seq<Candle>, rules: EventRules): Result<seq<Bundle>> {
    if zones == [] then Ok([])
    else
      match BundlesOf(zones[..|zones| - 1], candles, rules)
      case Err(fault) => Err(fault)
      case Ok(before) =>
        match BuildStructureEvents(zones[|zones| - 1], candles, rules)
        case Err(fault) => Err(fault)
        case Ok(events) => Ok(before + [Bundle(zones[|zones| - 1], events)])
  }

  function EventsIn(bundles: seq<Bundle>): seq<Event> {
    if bundles == [] then [] else EventsIn(bundles[..|bundles| - 1]) + bundles[|bundles| - 1].events
  }

  predicate HasEvents(b: Bundle) { b.events != [] }

  function LastSeen(b: Bundle): int { if b.events == [] then 0 else b.events[|b.events| - 1].observedAt }

  /** The ascending key `(last observation, strength, zone_id)` of the primary choice. */
  predicate NotAfter(rank: ZoneId -> int, a: Bundle, b: Bundle) {
    || LastSeen(a) < LastSeen(b)
    || (LastSeen(a) == LastSeen(b) && a.zone.strength < b.zone.strength)
    || (LastSeen(a) == LastSeen(b) && a.zone.strength == b.zone.strength && rank(a.zone.id) <= rank(b.zone.id))
  }

  function Recency(rank: ZoneId -> int): (Bundle, Bundle) -> bool {
    (a: Bundle, b: Bundle) => NotAfter(rank, a, b)
  }

  predicate EventNotAfter(rank: EventId -> int, a: RawEvent, b: RawEvent) {
    a.observedAt < b.observedAt || (a.observedAt == b.observedAt && rank(a.id) <= rank(b.id))
  }

  function EventOrder(rank: EventId -> int): (Event, Event) -> bool {
    (a: Event, b: Event) => EventNotAfter(rank, a, b)
  }

  /** The primary zone with its events: the most recent event-bearing zone, else the strongest. */
  function Primary(zones: seq<Zone>, bundles: seq<Bundle>, rank: ZoneId -> int): Option<Bundle> {
    var bearing := Filter(bundles, HasEvents);
    if bearing != [] then Some(MaxBy(bearing, Recency(rank)))
    else if zones != [] then Some(Bundle(zones[0], []))
    else None
  }

  /** The digests' orders are unknown to the model; every result holds for all of them. */
  datatype Ranks = Ranks(zone: ZoneId -> int, event: EventId -> int)

  function Assemble(b: Batch, zones: seq<Zone>, bundles: seq<Bundle>, ranks: Ranks): Analysis {
    var primary := Primary(zones, bundles, ranks.zone);
    var primaryZone := if primary.Some? then Some(primary.value.zone) else None;
    var primaryEvents := if primary.Some? then primary.value.events else [];
    Analysis(b.source, b.symbol, b.interval, b.fetchedAt, zones, primaryZone,
             Sort(EventsIn(bundles), EventOrder(ranks.event)),
             EvidenceFrom(primaryZone, primaryEvents, b.source, b.symbol, b.interval, b.fetchedAt))
  }

  function AnalyzeHigherTimeframe(b: Batch, zoneRules: ZoneRules, eventRules: EventRules, ranks: Ranks): Result<Analysis> {
    if b.interval !in {D1, H4} then Err(UnsupportedInterval)
    else
      match DeriveSupportZones(b.candles, zoneRules, ranks.zone)
      case Err(fault) => Err(fault)
      case Ok(zones) =>
        match BundlesOf(zones, b.candles, eventRules)
        case Err(fault) => Err(fault)
        case Ok(bundles) =>
          var analysis := Assemble(b, zones, bundles, ranks);
          if analysis.Valid() then Ok(analysis) else Err(InvalidAnalysis)
  }

  // ----- Bundles

  lemma {:induction false} BundleFacts(zones: seq<Zone>, candles: seq<Candle>, rules: EventRules)
    requires BundlesOf(zones, candles, rules).Ok?
    ensures var bundles := BundlesOf(zones, candles, rules).value;
            && |bundles| == |zones|
            && forall i :: 0 <= i < |zones| ==>
                 bundles[i].zone == zones[i]
                 && BuildStructureEvents(zones[i], candles, rules) == Ok(bundles[i].events)
  {
    hide BuildStructureEvents;
    if zones != [] {
      BundleFacts(zones[..|zones| - 1], candles, rules);
    }
  }

  lemma {:induction false} BundlesNeverRaise(zones: seq<Zone>, candles: seq<Candle>, rules: EventRules)
    requires forall z :: z in zones ==> BuildStructureEvents(z, candles, rules).Ok?
    ensures BundlesOf(zones, candles, rules).Ok?
  {
    hide BuildStructureEvents;
    if zones != [] {
      BundlesNeverRaise(zones[..|zones| - 1], candles, rules);
      assert zones[|zones| - 1] in zones;
    }
  }

  lemma {:induction false} EventsInMember(bundles: seq<Bundle>, e: Event)
    ensures e in EventsIn(bundles) <==> exists i :: 0 <= i < |bundles| && e in bundles[i].events
  {
    if bundles != [] {
      var n := |bundles|;
      EventsInMember(bundles[..n - 1], e);
      if e in bundles[n - 1].events {
        assert e in EventsIn(bundles);
      } else if exists i :: 0 <= i < n && e in bundles[i].events {
        var i :| 0 <= i < n && e in bundles[i].events;
        assert e in bundles[..n - 1][i].events;
      }
    }
  }

  /** The events of the analysis are exactly the events of its zones. */
  ghost predicate EventsComeFromZones(a: Analysis, candles: seq<Candle>, rules: EventRules) {
    forall e: Event :: e in a.events <==> exists z :: z in a.zones && EventOf(z, candles, rules, e)
  }

  ghost predicate EventOf(z: Zone, candles: seq<Candle>, rules: EventRules, e: Event) {
    BuildStructureEvents(z, candles, rules).Ok? && e in BuildStructureEvents(z, candles, rules).value
  }

  lemma AssembledEvents(b: Batch, zones: seq<Zone>, rules: EventRules, ranks: Ranks)
    requires BundlesOf(zones, b.candles, rules).Ok?
    ensures EventsComeFromZones(Assemble(b, zones, BundlesOf(zones, b.candles, rules).value, ranks), b.candles, rules)
  {
    hide BuildStructureEvents, Sort, Primary, EvidenceFrom, EventsIn;
    var bundles := BundlesOf(zones, b.candles, rules).value;
    var a := Assemble(b, zones, bundles, ranks);
    BundleFacts(zones, b.candles, rules);
    SameElements(a.events, EventsIn(bundles));
    forall e: Event
      ensures e in a.events <==> exists z :: z in a.zones && EventOf(z, b.candles, rules, e)
    {
      EventsInMember(bundles, e);
      if e in a.events {
        var i :| 0 <= i < |bundles| && e in bundles[i].events;
        assert zones[i] in a.zones && EventOf(zones[i], b.candles, rules, e);
      }
      if exists z :: z in a.zones && EventOf(z, b.candles, rules, e) {
        var z :| z in a.zones && EventOf(z, b.candles, rules, e);
        var i :| 0 <= i < |zones| && zones[i] == z;
        assert e in bundles[i].events;
      }
    }
  }

  /** All closes clear the floor when all padded lows do. */
  lemma ClosesClearFloor(candles: seq<Candle>, rules: ZoneRules)
    requires Buildable(candles, rules)
    ensures forall i :: 0 <= i < |candles| ==> FLOOR <= candles[i].low <= candles[i].close
  {
    hide Padded;
    forall i | 0 <= i < |candles| ensures FLOOR <= candles[i].low <= candles[i].close {
      PaddedIsBelow(candles[i].low, rules);
    }
  }

  lemma ZoneEventsNeverRaise(z: Zone, candles: seq<Candle>, rules: EventRules)
    requires Stream(candles, z.source, z.symbol, z.interval)
    requires forall i :: 0 <= i < |candles| ==> candles[i].close >= FLOOR
    ensures BuildStructureEvents(z, candles, rules).Ok?
  {
    hide EventsOf, Filter;
    var relevant := Filter(candles, Since(z));
    forall i | 0 <= i < |relevant| ensures relevant[i].close >= FLOOR {
      assert relevant[i] in relevant;
    }
    EventsAccepted(z, relevant, rules);
  }

  // ----- The analysis of a batch

  /** What the other engines may rely on about the analysis of a batch. */
  ghost predicate SoundAnalysis(a: Analysis, b: Batch, zoneRules: ZoneRules, eventRules: EventRules) {
    && a.source == b.source && a.symbol == b.symbol && a.interval == b.interval
    && (forall z :: z in a.zones ==> SoundZone(z, b.candles, zoneRules, b.source, b.symbol, b.interval))
    && (forall z :: z in a.zones ==> BuildStructureEvents(z, b.candles, eventRules).Ok?)
    && (forall y, z :: y in a.zones && z in a.zones && y.id == z.id ==> y == z)
    && EventsComeFromZones(a, b.candles, eventRules)
  }

  /** The zones of a buildable batch and their bundles are derived without a fault. */
  lemma PartsNeverRaise(b: Batch, zoneRules: ZoneRules, eventRules: EventRules, ranks: Ranks)
    requires b.interval in {D1, H4} && Buildable(b.candles, zoneRules)
    ensures DeriveSupportZones(b.candles, zoneRules, ranks.zone).Ok?
    ensures BundlesOf(DeriveSupportZones(b.candles, zoneRules, ranks.zone).value, b.candles, eventRules).Ok?
  {
    hide BuildStructureEvents, DeriveSupportZones, Buildable, Stream;
    DerivationNeverRaises(b.candles, zoneRules, ranks.zone, b.source, b.symbol, b.interval);
    DerivedZonesSound(b.candles, zoneRules, ranks.zone, b.source, b.symbol, b.interval);
    ClosesClearFloor(b.candles, zoneRules);
    var zones := DeriveSupportZones(b.candles, zoneRules, ranks.zone).value;
    forall z | z in zones ensures BuildStructureEvents(z, b.candles, eventRules).Ok? {
      ZoneEventsNeverRaise(z, b.candles, eventRules);
    }
    BundlesNeverRaise(zones, b.candles, eventRules);
  }

  lemma EventMatchesZone(z: Zone, candles: seq<Candle>, rules: EventRules, e: Event)
    requires EventOf(z, candles, rules, e)
    ensures e.zoneId == z.id && e.source == z.source && e.symbol == z.symbol && e.interval == z.interval
  {
    hide EventsOf, Filter;
    var i := EventHasCandle(z, Filter(candles, Since(z)), rules, e);
  }

  /** The primary bundle is one of the bundles, or the strongest zone with no events. */
  lemma PrimaryIsBundle(zones: seq<Zone>, candles: seq<Candle>, rules: EventRules, rank: ZoneId -> int)
    requires BundlesOf(zones, candles, rules).Ok?
    ensures var bundles := BundlesOf(zones, candles, rules).value;
            var p := Primary(zones, bundles, rank);
            && (p.None? <==> zones == [])
            && (p.Some? ==> p.value in bundles && p.value.zone in zones
                            && BuildStructureEvents(p.value.zone, candles, rules) == Ok(p.value.events))
  {
    hide BuildStructureEvents, MaxBy;
    var bundles := BundlesOf(zones, candles, rules).value;
    BundleFacts(zones, candles, rules);
    var bearing := Filter(bundles, HasEvents);
    if bearing != [] {
      var m := MaxBy(bearing, Recency(rank));
      assert m in bundles;
      var i :| 0 <= i < |bundles| && bundles[i] == m;
      assert zones[i] in zones;
    } else if zones != [] {
      FilterEmpty(bundles, HasEvents);
      assert bundles[0] in bundles;
      assert bundles[0] == Bundle(zones[0], []);
    }
  }

  lemma AssembledIsValid(b: Batch, zones: seq<Zone>, zoneRules: ZoneRules, rules: EventRules, ranks: Ranks)
    requires b.interval in {D1, H4} && BundlesOf(zones, b.candles, rules).Ok?
    requires forall z :: z in zones ==> SoundZone(z, b.candles, zoneRules, b.source, b.symbol, b.interval)
    ensures Assemble(b, zones, BundlesOf(zones, b.candles, rules).value, ranks).Valid()
  {
    hide BuildStructureEvents, Sort, Primary, BundlesOf, EventOf, EventsIn, Witnessed, WidthBps, Stream;
    var bundles := BundlesOf(zones, b.candles, rules).value;
    var a := Assemble(b, zones, bundles, ranks);
    PrimaryIsBundle(zones, b.candles, rules, ranks.zone);
    AssembledEvents(b, zones, rules, ranks);
    forall e | e in a.events ensures e.source == a.source && e.symbol == a.symbol && e.interval == a.interval {
      var z :| z in a.zones && EventOf(z, b.candles, rules, e);
      EventMatchesZone(z, b.candles, rules, e);
    }
  }

  /** Whatever the rules, everything in an analysis that was returned is sound. */
  lemma AnalysisIsSound(b: Batch, zoneRules: ZoneRules, eventRules: EventRules, ranks: Ranks)
    requires AnalyzeHigherTimeframe(b, zoneRules, eventRules, ranks).Ok?
    ensures SoundAnalysis(AnalyzeHigherTimeframe(b, zoneRules, eventRules, ranks).value, b, zoneRules, eventRules)
  {
    hide DeriveSupportZones, BundlesOf, SoundZone, BuildStructureEvents, Primary, Sort, EventsIn, EvidenceFrom, EventsComeFromZones;
    var zones := DeriveSupportZones(b.candles, zoneRules, ranks.zone).value;
    DerivedZonesSound(b.candles, zoneRules, ranks.zone, b.source, b.symbol, b.interval);
    BundleFacts(zones, b.candles, eventRules);
    AssembledEvents(b, zones, eventRules, ranks);
  }

  /** The analysis of a buildable batch never raises. */
  lemma AnalysisNeverRaises(b: Batch, zoneRules: ZoneRules, eventRules: EventRules, ranks: Ranks)
    requires b.interval in {D1, H4} && Buildable(b.candles, zoneRules)
    ensures AnalyzeHigherTimeframe(b, zoneRules, eventRules, ranks).Ok?
  {
    hide DeriveSupportZones, BundlesOf, SoundZone, BuildStructureEvents, Primary, Sort, EventsIn, EvidenceFrom;
    PartsNeverRaise(b, zoneRules, eventRules, ranks);
    var zones := DeriveSupportZones(b.candles, zoneRules, ranks.zone).value;
    DerivedZonesSound(b.candles, zoneRules, ranks.zone, b.source, b.symbol, b.interval);
    AssembledIsValid(b, zones, zoneRules, eventRules, ranks);
  }

  /** What an evidence status says about the candles from `m` on, in prices. */
  ghost predicate StatusMeans(status: TimeframeStatus, z: Zone, candles: seq<Candle>, rules: EventRules, m: int) {
    match status
    case Damaged => exists b :: BrokenAt(z, candles, rules, m, b) && NeverReturned(z, candles, b)
    case Recovered => exists b, i :: BrokenAt(z, candles, rules, m, b) && ReturnedAt(z, candles, b, i)
    case Lapsed => exists i :: LapsedAt(z, candles, rules, m, i)
    case Watch => StillOpen(z, candles, rules, m) && Dipped(z, candles, m)
    case Intact => StillOpen(z, candles, rules, m) && !Dipped(z, candles, m)
    case Insufficient => false
  }

  lemma StatusOfEnding(z: Zone, candles: seq<Candle>, rules: EventRules, m: nat, status: TimeframeStatus)
    requires m <= |candles|
    ensures var ending := Ending(EventsOf(z, candles[m..], rules));
            (if ending.None? then Intact else StatusOf(ending.value)) == status <==> StatusMeans(status, z, candles, rules, m)
  {
    hide EventsOf, BrokenAt, NeverReturned, ReturnedAt, LapsedAt, StillOpen, Dipped;
    EndingExactly(z, candles, rules, m, None);
    EndingExactly(z, candles, rules, m, Some(PendingBreak));
    EndingExactly(z, candles, rules, m, Some(ConfirmedBreak));
    EndingExactly(z, candles, rules, m, Some(Invalidated));
    EndingExactly(z, candles, rules, m, Some(FakeBreak));
    EndingExactly(z, candles, rules, m, Some(Reclaimed));
  }

  /** Every status of the evidence, read from the candles of the batch: there is no zone, or the
      status describes the primary zone from the first candle after its confirmation on. */
  lemma EvidenceMeaning(b: Batch, zoneRules: ZoneRules, eventRules: EventRules, ranks: Ranks, m: nat, status: TimeframeStatus)
    requires AnalyzeHigherTimeframe(b, zoneRules, eventRules, ranks).Ok?
    requires var a := AnalyzeHigherTimeframe(b, zoneRules, eventRules, ranks).value;
             a.primary.Some? ==> StartsAt(a.primary.value, b.candles, m)
    ensures var a := AnalyzeHigherTimeframe(b, zoneRules, eventRules, ranks).value;
            && (a.primary.None? <==> a.zones == []) && (a.primary.Some? ==> a.primary.value in a.zones)
            && (a.evidence.status == Insufficient <==> a.zones == [])
            && (a.primary.Some? ==>
                  (a.evidence.status == status <==> StatusMeans(status, a.primary.value, b.candles, eventRules, m)))
  {
    hide DeriveSupportZones, BundlesOf, Primary, Sort, EventsIn, EventsOf, Filter, StatusMeans, Stream, StartsAt;
    var a := AnalyzeHigherTimeframe(b, zoneRules, eventRules, ranks).value;
    PrimaryIsBundle(a.zones, b.candles, eventRules, ranks.zone);
    var bundles := BundlesOf(a.zones, b.candles, eventRules).value;
    assert a == Assemble(b, a.zones, bundles, ranks);
    var primary := Primary(a.zones, bundles, ranks.zone);
    if primary.Some? {
      var z := primary.value.zone;
      StartWithin(z, b.candles, m);
      RunsFrom(z, b.candles, eventRules, m);
      StatusOfEnding(z, b.candles, eventRules, m, status);
    }
  }

  lemma StartWithin(z: Zone, candles: seq<Candle>, m: int)
    requires StartsAt(z, candles, m)
    ensures 0 <= m <= |candles|
  {
  }

  /** The last event of a zone in the analysis. */
  ghost predicate EndsWith(z: Zone, candles: seq<Candle>, rules: EventRules, e: Event) {
    var r := BuildStructureEvents(z, candles, rules);
    r.Ok? && r.value != [] && r.value[|r.value| - 1] == e
  }

  /** The primary zone ends with the evidence, and no zone ends later; of those that end at the same
      time it is the strongest, and of equally strong ones it ranks highest. Without events it is the
      first of the ranked zones and the evidence is as old as the batch. */
  ghost predicate PrimaryChosen(a: Analysis, b: Batch, rules: EventRules, rank: ZoneId -> int)
    requires a.primary.Some? && a.zones != []
  {
    var z := a.primary.value;
    && a.evidence.zoneId == Some(z.id)
    && (a.events == [] ==> z == a.zones[0] && a.evidence.observedAt == b.fetchedAt && a.evidence.eventId == None)
    && (a.events != [] ==>
          && (exists e :: EndsWith(z, b.candles, rules, e) && a.evidence.observedAt == e.observedAt && a.evidence.eventId == Some(e.id))
          && forall y, e :: y in a.zones && EndsWith(y, b.candles, rules, e) ==>
               || e.observedAt < a.evidence.observedAt
               || (e.observedAt == a.evidence.observedAt && y.strength < z.strength)
               || (e.observedAt == a.evidence.observedAt && y.strength == z.strength && rank(y.id) <= rank(z.id)))
  }

  lemma PrimaryMeaning(b: Batch, zoneRules: ZoneRules, eventRules: EventRules, ranks: Ranks)
    requires AnalyzeHigherTimeframe(b, zoneRules, eventRules, ranks).Ok?
    ensures var a := AnalyzeHigherTimeframe(b, zoneRules, eventRules, ranks).value;
            && DeriveSupportZones(b.candles, zoneRules, ranks.zone) == Ok(a.zones)
            && a.source == b.source && a.symbol == b.symbol && a.interval == b.interval && a.observedAt == b.fetchedAt
            && a.evidence.source == b.source && a.evidence.symbol == b.symbol && a.evidence.interval == b.interval
            && (a.primary.None? ==> a.evidence.observedAt == b.fetchedAt && a.evidence.zoneId == None && a.evidence.eventId == None)
            && (a.primary.Some? ==> a.zones != [] && PrimaryChosen(a, b, eventRules, ranks.zone))
  {
    hide DeriveSupportZones, BundlesOf, Primary, Sort, EventsIn, BuildStructureEvents, PrimaryChosen;
    var a := AnalyzeHigherTimeframe(b, zoneRules, eventRules, ranks).value;
    PrimaryIsBundle(a.zones, b.candles, eventRules, ranks.zone);
    var bundles := BundlesOf(a.zones, b.candles, eventRules).value;
    assert a == Assemble(b, a.zones, bundles, ranks);
    if a.primary.Some? {
      PrimaryIsChosen(b, a.zones, eventRules, ranks);
    }
  }

  lemma PrimaryIsChosen(b: Batch, zones: seq<Zone>, rules: EventRules, ranks: Ranks)
    requires BundlesOf(zones, b.candles, rules).Ok? && zones != []
    requires Assemble(b, zones, BundlesOf(zones, b.candles, rules).value, ranks).primary.Some?
    ensures PrimaryChosen(Assemble(b, zones, BundlesOf(zones, b.candles, rules).value, ranks), b, rules, ranks.zone)
  {
    hide BundlesOf, Sort, EventsIn, BuildStructureEvents, MaxBy, Filter;
    var bundles := BundlesOf(zones, b.candles, rules).value;
    var a := Assemble(b, zones, bundles, ranks);
    BundleFacts(zones, b.candles, rules);
    SameElements(a.events, EventsIn(bundles));
    var bearing := Filter(bundles, HasEvents);
    if bearing == [] {
      NoEvents(bundles);
      assert a.events == [];
    } else {
      RecencyIsTotal(ranks.zone);
      MaxByGreatest(bearing, Recency(ranks.zone));
      var p := MaxBy(bearing, Recency(ranks.zone));
      assert p in bundles && p.events != [];
      var i :| 0 <= i < |bundles| && bundles[i] == p;
      var e := p.events[|p.events| - 1];
      EventsInMember(bundles, e);
      assert e in a.events && EndsWith(p.zone, b.candles, rules, e);
      forall y, x | y in zones && EndsWith(y, b.candles, rules, x)
        ensures LastSeen(p) == e.observedAt && NotAfter(ranks.zone, Bundle(y, BuildStructureEvents(y, b.candles, rules).value), p)
        ensures LastSeen(Bundle(y, BuildStructureEvents(y, b.candles, rules).value)) == x.observedAt
      {
        var j :| 0 <= j < |zones| && zones[j] == y;
        FilterComplete(bundles, HasEvents, bundles[j]);
        assert Recency(ranks.zone)(bundles[j], p);
      }
    }
  }

  lemma {:induction false} NoEvents(bundles: seq<Bundle>)
    requires Filter(bundles, HasEvents) == []
    ensures EventsIn(bundles) == []
  {
    FilterEmpty(bundles, HasEvents);
    if bundles != [] {
      var n := |bundles|;
      assert bundles[n - 1] in bundles;
      assert bundles == bundles[..n - 1] + [bundles[n - 1]];
      FilterAppend(bundles[..n - 1], [bundles[n - 1]], HasEvents);
      NoEvents(bundles[..n - 1]);
    }
  }

  /** The merged events are in time order, ties in the order of the digests. */
  lemma EventsInOrder(b: Batch, zoneRules: ZoneRules, eventRules: EventRules, ranks: Ranks, i: nat, j: nat)
    requires AnalyzeHigherTimeframe(b, zoneRules, eventRules, ranks).Ok?
    requires i < j < |AnalyzeHigherTimeframe(b, zoneRules, eventRules, ranks).value.events|
    ensures var events := AnalyzeHigherTimeframe(b, zoneRules, eventRules, ranks).value.events;
            || events[i].observedAt < events[j].observedAt
            || (events[i].observedAt == events[j].observedAt && ranks.event(events[i].id) <= ranks.event(events[j].id))
  {
    hide DeriveSupportZones, BundlesOf, Primary, Sort, EventsIn;
    var a := AnalyzeHigherTimeframe(b, zoneRules, eventRules, ranks).value;
    var bundles := BundlesOf(a.zones, b.candles, eventRules).value;
    assert a == Assemble(b, a.zones, bundles, ranks);
    EventOrderIsTotal(ranks.event);
    SortSorts(EventsIn(bundles), EventOrder(ranks.event));
    assert EventOrder(ranks.event)(a.events[i], a.events[j]);
  }

  lemma EventOrderIsTotal(rank: EventId -> int)
    ensures TotalPreorder(EventOrder(rank))
  {
  }

  /** Damaged evidence is a confirmed break of the analysis. */
  lemma DamagedByBreak(b: Batch, zoneRules: ZoneRules, eventRules: EventRules, ranks: Ranks) returns (e: Event)
    requires AnalyzeHigherTimeframe(b, zoneRules, eventRules, ranks).Ok?
    requires AnalyzeHigherTimeframe(b, zoneRules, eventRules, ranks).value.evidence.status == Damaged
    ensures var a := AnalyzeHigherTimeframe(b, zoneRules, eventRules, ranks).value;
            e in a.events && e.state == ConfirmedBreak && e.observedAt == a.evidence.observedAt
  {
    hide DeriveSupportZones, BundlesOf, Primary, Sort, EventsIn, BuildStructureEvents;
    var a := AnalyzeHigherTimeframe(b, zoneRules, eventRules, ranks).value;
    PrimaryIsBundle(a.zones, b.candles, eventRules, ranks.zone);
    AssembledEvents(b, a.zones, eventRules, ranks);
    var bundles := BundlesOf(a.zones, b.candles, eventRules).value;
    assert a == Assemble(b, a.zones, bundles, ranks);
    var primary := Primary(a.zones, bundles, ranks.zone).value;
    e := primary.events[|primary.events| - 1];
    assert EventOf(primary.zone, b.candles, eventRules, e);
  }

  // ----- The most recent event decides

  lemma RecencyIsTotal(rank: ZoneId -> int)
    ensures TotalPreorder(Recency(rank))
  {
  }

  /** No event of any zone is observed after the evidence: the primary zone holds the latest one. */
  lemma EvidenceIsLatest(b: Batch, zoneRules: ZoneRules, eventRules: EventRules, ranks: Ranks, e: Event)
    requires AnalyzeHigherTimeframe(b, zoneRules, eventRules, ranks).Ok?
    requires e in AnalyzeHigherTimeframe(b, zoneRules, eventRules, ranks).value.events
    ensures e.observedAt <= AnalyzeHigherTimeframe(b, zoneRules, eventRules, ranks).value.evidence.observedAt
  {
    hide DeriveSupportZones, BundlesOf, Sort, BuildStructureEvents, Filter, MaxBy, EventsIn;
    var a := AnalyzeHigherTimeframe(b, zoneRules, eventRules, ranks).value;
    var bundles := BundlesOf(a.zones, b.candles, eventRules).value;
    assert a == Assemble(b, a.zones, bundles, ranks);
    var i := EventBundle(b, a.zones, eventRules, ranks, e);
    LastIsLatest(a.zones[i], b.candles, eventRules, e);
    MostRecentBundle(bundles, ranks.zone, bundles[i]);
  }

  lemma EventBundle(b: Batch, zones: seq<Zone>, rules: EventRules, ranks: Ranks, e: Event) returns (i: nat)
    requires BundlesOf(zones, b.candles, rules).Ok?
    requires e in Assemble(b, zones, BundlesOf(zones, b.candles, rules).value, ranks).events
    ensures var bundles := BundlesOf(zones, b.candles, rules).value;
            && i < |bundles| == |zones| && e in bundles[i].events && bundles[i].zone == zones[i]
            && BuildStructureEvents(zones[i], b.candles, rules) == Ok(bundles[i].events)
  {
    hide Sort, BuildStructureEvents, EventsIn, BundlesOf, Primary, EvidenceFrom;
    var bundles := BundlesOf(zones, b.candles, rules).value;
    BundleFacts(zones, b.candles, rules);
    SameElements(Assemble(b, zones, bundles, ranks).events, EventsIn(bundles));
    EventsInMember(bundles, e);
    i :| 0 <= i < |bundles| && e in bundles[i].events;
  }

  lemma LastIsLatest(z: Zone, candles: seq<Candle>, rules: EventRules, e: Event)
    requires EventOf(z, candles, rules, e)
    ensures var events := BuildStructureEvents(z, candles, rules).value;
            e.observedAt <= events[|events| - 1].observedAt
  {
    hide EventsOf, Filter;
    var s := Filter(candles, Since(z));
    FilterStream(candles, Since(z), z.source, z.symbol, z.interval);
    var events := EventsOf(z, s, rules);
    var k :| 0 <= k < |events| && events[k] == e;
    if k < |events| - 1 {
      EventTimesRise(z, s, rules, k, |events| - 1);
    }
  }

  lemma MostRecentBundle(bundles: seq<Bundle>, rank: ZoneId -> int, b: Bundle)
    requires b in bundles && HasEvents(b)
    ensures var bearing := Filter(bundles, HasEvents);
            bearing != [] && HasEvents(MaxBy(bearing, Recency(rank)))
            && LastSeen(b) <= LastSeen(MaxBy(bearing, Recency(rank)))
  {
    hide MaxBy;
    var bearing := Filter(bundles, HasEvents);
    FilterComplete(bundles, HasEvents, b);
    RecencyIsTotal(rank);
    MaxByGreatest(bearing, Recency(rank));
    assert Recency(rank)(b, MaxBy(bearing, Recency(rank)));
  }

  // ----- The engine as written

  method AnalyzeTimeframe(b: Batch, zoneRules: ZoneRules, eventRules: EventRules, ranks: Ranks) returns (r: Result<Analysis>)
    ensures r == AnalyzeHigherTimeframe(b, zoneRules, eventRules, ranks)
  {
    hide DeriveSupportZones, BuildStructureEvents, Primary, Sort, EvidenceFrom;
    if b.interval !in {D1, H4} {
      return Err(UnsupportedInterval);
    }
    var derived := DeriveZones(b.candles, zoneRules, ranks.zone);
    if derived.Err? {
      return Err(derived.fault);
    }
    var zones := derived.value;
    var bundles: seq<Bundle> := [];
    var allEvents: seq<Event> := [];
    for n := 0 to |zones|
      invariant BundlesOf(zones[..n], b.candles, eventRules) == Ok(bundles)
      invariant allEvents == EventsIn(bundles)
    {
      assert zones[..n + 1][..n] == zones[..n];
      var built := BuildEvents(zones[n], b.candles, eventRules);
      if built.Err? {
        BundleFaultSticks(zones, b.candles, eventRules, n + 1);
        return Err(built.fault);
      }
      var next := bundles + [Bundle(zones[n], built.value)];
      assert next[..|bundles|] == bundles;
      bundles := next;
      allEvents := allEvents + built.value;
    }
    assert zones[..|zones|] == zones;
    var analysis := Assemble(b, zones, bundles, ranks);
    if analysis.Valid() {
      return Ok(analysis);
    }
    return Err(InvalidAnalysis);
  }

  lemma {:induction false} BundleFaultSticks(zones: seq<Zone>, candles: seq<Candle>, rules: EventRules, n: nat)
    requires n <= |zones| && BundlesOf(zones[..n], candles, rules).Err?
    ensures BundlesOf(zones, candles, rules) == BundlesOf(zones[..n], candles, rules)
    decreases |zones| - n
  {
    hide BuildStructureEvents;
    if n == |zones| {
      assert zones[..n] == zones;
    } else {
      assert zones[..n + 1][..n] == zones[..n];
      BundleFaultSticks(zones, candles, rules, n + 1);
    }
  }
}
