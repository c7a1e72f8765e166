/** The break/reclaim machine of one zone (app/structure/structure_events.py). */
module StructureEvents {
  import opened Basics
  import opened Candles
  import opened Pivots
  import opened Reals
  import opened Rounding
  import opened Streams
  import opened SupportZones

  datatype EventState = PendingBreak | ConfirmedBreak | FakeBreak | Reclaimed | Invalidated

  datatype EventId = EventId(zone: ZoneId, openTime: int, closeTime: int, state: EventState)

  datatype RawEvent = RawEvent(
    id: EventId, zoneId: ZoneId, source: Source, symbol: string, interval: Interval,
    state: EventState, observedAt: int, candleOpenTime: int, closePrice: real,
    zoneLow: real, zoneHigh: real, distanceBps: real, bodyFraction: real,
    volumeRatio: Option<real>, invalidates: Option<EventId>, barsAfterBreak: Option<int>)
  {
    predicate Valid() {
      && symbol != "" && interval in {D1, H4}
      && observedAt > candleOpenTime
      && closePrice >= FLOOR
      && FLOOR <= zoneLow < zoneHigh
      && distanceBps >= 0.0
      && 0.0 <= bodyFraction <= 1.0
      && (volumeRatio.Some? ==> volumeRatio.value >= 0.0)
    }
  }

  /** An event the constructor accepted. */
  type Event = e: RawEvent | e.Valid()
    witness
      var zone := ZoneId(Bybit, "X", D1, 1.0, 2.0, 2, [0, 1]);
      RawEvent(EventId(zone, 0, 86400, PendingBreak), zone, Bybit, "X", D1, PendingBreak, 86400, 0,
               1.0, 1.0, 2.0, 0.0, 0.0, None, None, None)

  datatype RawEventRules = RawEventRules(
    minimumDistanceBps: real, minimumBodyFraction: real, fakeBreakMaxBars: int,
    maximumZoneAgeBars: int, volumeLookback: int)
  {
    predicate Valid() {
      && minimumDistanceBps >= 0.0 && 0.0 <= minimumBodyFraction <= 1.0
      && fakeBreakMaxBars >= 1 && maximumZoneAgeBars >= 1 && volumeLookback >= 1
    }
  }

  type EventRules = r: RawEventRules | r.Valid() witness DEFAULT_EVENT_RULES

  const DEFAULT_EVENT_RULES := RawEventRules(10.0, 0.45, 3, 100, 5)

  /** Body over range, rounded to four places; this rounded value is what is compared. */
  function BodyFraction(c: Candle): real {
    if c.high == c.low then 0.0
    else Quantize((if c.close >= c.open then c.close - c.open else c.open - c.close) / (c.high - c.low), 10000.0)
  }

  function VolumeRatio(s: seq<Candle>, index: nat, lookback: nat): Option<real>
    requires index < |s|
  {
    var history := s[if index < lookback then 0 else index - lookback..index];
    if history == [] then None
    else
      var average := TotalVolume(history) / |history| as real;
      if average == 0.0 then None else Some(Quantize(s[index].volume / average, 10000.0))
  }

  predicate Under(z: Zone, c: Candle) { c.close < z.low }

  function DistanceUnder(z: Zone, c: Candle): real { (z.low - c.close) / z.low * BPS }

  function DistanceOver(z: Zone, c: Candle): real { (c.close - z.high) / z.high * BPS }

  /** A close under the zone that is far enough and has a large enough body. */
  predicate Confirms(z: Zone, rules: EventRules, c: Candle) {
    && Under(z, c)
    && DistanceUnder(z, c) >= rules.minimumDistanceBps
    && BodyFraction(c) >= rules.minimumBodyFraction
  }

  /** A candle past the age limit that does not close under the zone. */
  predicate Expires(z: Zone, rules: EventRules, c: Candle, i: int) {
    !Under(z, c) && i + 1 > rules.maximumZoneAgeBars
  }

  function Settles(z: Zone, rules: EventRules): (Candle, int) -> bool {
    (c: Candle, i: int) => Confirms(z, rules, c) || Expires(z, rules, c, i)
  }

  function Dips(z: Zone): (Candle, int) -> bool { (c: Candle, i: int) => Under(z, c) }

  /** The candle closed above the zone. */
  predicate Over(z: Zone, c: Candle) { c.close > z.high }

  function ClosesAbove(z: Zone): (Candle, int) -> bool { (c: Candle, i: int) => Over(z, c) }

  function MakeEvent(z: Zone, s: seq<Candle>, rules: EventRules, i: nat, state: EventState,
                     distance: real, invalidates: Option<EventId>, bars: Option<int>): RawEvent
    requires i < |s|
  {
    var c := s[i];
    RawEvent(
      EventId(z.id, c.openTime, c.CloseTime(), state), z.id, z.source, z.symbol, z.interval, state,
      c.CloseTime(), c.openTime, c.close, z.low, z.high, Quantize(distance, 100.0), BodyFraction(c),
      VolumeRatio(s, i, rules.volumeLookback), invalidates, bars)
  }

  function PendingAt(z: Zone, s: seq<Candle>, rules: EventRules, i: nat): RawEvent
    requires i < |s|
  {
    MakeEvent(z, s, rules, i, PendingBreak, DistanceUnder(z, s[i]), None, None)
  }

  function ConfirmedAt(z: Zone, s: seq<Candle>, rules: EventRules, i: nat): RawEvent
    requires i < |s|
  {
    MakeEvent(z, s, rules, i, ConfirmedBreak, DistanceUnder(z, s[i]), None, None)
  }

  function InvalidatedAt(z: Zone, s: seq<Candle>, rules: EventRules, i: nat): RawEvent
    requires i < |s|
  {
    MakeEvent(z, s, rules, i, Invalidated, 0.0, None, None)
  }

  /** The closing event at `i` of the break at `broke`. */
  function ClosingAt(z: Zone, s: seq<Candle>, rules: EventRules, broke: nat, i: nat): RawEvent
    requires broke < i < |s|
  {
    MakeEvent(z, s, rules, i, if i - broke <= rules.fakeBreakMaxBars then FakeBreak else Reclaimed,
              DistanceOver(z, s[i]), Some(ConfirmedAt(z, s, rules, broke).id), Some(i - broke))
  }

  function AfterBreak(z: Zone, s: seq<Candle>, rules: EventRules, broke: nat): seq<RawEvent>
    requires broke < |s|
  {
    var back := First(s, ClosesAbove(z), broke + 1);
    if back == |s| then [] else [ClosingAt(z, s, rules, broke, back)]
  }

  /** The events of the candles since confirmation, stated by first occurrences: the first candle
      that settles the zone (confirming a break or expiring it), the first close under the zone if
      that came earlier, and the first later close above the zone if it broke. */
  function EventsOf(z: Zone, s: seq<Candle>, rules: EventRules): seq<RawEvent> {
    var settled := First(s, Settles(z, rules), 0);
    PendingPart(z, s, rules, settled) + SettledPart(z, s, rules, settled)
  }

  function PendingPart(z: Zone, s: seq<Candle>, rules: EventRules, settled: nat): seq<RawEvent>
    requires settled <= |s|
  {
    var dip := First(s, Dips(z), 0);
    if dip < settled then [PendingAt(z, s, rules, dip)] else []
  }

  function SettledPart(z: Zone, s: seq<Candle>, rules: EventRules, settled: nat): seq<RawEvent>
    requires settled <= |s|
  {
    if settled == |s| then []
    else if Confirms(z, rules, s[settled]) then
      [ConfirmedAt(z, s, rules, settled)] + AfterBreak(z, s, rules, settled)
    else [InvalidatedAt(z, s, rules, settled)]
  }

  function Since(z: Zone): Candle -> bool { (c: Candle) => c.openTime >= z.confirmedAt }

  function BuildStructureEvents(z: Zone, candles: seq<Candle>, rules: EventRules): Result<seq<Event>> {
    if !Stream(candles, z.source, z.symbol, z.interval) then Err(InvalidStream)
    else
      var events := EventsOf(z, Filter(candles, Since(z)), rules);
      if AllAccepted(events) then Ok(events) else Err(InvalidEvent)
  }

  predicate AllAccepted(events: seq<RawEvent>) { forall i :: 0 <= i < |events| ==> events[i].Valid() }

  // ----- No look-ahead

  lemma EventIsLocal(z: Zone, s: seq<Candle>, t: seq<Candle>, rules: EventRules, i: nat, state: EventState,
                     distance: real, invalidates: Option<EventId>, bars: Option<int>)
    requires s <= t && i < |s|
    ensures MakeEvent(z, s, rules, i, state, distance, invalidates, bars)
         == MakeEvent(z, t, rules, i, state, distance, invalidates, bars)
  {
    hide Quantize, BodyFraction;
    var from := if i < rules.volumeLookback then 0 else i - rules.volumeLookback;
    assert s[from..i] == t[from..i];
  }

  /** For a fixed zone, events on a prefix are a prefix of the events on the grown stream. */
  lemma EventsOnlyAccumulate(z: Zone, s: seq<Candle>, t: seq<Candle>, rules: EventRules)
    requires s <= t
    ensures EventsOf(z, s, rules) <= EventsOf(z, t, rules)
  {
    hide MakeEvent, DistanceUnder, DistanceOver, Confirms, Expires, Under, First;
    assert forall i :: 0 <= i < |s| ==> s[i] == t[i];
    FirstGrows(s, t, Settles(z, rules), 0);
    FirstGrows(s, t, Dips(z), 0);
    var settled := First(s, Settles(z, rules), 0);
    PendingGrows(z, s, t, rules);
    if settled < |s| {
      SettledGrows(z, s, t, rules, settled);
    }
  }

  lemma PendingGrows(z: Zone, s: seq<Candle>, t: seq<Candle>, rules: EventRules)
    requires s <= t
    ensures var a := PendingPart(z, s, rules, First(s, Settles(z, rules), 0));
            var b := PendingPart(z, t, rules, First(t, Settles(z, rules), 0));
            a == b || (a == [] && First(s, Settles(z, rules), 0) == |s|)
  {
    hide MakeEvent, DistanceUnder, Confirms, Expires, Under, First;
    FirstGrows(s, t, Settles(z, rules), 0);
    FirstGrows(s, t, Dips(z), 0);
    var dip := First(s, Dips(z), 0);
    if dip < |s| {
      EventIsLocal(z, s, t, rules, dip, PendingBreak, DistanceUnder(z, s[dip]), None, None);
    }
  }

  lemma SettledGrows(z: Zone, s: seq<Candle>, t: seq<Candle>, rules: EventRules, settled: nat)
    requires s <= t && settled < |s|
    ensures SettledPart(z, s, rules, settled) <= SettledPart(z, t, rules, settled)
  {
    hide MakeEvent, DistanceUnder, DistanceOver, Confirms, First;
    FirstGrows(s, t, ClosesAbove(z), settled + 1);
    EventIsLocal(z, s, t, rules, settled, ConfirmedBreak, DistanceUnder(z, s[settled]), None, None);
    EventIsLocal(z, s, t, rules, settled, Invalidated, 0.0, None, None);
    var back := First(s, ClosesAbove(z), settled + 1);
    if back < |s| {
      EventIsLocal(z, s, t, rules, back,
                   if back - settled <= rules.fakeBreakMaxBars then FakeBreak else Reclaimed,
                   DistanceOver(z, s[back]), Some(ConfirmedAt(z, s, rules, settled).id), Some(back - settled));
    }
  }

  /** The same for the whole candle stream the engine is given. */
  lemma NoLookAhead(z: Zone, s: seq<Candle>, t: seq<Candle>, rules: EventRules)
    requires s <= t && BuildStructureEvents(z, t, rules).Ok?
    ensures BuildStructureEvents(z, s, rules).Ok?
    ensures BuildStructureEvents(z, s, rules).value <= BuildStructureEvents(z, t, rules).value
  {
    hide EventsOf, Filter;
    FilterGrows(s, t, Since(z));
    EventsOnlyAccumulate(z, Filter(s, Since(z)), Filter(t, Since(z)), rules);
    assert forall i :: 0 <= i < |s| ==> s[i] == t[i];
    var a, b := EventsOf(z, Filter(s, Since(z)), rules), EventsOf(z, Filter(t, Since(z)), rules);
    assert forall i :: 0 <= i < |a| ==> a[i] == b[i];
  }

  // ----- What the event list says about the candles

  /** The zone breaks at `i`: it confirms there and nothing settled it before. */
  ghost predicate BreaksAt(z: Zone, s: seq<Candle>, rules: EventRules, i: int) {
    && 0 <= i < |s| && Confirms(z, rules, s[i])
    && forall j :: 0 <= j < i ==> !Confirms(z, rules, s[j]) && !Expires(z, rules, s[j], j)
  }

  ghost predicate ExpiresAt(z: Zone, s: seq<Candle>, rules: EventRules, i: int) {
    && 0 <= i < |s| && Expires(z, rules, s[i], i)
    && forall j :: 0 <= j < i ==> !Confirms(z, rules, s[j]) && !Expires(z, rules, s[j], j)
  }

  /** The first close above the zone after the break at `broke` is at `i`. */
  ghost predicate ReturnsAt(z: Zone, s: seq<Candle>, broke: int, i: int) {
    && 0 <= broke < i < |s| && Over(z, s[i])
    && forall j :: broke < j < i ==> s[j].close <= z.high
  }

  ghost predicate StaysBelow(z: Zone, s: seq<Candle>, broke: int) {
    forall j :: 0 <= broke < j < |s| ==> s[j].close <= z.high
  }

  ghost predicate Unsettled(z: Zone, s: seq<Candle>, rules: EventRules) {
    forall j :: 0 <= j < |s| ==> !Confirms(z, rules, s[j]) && !Expires(z, rules, s[j], j)
  }

  lemma SettledMeaning(z: Zone, s: seq<Candle>, rules: EventRules)
    ensures var k := First(s, Settles(z, rules), 0);
            if k == |s| then Unsettled(z, s, rules)
            else if Confirms(z, rules, s[k]) then BreaksAt(z, s, rules, k)
            else ExpiresAt(z, s, rules, k)
  {
  }

  lemma BreakIsUnique(z: Zone, s: seq<Candle>, rules: EventRules, i: int)
    requires BreaksAt(z, s, rules, i)
    ensures First(s, Settles(z, rules), 0) == i
  {
  }

  lemma ExpiryIsUnique(z: Zone, s: seq<Candle>, rules: EventRules, i: int)
    requires ExpiresAt(z, s, rules, i)
    ensures First(s, Settles(z, rules), 0) == i && !Confirms(z, rules, s[i])
  {
  }

  lemma ReturnIsUnique(z: Zone, s: seq<Candle>, broke: int, i: int)
    requires ReturnsAt(z, s, broke, i)
    ensures First(s, ClosesAbove(z), broke + 1) == i
  {
  }

  lemma ReturnMeaning(z: Zone, s: seq<Candle>, broke: nat)
    requires broke < |s|
    ensures var k := First(s, ClosesAbove(z), broke + 1);
            if k == |s| then StaysBelow(z, s, broke) else ReturnsAt(z, s, broke, k)
  {
  }

  /** The grammar of every event list, with the links between its members. */
  predicate WellShaped(events: seq<RawEvent>) {
    var rest := if events != [] && events[0].state == PendingBreak then events[1..] else events;
    || rest == []
    || (|rest| == 1 && rest[0].state in {ConfirmedBreak, Invalidated})
    || (|rest| == 2 && rest[0].state == ConfirmedBreak && rest[1].state in {FakeBreak, Reclaimed}
        && rest[1].invalidates == Some(rest[0].id))
  }

  lemma EventsWellShaped(z: Zone, s: seq<Candle>, rules: EventRules)
    ensures WellShaped(EventsOf(z, s, rules))
  {
    hide First, Confirms, Quantize, BodyFraction, VolumeRatio, DistanceUnder, DistanceOver;
    var settled := First(s, Settles(z, rules), 0);
    var p, q := PendingPart(z, s, rules, settled), SettledPart(z, s, rules, settled);
    assert p != [] ==> (p + q)[1..] == q;
    assert p == [] ==> p + q == q;
  }

  function Ending(events: seq<RawEvent>): Option<EventState> {
    if events == [] then None else Some(events[|events| - 1].state)
  }

  /** A broken zone ends in the break, a fake break or a reclaim, according to whether and how
      soon a later candle closes above it. */
  lemma BrokenEnding(z: Zone, s: seq<Candle>, rules: EventRules, b: nat)
    requires BreaksAt(z, s, rules, b)
    ensures var ending := Ending(EventsOf(z, s, rules));
            && (ending == Some(ConfirmedBreak) <==> StaysBelow(z, s, b))
            && (ending == Some(FakeBreak) <==> exists i :: ReturnsAt(z, s, b, i) && i - b <= rules.fakeBreakMaxBars)
            && (ending == Some(Reclaimed) <==> exists i :: ReturnsAt(z, s, b, i) && i - b > rules.fakeBreakMaxBars)
  {
    hide First, Confirms, Expires, Quantize, BodyFraction, VolumeRatio, DistanceUnder, DistanceOver, PendingPart;
    BreakIsUnique(z, s, rules, b);
    ReturnMeaning(z, s, b);
    var back := First(s, ClosesAbove(z), b + 1);
    forall i | ReturnsAt(z, s, b, i) ensures i == back { ReturnIsUnique(z, s, b, i); }
    if back < |s| {
      assert ReturnsAt(z, s, b, back);
    }
  }

  lemma ExpiredEnding(z: Zone, s: seq<Candle>, rules: EventRules, i: nat)
    requires ExpiresAt(z, s, rules, i)
    ensures Ending(EventsOf(z, s, rules)) == Some(Invalidated)
  {
    hide First, Expires, Quantize, BodyFraction, VolumeRatio, DistanceUnder, DistanceOver, PendingPart;
    ExpiryIsUnique(z, s, rules, i);
  }

  lemma UnsettledEnding(z: Zone, s: seq<Candle>, rules: EventRules)
    requires Unsettled(z, s, rules)
    ensures var ending := Ending(EventsOf(z, s, rules));
            if exists i :: 0 <= i < |s| && Under(z, s[i]) then ending == Some(PendingBreak) else ending == None
  {
  }

  // ----- Every event is accepted by its constructor

  lemma BodyFractionRange(c: Candle)
    ensures 0.0 <= BodyFraction(c) <= 1.0
  {
    if c.high != c.low {
      var body := if c.close >= c.open then c.close - c.open else c.open - c.close;
      QuotientCompare(body, c.high - c.low, 0.0);
      QuotientCompare(body, c.high - c.low, 1.0);
      QuantizeBounds(body / (c.high - c.low), 10000.0, 0, 10000);
    }
  }

  lemma VolumeRatioSign(s: seq<Candle>, index: nat, lookback: nat)
    requires index < |s|
    ensures var r := VolumeRatio(s, index, lookback); r.Some? ==> r.value >= 0.0
  {
    var history := s[if index < lookback then 0 else index - lookback..index];
    if history != [] {
      var average := TotalVolume(history) / |history| as real;
      QuotientCompare(TotalVolume(history), |history| as real, 0.0);
      if average != 0.0 {
        QuotientCompare(s[index].volume, average, 0.0);
        QuantizeNonNegative(s[index].volume / average, 10000.0);
      }
    }
  }

  lemma EventAccepted(z: Zone, s: seq<Candle>, rules: EventRules, i: nat, state: EventState,
                      distance: real, invalidates: Option<EventId>, bars: Option<int>)
    requires i < |s| && s[i].close >= FLOOR && distance >= 0.0
    ensures MakeEvent(z, s, rules, i, state, distance, invalidates, bars).Valid()
  {
    hide Quantize, BodyFraction, VolumeRatio;
    BodyFractionRange(s[i]);
    VolumeRatioSign(s, i, rules.volumeLookback);
    QuantizeNonNegative(distance, 100.0);
  }

  lemma DistancesPositive(z: Zone, c: Candle)
    ensures Under(z, c) ==> DistanceUnder(z, c) >= 0.0
    ensures Over(z, c) ==> DistanceOver(z, c) >= 0.0
  {
    QuotientCompare(z.low - c.close, z.low, 0.0);
    QuotientCompare(c.close - z.high, z.high, 0.0);
  }

  lemma EventsAccepted(z: Zone, s: seq<Candle>, rules: EventRules)
    requires forall i :: 0 <= i < |s| ==> s[i].close >= FLOOR
    ensures AllAccepted(EventsOf(z, s, rules))
  {
    hide MakeEvent, DistanceUnder, DistanceOver, Expires;
    var settled, dip := First(s, Settles(z, rules), 0), First(s, Dips(z), 0);
    if dip < |s| {
      DistancesPositive(z, s[dip]);
      EventAccepted(z, s, rules, dip, PendingBreak, DistanceUnder(z, s[dip]), None, None);
    }
    if settled < |s| {
      EventAccepted(z, s, rules, settled, Invalidated, 0.0, None, None);
      if Confirms(z, rules, s[settled]) {
        DistancesPositive(z, s[settled]);
        EventAccepted(z, s, rules, settled, ConfirmedBreak, DistanceUnder(z, s[settled]), None, None);
        var back := First(s, ClosesAbove(z), settled + 1);
        if back < |s| {
          DistancesPositive(z, s[back]);
          EventAccepted(z, s, rules, back, if back - settled <= rules.fakeBreakMaxBars then FakeBreak else Reclaimed,
                        DistanceOver(z, s[back]), Some(ConfirmedAt(z, s, rules, settled).id), Some(back - settled));
        }
      }
    }
  }

  // ----- Where event candles lie

  /** Every event is observed at the close of one of the candles it was derived from. */
  lemma EventHasCandle(z: Zone, s: seq<Candle>, rules: EventRules, e: RawEvent) returns (i: nat)
    requires e in EventsOf(z, s, rules)
    ensures i < |s| && e.candleOpenTime == s[i].openTime && e.observedAt == s[i].CloseTime() && e.closePrice == s[i].close
    ensures e.zoneId == z.id && e.source == z.source && e.symbol == z.symbol && e.interval == z.interval
    ensures e.id == EventId(z.id, s[i].openTime, s[i].CloseTime(), e.state)
    ensures e.zoneLow == z.low && e.zoneHigh == z.high
  {
    hide Quantize, BodyFraction, VolumeRatio, DistanceUnder, DistanceOver, Confirms, First;
    var settled := First(s, Settles(z, rules), 0);
    if e in PendingPart(z, s, rules, settled) {
      i := First(s, Dips(z), 0);
    } else if e == SettledPart(z, s, rules, settled)[0] {
      i := settled;
    } else {
      i := First(s, ClosesAbove(z), settled + 1);
    }
  }

  /** An event candle lies strictly after the full right window of every evidence pivot. */
  lemma EventsFollowEvidence(z: Zone, candles: seq<Candle>, zoneRules: ZoneRules, rules: EventRules, e: Event, t: int)
    requires Witnessed(z, candles, zoneRules) && t in z.evidence
    requires BuildStructureEvents(z, candles, rules).Ok? && e in BuildStructureEvents(z, candles, rules).value
    ensures exists i, k :: 0 <= i && i + zoneRules.pivotRight < k < |candles|
              && candles[i].openTime == t && candles[k].openTime == e.candleOpenTime
  {
    hide EventsOf, Filter, Witnessed;
    var relevant := Filter(candles, Since(z));
    var j := EventHasCandle(z, relevant, rules, e);
    assert relevant[j] in relevant;
    var k :| 0 <= k < |candles| && candles[k] == relevant[j];
    var i := EvidenceIndex(z, candles, zoneRules, t);
    LaterOpenLaterIndex(candles, i + zoneRules.pivotRight, k);
    assert candles[k].openTime == e.candleOpenTime && candles[i].openTime == t;
  }

  lemma EvidenceIndex(z: Zone, s: seq<Candle>, rules: ZoneRules, t: int) returns (i: nat)
    requires Witnessed(z, s, rules) && t in z.evidence
    ensures i + rules.pivotRight < |s| && s[i].openTime == t
    ensures s[i + rules.pivotRight].openTime < z.confirmedAt
  {
    assert EvidenceAt(z, s, rules, t);
    i :| 0 <= i && i + rules.pivotRight < |s| && s[i].openTime == t
         && s[i + rules.pivotRight].CloseTime() <= z.confirmedAt;
    var c := s[i + rules.pivotRight];
    assert c.CloseTime() == c.openTime + Duration(c.interval);
  }

  /** Events are in strict time order. */
  lemma EventTimesRise(z: Zone, s: seq<Candle>, rules: EventRules, i: nat, j: nat)
    requires Stream(s, z.source, z.symbol, z.interval)
    requires i < j < |EventsOf(z, s, rules)|
    ensures EventsOf(z, s, rules)[i].observedAt < EventsOf(z, s, rules)[j].observedAt
  {
    hide Quantize, BodyFraction, VolumeRatio, DistanceUnder, DistanceOver, Confirms, First;
    var settled, dip := First(s, Settles(z, rules), 0), First(s, Dips(z), 0);
    var p, q := PendingPart(z, s, rules, settled), SettledPart(z, s, rules, settled);
    assert forall k :: 0 <= k < |s| ==> s[k].Trades(z.source, z.symbol, z.interval);
    if settled < |s| {
      assert dip < settled ==> s[dip].CloseTime() < s[settled].CloseTime();
      if Confirms(z, rules, s[settled]) {
        var back := First(s, ClosesAbove(z), settled + 1);
        assert back < |s| ==> s[settled].CloseTime() < s[back].CloseTime();
      }
    }
  }

  // ----- The machine as written

  lemma PendingPartIs(z: Zone, s: seq<Candle>, rules: EventRules, n: nat, dip: nat)
    requires dip <= n <= |s| && (forall j :: 0 <= j < dip ==> !Under(z, s[j])) && (dip < n ==> Under(z, s[dip]))
    ensures PendingPart(z, s, rules, n) == if dip < n then [PendingAt(z, s, rules, dip)] else []
  {
  }

  /** The left-to-right loop, with the variables it updates. */
  method RunMachine(z: Zone, s: seq<Candle>, rules: EventRules) returns (events: seq<RawEvent>)
    ensures events == EventsOf(z, s, rules)
  {
    hide MakeEvent, BodyFraction, DistanceUnder, DistanceOver, First, Under, PendingPart;
    events := [];
    var confirmedIndex: Option<nat> := None;
    var pendingEmitted := false;
    ghost var dip := 0;
    for index := 0 to |s|
      invariant confirmedIndex.None? ==>
                  && (forall j :: 0 <= j < index ==> !Confirms(z, rules, s[j]) && !Expires(z, rules, s[j], j))
                  && dip <= index && (forall j :: 0 <= j < dip ==> !Under(z, s[j]))
                  && (dip < index ==> Under(z, s[dip])) && pendingEmitted == (dip < index)
                  && events == if pendingEmitted then [PendingAt(z, s, rules, dip)] else []
      invariant confirmedIndex.Some? ==>
                  var b := confirmedIndex.value;
                  && b < index && BreaksAt(z, s, rules, b)
                  && (forall j :: b < j < index ==> s[j].close <= z.high)
                  && events == PendingPart(z, s, rules, b) + [ConfirmedAt(z, s, rules, b)]
    {
      var candle := s[index];
      match confirmedIndex {
        case None =>
          if Under(z, candle) {
            if DistanceUnder(z, candle) >= rules.minimumDistanceBps && BodyFraction(candle) >= rules.minimumBodyFraction {
              PendingPartIs(z, s, rules, index, dip);
              events := events + [ConfirmedAt(z, s, rules, index)];
              confirmedIndex := Some(index);
            } else if !pendingEmitted {
              events := events + [PendingAt(z, s, rules, index)];
              pendingEmitted := true;
            }
          } else if index + 1 > rules.maximumZoneAgeBars {
            PendingPartIs(z, s, rules, index, dip);
            ExpiryIsUnique(z, s, rules, index);
            events := events + [InvalidatedAt(z, s, rules, index)];
            return;
          } else if !pendingEmitted {
            dip := index + 1;
          }
        case Some(b) =>
          if Over(z, candle) {
            BreakIsUnique(z, s, rules, b);
            ReturnIsUnique(z, s, b, index);
            events := events + [ClosingAt(z, s, rules, b, index)];
            return;
          }
      }
    }
    match confirmedIndex {
      case None =>
        PendingPartIs(z, s, rules, |s|, dip);
        SettledMeaning(z, s, rules);
      case Some(b) =>
        BreakIsUnique(z, s, rules, b);
        ReturnMeaning(z, s, b);
    }
  }

  /** The engine with its checks and its filter. */
  method BuildEvents(z: Zone, candles: seq<Candle>, rules: EventRules) returns (r: Result<seq<Event>>)
    ensures r == BuildStructureEvents(z, candles, rules)
  {
    hide EventsOf, Filter;
    var ok := CheckStream(candles, z.source, z.symbol, z.interval);
    if !ok {
      return Err(InvalidStream);
    }
    var events := RunMachine(z, Filter(candles, Since(z)), rules);
    if AllAccepted(events) {
      return Ok(events);
    }
    return Err(InvalidEvent);
  }
}
