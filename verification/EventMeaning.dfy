/** The break machine read in prices, volumes and candle indices of the whole stream. */
module EventMeaning {
  import opened Basics
  import opened Candles
  import opened Reals
  import opened Rounding
  import opened Streams
  import opened StructureEvents
  import opened SupportZones

  // ----- Where the machine starts

  /** Candle `m` is the first that opens no earlier than the zone was confirmed. */
  ghost predicate StartsAt(z: Zone, candles: seq<Candle>, m: int) {
    && 0 <= m <= |candles|
    && (forall i :: 0 <= i < m ==> candles[i].openTime < z.confirmedAt)
    && (m < |candles| ==> candles[m].openTime >= z.confirmedAt)
  }

  lemma StartExists(z: Zone, candles: seq<Candle>) returns (m: nat)
    ensures StartsAt(z, candles, m)
  {
    m := 0;
    while m < |candles| && candles[m].openTime < z.confirmedAt
      invariant m <= |candles| && forall i :: 0 <= i < m ==> candles[i].openTime < z.confirmedAt
    {
      m := m + 1;
    }
  }

  /** The machine runs on the candles from there on and on no others. */
  lemma RunsFrom(z: Zone, candles: seq<Candle>, rules: EventRules, m: nat)
    requires Stream(candles, z.source, z.symbol, z.interval) && StartsAt(z, candles, m)
    ensures Filter(candles, Since(z)) == candles[m..]
    ensures var events := EventsOf(z, candles[m..], rules);
            BuildStructureEvents(z, candles, rules) == if AllAccepted(events) then Ok(events) else Err(InvalidEvent)
  {
    hide EventsOf, Filter;
    FilterSuffix(candles, Since(z), m);
  }

  /** A stream of another market, interval or order is refused. */
  lemma RefusesStream(z: Zone, candles: seq<Candle>, rules: EventRules)
    ensures BuildStructureEvents(z, candles, rules) == Err(InvalidStream) <==>
              !((forall i :: 0 <= i < |candles| ==>
                   candles[i].source == z.source && candles[i].symbol == z.symbol && candles[i].interval == z.interval)
                && (forall i, j :: 0 <= i < j < |candles| ==> candles[i].openTime < candles[j].openTime))
  {
    hide EventsOf, Filter;
    if Stream(candles, z.source, z.symbol, z.interval) {
      assert forall i :: 0 <= i < |candles| ==> candles[i].Trades(z.source, z.symbol, z.interval);
    }
  }

  /** When the confirming candle is followed by one that opens at its close or later, the machine
      starts with the very next candle. */
  lemma StartsAfterConfirmation(z: Zone, candles: seq<Candle>, n: nat)
    requires Stream(candles, z.source, z.symbol, z.interval) && n < |candles| && candles[n].CloseTime() == z.confirmedAt
    requires n + 1 < |candles| ==> candles[n + 1].openTime >= candles[n].CloseTime()
    ensures StartsAt(z, candles, n + 1)
  {
    forall i | 0 <= i < n + 1 ensures candles[i].openTime < z.confirmedAt {
      assert candles[i].openTime <= candles[n].openTime;
    }
  }

  // ----- What happens at a candle

  function Distance(a: real, b: real): real { if a >= b then a - b else b - a }

  /** `f` is the body over the range, to four places; a candle without range has none. */
  ghost predicate BodyIs(c: Candle, f: real) {
    if c.high == c.low then f == 0.0
    else Rounded(Distance(c.open, c.close) / (c.high - c.low), 10000.0, f)
  }

  /** A close under the zone, far enough and with a large enough body. */
  ghost predicate BreakCandle(z: Zone, rules: EventRules, c: Candle) {
    && c.close < z.low && (z.low - c.close) * 10000.0 >= rules.minimumDistanceBps * z.low
    && exists f :: BodyIs(c, f) && f >= rules.minimumBodyFraction
  }

  /** A candle past the age limit that does not close under the zone. */
  predicate AgedOut(z: Zone, rules: EventRules, candles: seq<Candle>, m: int, i: int)
    requires 0 <= i < |candles|
  {
    candles[i].close >= z.low && i - m >= rules.maximumZoneAgeBars
  }

  ghost predicate OpenUntil(z: Zone, candles: seq<Candle>, rules: EventRules, m: int, i: int)
    requires 0 <= m <= i <= |candles|
  {
    forall j :: m <= j < i ==> !BreakCandle(z, rules, candles[j]) && !AgedOut(z, rules, candles, m, j)
  }

  ghost predicate BrokenAt(z: Zone, candles: seq<Candle>, rules: EventRules, m: int, b: int) {
    0 <= m <= b < |candles| && OpenUntil(z, candles, rules, m, b) && BreakCandle(z, rules, candles[b])
  }

  ghost predicate LapsedAt(z: Zone, candles: seq<Candle>, rules: EventRules, m: int, i: int) {
    0 <= m <= i < |candles| && OpenUntil(z, candles, rules, m, i) && AgedOut(z, rules, candles, m, i)
  }

  /** The first close above the zone after candle `b` is at `i`. */
  ghost predicate ReturnedAt(z: Zone, candles: seq<Candle>, b: int, i: int) {
    && 0 <= b < i < |candles| && candles[i].close > z.high
    && forall j :: b < j < i ==> candles[j].close <= z.high
  }

  ghost predicate NeverReturned(z: Zone, candles: seq<Candle>, b: int) {
    forall j :: 0 <= b < j < |candles| ==> candles[j].close <= z.high
  }

  /** The first close under the zone, within the age limit, that is not a break. */
  ghost predicate DippedAt(z: Zone, candles: seq<Candle>, rules: EventRules, m: int, d: int) {
    && 0 <= m <= d < |candles| && candles[d].close < z.low && !BreakCandle(z, rules, candles[d])
    && forall j :: m <= j < d ==> candles[j].close >= z.low && j - m < rules.maximumZoneAgeBars
  }

  // ----- The machine's own terms, translated

  lemma BodyMeaning(c: Candle, f: real)
    ensures BodyFraction(c) == f <==> BodyIs(c, f)
  {
    hide Quantize, Rounded;
    if c.high != c.low {
      assert Distance(c.open, c.close) == if c.close >= c.open then c.close - c.open else c.open - c.close;
      QuantizeExact(Distance(c.open, c.close) / (c.high - c.low), 10000.0, f);
    }
  }

  lemma ConfirmsMeaning(z: Zone, rules: EventRules, c: Candle)
    ensures Confirms(z, rules, c) <==> BreakCandle(z, rules, c)
  {
    hide BodyFraction, BodyIs;
    BodyMeaning(c, BodyFraction(c));
    forall f | BodyIs(c, f) ensures f == BodyFraction(c) { BodyMeaning(c, f); }
    BpsCompare(z.low - c.close, z.low, rules.minimumDistanceBps);
  }

  lemma BpsCompare(value: real, reference: real, limit: real)
    requires reference > 0.0
    ensures value / reference * 10000.0 >= limit <==> value * 10000.0 >= limit * reference
    ensures value / reference * 10000.0 <= limit <==> value * 10000.0 <= limit * reference
  {
    QuotientCompare(value, reference, limit / 10000.0);
    assert limit / 10000.0 * reference * 10000.0 == limit * reference;
  }

  lemma OpenMatches(z: Zone, candles: seq<Candle>, rules: EventRules, m: nat, i: nat)
    requires m + i <= |candles|
    ensures (forall j :: 0 <= j < i ==> !Confirms(z, rules, candles[m..][j]) && !Expires(z, rules, candles[m..][j], j))
       <==> OpenUntil(z, candles, rules, m, m + i)
  {
    hide Confirms, BreakCandle;
    var s := candles[m..];
    forall j | 0 <= j < i
      ensures Confirms(z, rules, s[j]) <==> BreakCandle(z, rules, candles[m + j])
      ensures Expires(z, rules, s[j], j) <==> AgedOut(z, rules, candles, m, m + j)
    {
      ConfirmsMeaning(z, rules, s[j]);
    }
    if OpenUntil(z, candles, rules, m, m + i) {
      forall j | 0 <= j < i ensures !Confirms(z, rules, s[j]) && !Expires(z, rules, s[j], j) {
        assert !BreakCandle(z, rules, candles[m + j]) && !AgedOut(z, rules, candles, m, m + j);
      }
    }
    if forall j :: 0 <= j < i ==> !Confirms(z, rules, s[j]) && !Expires(z, rules, s[j], j) {
      forall j | m <= j < m + i ensures !BreakCandle(z, rules, candles[j]) && !AgedOut(z, rules, candles, m, j) {
        assert s[j - m] == candles[j];
      }
    }
  }

  lemma BreaksMatch(z: Zone, candles: seq<Candle>, rules: EventRules, m: nat, b: int)
    requires m <= |candles|
    ensures BreaksAt(z, candles[m..], rules, b) <==> BrokenAt(z, candles, rules, m, m + b)
    ensures ExpiresAt(z, candles[m..], rules, b) <==> LapsedAt(z, candles, rules, m, m + b)
  {
    hide Confirms, BreakCandle, OpenUntil, Under;
    var s := candles[m..];
    if 0 <= b < |s| {
      assert s[b] == candles[m + b];
      ConfirmsMeaning(z, rules, s[b]);
      OpenMatches(z, candles, rules, m, b);
      ExpiryMeaning(z, rules, candles, m, b);
    }
  }

  lemma ExpiryMeaning(z: Zone, rules: EventRules, candles: seq<Candle>, m: nat, i: nat)
    requires m + i < |candles|
    ensures Expires(z, rules, candles[m..][i], i) <==> AgedOut(z, rules, candles, m, m + i)
  {
  }

  lemma ReturnsMatch(z: Zone, candles: seq<Candle>, m: nat, b: int, i: int)
    requires m <= |candles| && b >= 0
    ensures ReturnsAt(z, candles[m..], b, i) <==> ReturnedAt(z, candles, m + b, m + i)
    ensures StaysBelow(z, candles[m..], b) <==> NeverReturned(z, candles, m + b)
  {
    var s := candles[m..];
    assert forall j :: 0 <= j < |s| ==> s[j] == candles[m + j];
    assert forall j :: m <= j < |candles| ==> candles[j] == s[j - m];
  }

  lemma DipsMatch(z: Zone, candles: seq<Candle>, rules: EventRules, m: nat, d: nat)
    requires m + d < |candles|
    ensures var s := candles[m..];
            DippedAt(z, candles, rules, m, m + d) <==> First(s, Dips(z), 0) == d && d < First(s, Settles(z, rules), 0)
  {
    hide Confirms, BreakCandle;
    var s := candles[m..];
    assert forall j :: 0 <= j < |s| ==> s[j] == candles[m + j];
    assert forall j :: m <= j < |candles| ==> candles[j] == s[j - m];
    ConfirmsMeaning(z, rules, s[d]);
    forall j | 0 <= j < |s| ensures Confirms(z, rules, s[j]) ==> s[j].close < z.low { ConfirmsUnder(z, rules, s[j]); }
  }

  lemma ConfirmsUnder(z: Zone, rules: EventRules, c: Candle)
    ensures Confirms(z, rules, c) ==> c.close < z.low
  {
  }

  // ----- What an event records

  function VolumeBetween(candles: seq<Candle>, lo: int, hi: int): real
    requires 0 <= lo <= hi <= |candles|
    decreases hi - lo
  {
    if lo == hi then 0.0 else VolumeBetween(candles, lo, hi - 1) + candles[hi - 1].volume
  }

  /** `ratio` is the volume of candle `i` over the mean volume of up to `lookback` candles before it
      that lie at or after `m`, to four places; absent when there are none or they did not trade. */
  ghost predicate VolumeIs(candles: seq<Candle>, m: int, i: int, lookback: nat, ratio: Option<real>)
    requires 0 <= m <= i < |candles|
  {
    var n := if i - m < lookback then i - m else lookback;
    var total := VolumeBetween(candles, i - n, i);
    if total == 0.0 then ratio == None
    else ratio.Some? && Rounded(OverMean(candles[i].volume, total, n), 10000.0, ratio.value)
  }

  /** The value over the mean of `n` values with the given total. */
  function OverMean(value: real, total: real, n: nat): real
    requires total != 0.0
  {
    value * n as real / total
  }

  /** How far the close lies outside the zone, in basis points of the edge it passed. */
  function DistanceFor(state: EventState, z: Zone, close: real): real {
    match state
    case PendingBreak => (z.low - close) / z.low * 10000.0
    case ConfirmedBreak => (z.low - close) / z.low * 10000.0
    case Invalidated => 0.0
    case _ => (close - z.high) / z.high * 10000.0
  }

  /** The event was taken at candle `i` of the stream. */
  ghost predicate TakenAt(e: RawEvent, z: Zone, candles: seq<Candle>, rules: EventRules, m: int, i: int)
    requires 0 <= m <= i < |candles|
  {
    var c := candles[i];
    && e.id == EventId(z.id, c.openTime, c.openTime + Duration(c.interval), e.state)
    && e.zoneId == z.id && e.source == z.source && e.symbol == z.symbol && e.interval == z.interval
    && e.candleOpenTime == c.openTime && e.observedAt == c.openTime + Duration(c.interval)
    && e.closePrice == c.close && e.zoneLow == z.low && e.zoneHigh == z.high
    && Rounded(DistanceFor(e.state, z, c.close), 100.0, e.distanceBps)
    && BodyIs(c, e.bodyFraction)
    && VolumeIs(candles, m, i, rules.volumeLookback, e.volumeRatio)
  }

  /** A closing event counts the bars since the break and names it; the others do neither. */
  ghost predicate Closes(e: RawEvent, z: Zone, candles: seq<Candle>, b: int, i: int) {
    && 0 <= b < |candles| && e.barsAfterBreak == Some(i - b)
    && var c := candles[b];
       e.invalidates == Some(EventId(z.id, c.openTime, c.openTime + Duration(c.interval), ConfirmedBreak))
  }

  /** The event `e` happens at candle `i`. */
  ghost predicate Happens(e: RawEvent, z: Zone, candles: seq<Candle>, rules: EventRules, m: int, i: int) {
    && 0 <= m <= i < |candles| && TakenAt(e, z, candles, rules, m, i)
    && match e.state
       case PendingBreak => DippedAt(z, candles, rules, m, i) && e.barsAfterBreak == None && e.invalidates == None
       case ConfirmedBreak => BrokenAt(z, candles, rules, m, i) && e.barsAfterBreak == None && e.invalidates == None
       case Invalidated => LapsedAt(z, candles, rules, m, i) && e.barsAfterBreak == None && e.invalidates == None
       case FakeBreak => exists b :: BrokenAt(z, candles, rules, m, b) && ReturnedAt(z, candles, b, i)
                                     && Closes(e, z, candles, b, i) && i - b <= rules.fakeBreakMaxBars
       case Reclaimed => exists b :: BrokenAt(z, candles, rules, m, b) && ReturnedAt(z, candles, b, i)
                                     && Closes(e, z, candles, b, i) && i - b > rules.fakeBreakMaxBars
  }

  lemma {:induction false} VolumeSums(candles: seq<Candle>, lo: nat, hi: nat)
    requires lo <= hi <= |candles|
    ensures TotalVolume(candles[lo..hi]) == VolumeBetween(candles, lo, hi)
    decreases hi - lo
  {
    if lo < hi {
      VolumeSums(candles, lo, hi - 1);
      assert candles[lo..hi] == candles[lo..hi - 1] + [candles[hi - 1]];
      TotalAppend(candles[lo..hi - 1], candles[hi - 1]);
    }
  }

  lemma {:induction false} TotalAppend(s: seq<Candle>, c: Candle)
    ensures TotalVolume(s + [c]) == TotalVolume(s) + c.volume
  {
    if s == [] {
      assert s + [c] == [c];
    } else {
      assert (s + [c])[1..] == s[1..] + [c];
      TotalAppend(s[1..], c);
    }
  }

  lemma QuotientOfMean(value: real, total: real, n: real)
    requires n > 0.0 && total > 0.0
    ensures total / n > 0.0 && value / (total / n) == value * n / total
  {
    var mean := total / n;
    QuotientTimes(total, n);
    assert mean * n == total;
    if mean <= 0.0 { MulMonotone(mean, 0.0, n); }
    var x := value / mean;
    QuotientTimes(value, mean);
    assert x * mean == value;
    assert x * total == x * mean * n;
    QuotientTimes(value * n, total);
    var y := value * n / total;
    assert y * total == value * n;
    if x < y { MulStrict(x, y, total); }
    if y < x { MulStrict(y, x, total); }
  }

  lemma RoundsSame(a: real, b: real, scale: real)
    requires a == b && scale > 0.0
    ensures Rounded(b, scale, Quantize(a, scale))
  {
    QuantizeExact(b, scale, Quantize(a, scale));
  }

  lemma RatioToMean(value: real, total: real, n: nat)
    requires n > 0 && total >= 0.0
    ensures total / n as real == 0.0 <==> total == 0.0
    ensures total > 0.0 ==> Rounded(OverMean(value, total, n), 10000.0, Quantize(value / (total / n as real), 10000.0))
  {
    hide Quantize, Rounded;
    if total > 0.0 {
      QuotientOfMean(value, total, n as real);
      RoundsSame(value / (total / n as real), OverMean(value, total, n), 10000.0);
    } else {
      ZeroMean(n as real);
    }
  }

  lemma RatioMeaning(s: seq<Candle>, k: nat, lookback: nat)
    requires k < |s|
    ensures var history, r := s[if k < lookback then 0 else k - lookback..k], VolumeRatio(s, k, lookback);
            if TotalVolume(history) == 0.0 then r == None
            else r.Some? && Rounded(OverMean(s[k].volume, TotalVolume(history), |history|), 10000.0, r.value)
  {
    hide Quantize, Rounded, OverMean;
    var history := s[if k < lookback then 0 else k - lookback..k];
    if history != [] {
      RatioToMean(s[k].volume, TotalVolume(history), |history|);
    }
  }

  lemma VolumeMeaning(candles: seq<Candle>, m: nat, i: nat, lookback: nat)
    requires m <= i < |candles|
    ensures VolumeIs(candles, m, i, lookback, VolumeRatio(candles[m..], i - m, lookback))
  {
    hide VolumeRatio, Rounded, TotalVolume, VolumeBetween, OverMean;
    var s, k := candles[m..], i - m;
    var n := if k < lookback then k else lookback;
    RatioMeaning(s, k, lookback);
    assert s[if k < lookback then 0 else k - lookback..k] == candles[i - n..i];
    VolumeSums(candles, i - n, i);
  }

  lemma ZeroMean(n: real)
    requires n > 0.0
    ensures 0.0 / n == 0.0
  {
  }

  lemma TakenMeaning(z: Zone, candles: seq<Candle>, rules: EventRules, m: nat, i: nat, state: EventState,
                     distance: real, invalidates: Option<EventId>, bars: Option<int>)
    requires m <= i < |candles| && distance == DistanceFor(state, z, candles[i].close)
    ensures TakenAt(MakeEvent(z, candles[m..], rules, i - m, state, distance, invalidates, bars), z, candles, rules, m, i)
  {
    hide Quantize, Rounded, BodyFraction, BodyIs, VolumeRatio, VolumeIs, DistanceFor;
    QuantizeExact(distance, 100.0, Quantize(distance, 100.0));
    BodyMeaning(candles[i], BodyFraction(candles[i]));
    VolumeMeaning(candles, m, i, rules.volumeLookback);
  }

  lemma VolumeUnique(candles: seq<Candle>, m: nat, i: nat, lookback: nat, a: Option<real>, b: Option<real>)
    requires m <= i < |candles| && VolumeIs(candles, m, i, lookback, a) && VolumeIs(candles, m, i, lookback, b)
    ensures a == b
  {
    hide Rounded, VolumeBetween, OverMean;
    var n := if i - m < lookback then i - m else lookback;
    var total := VolumeBetween(candles, i - n, i);
    if total != 0.0 {
      QuantizeExact(OverMean(candles[i].volume, total, n), 10000.0, a.value);
      QuantizeExact(OverMean(candles[i].volume, total, n), 10000.0, b.value);
    }
  }

  /** What an event records is determined by its candle and its state. */
  lemma TakenExactly(z: Zone, candles: seq<Candle>, rules: EventRules, m: nat, i: nat, e: RawEvent)
    requires m <= i < |candles|
    ensures TakenAt(e, z, candles, rules, m, i) <==>
              e == MakeEvent(z, candles[m..], rules, i - m, e.state, DistanceFor(e.state, z, candles[i].close), e.invalidates, e.barsAfterBreak)
  {
    hide Quantize, Rounded, BodyFraction, BodyIs, VolumeRatio, VolumeIs, DistanceFor;
    var distance := DistanceFor(e.state, z, candles[i].close);
    TakenMeaning(z, candles, rules, m, i, e.state, distance, e.invalidates, e.barsAfterBreak);
    if TakenAt(e, z, candles, rules, m, i) {
      QuantizeExact(distance, 100.0, e.distanceBps);
      BodyMeaning(candles[i], e.bodyFraction);
      VolumeMeaning(candles, m, i, rules.volumeLookback);
      VolumeUnique(candles, m, i, rules.volumeLookback, e.volumeRatio, VolumeRatio(candles[m..], i - m, rules.volumeLookback));
    }
  }

  lemma PendingMembers(z: Zone, s: seq<Candle>, rules: EventRules, settled: nat, e: RawEvent)
    requires settled <= |s|
    ensures e in PendingPart(z, s, rules, settled) <==>
              var dip := First(s, Dips(z), 0); dip < settled && e == PendingAt(z, s, rules, dip)
  {
    hide First, MakeEvent;
  }

  /** The members of an event list, by the first occurrences that make it. */
  lemma Members(z: Zone, s: seq<Candle>, rules: EventRules, e: RawEvent)
    ensures var settled, dip := First(s, Settles(z, rules), 0), First(s, Dips(z), 0);
            e in EventsOf(z, s, rules) <==>
              (dip < settled && e == PendingAt(z, s, rules, dip)) || (settled < |s| && SettlesWith(z, s, rules, settled, e))
  {
    hide First, SettlesWith, PendingPart, SettledPart, PendingAt;
    var settled := First(s, Settles(z, rules), 0);
    PendingMembers(z, s, rules, settled, e);
    SettledMembers(z, s, rules, settled, e);
  }

  /** The event is one of those that settle the zone at `k`. */
  ghost predicate SettlesWith(z: Zone, s: seq<Candle>, rules: EventRules, k: nat, e: RawEvent)
    requires k < |s|
  {
    if Confirms(z, rules, s[k]) then
      var back := First(s, ClosesAbove(z), k + 1);
      e == ConfirmedAt(z, s, rules, k) || (back < |s| && e == ClosingAt(z, s, rules, k, back))
    else e == InvalidatedAt(z, s, rules, k)
  }

  lemma SettledMembers(z: Zone, s: seq<Candle>, rules: EventRules, settled: nat, e: RawEvent)
    requires settled <= |s|
    ensures e in SettledPart(z, s, rules, settled) <==> settled < |s| && SettlesWith(z, s, rules, settled, e)
  {
    hide First, Confirms, ConfirmedAt, InvalidatedAt, ClosingAt;
  }

  /** Every event happens at one candle of the stream. */
  lemma EventHappens(z: Zone, candles: seq<Candle>, rules: EventRules, m: nat, e: RawEvent) returns (i: nat)
    requires m <= |candles| && e in EventsOf(z, candles[m..], rules)
    ensures Happens(e, z, candles, rules, m, i)
  {
    hide First, Confirms, BodyFraction, VolumeRatio, Quantize, TakenAt, DippedAt, BrokenAt, LapsedAt, ReturnedAt, EventsOf;
    var s := candles[m..];
    Members(z, s, rules, e);
    SettledMeaning(z, s, rules);
    var settled, dip := First(s, Settles(z, rules), 0), First(s, Dips(z), 0);
    if dip < settled && e == PendingAt(z, s, rules, dip) {
      i := m + dip;
      DipsMatch(z, candles, rules, m, dip);
      TakenMeaning(z, candles, rules, m, i, PendingBreak, DistanceUnder(z, s[dip]), None, None);
    } else {
      BreaksMatch(z, candles, rules, m, settled);
      if e == InvalidatedAt(z, s, rules, settled) {
        i := m + settled;
        TakenMeaning(z, candles, rules, m, i, Invalidated, 0.0, None, None);
      } else if e == ConfirmedAt(z, s, rules, settled) {
        i := m + settled;
        TakenMeaning(z, candles, rules, m, i, ConfirmedBreak, DistanceUnder(z, s[settled]), None, None);
      } else {
        i := ClosingHappens(z, candles, rules, m, settled, e);
      }
    }
  }

  lemma ClosingHappens(z: Zone, candles: seq<Candle>, rules: EventRules, m: nat, b: nat, e: RawEvent) returns (i: nat)
    requires m + b < |candles| && BrokenAt(z, candles, rules, m, m + b)
    requires var back := First(candles[m..], ClosesAbove(z), b + 1);
             back < |candles| - m && e == ClosingAt(z, candles[m..], rules, b, back)
    ensures Happens(e, z, candles, rules, m, i)
  {
    hide First, BodyFraction, VolumeRatio, Quantize, TakenAt, BrokenAt, ReturnedAt;
    var s := candles[m..];
    var back := First(s, ClosesAbove(z), b + 1);
    i := m + back;
    ReturnMeaning(z, s, b);
    ReturnsMatch(z, candles, m, b, back);
    TakenMeaning(z, candles, rules, m, i, e.state, DistanceOver(z, s[back]), e.invalidates, e.barsAfterBreak);
    assert candles[m + b] == s[b];
    assert Closes(e, z, candles, m + b, i);
    assert BrokenAt(z, candles, rules, m, m + b) && ReturnedAt(z, candles, m + b, i);
  }

  /** Whatever happens at a candle is an event. */
  lemma HappeningIsEvent(z: Zone, candles: seq<Candle>, rules: EventRules, m: nat, e: RawEvent, i: nat)
    requires m <= |candles| && Happens(e, z, candles, rules, m, i)
    ensures e in EventsOf(z, candles[m..], rules)
  {
    hide First, Confirms, TakenAt, DippedAt, BrokenAt, LapsedAt, ReturnedAt, EventsOf, Closes;
    if e.state in {FakeBreak, Reclaimed} {
      var b :| BrokenAt(z, candles, rules, m, b) && ReturnedAt(z, candles, b, i) && Closes(e, z, candles, b, i)
               && (e.state == FakeBreak <==> i - b <= rules.fakeBreakMaxBars);
      ReturnIsEvent(z, candles, rules, m, b, e, i);
    } else {
      SimpleIsEvent(z, candles, rules, m, e, i);
    }
  }

  lemma SimpleIsEvent(z: Zone, candles: seq<Candle>, rules: EventRules, m: nat, e: RawEvent, i: nat)
    requires m <= |candles| && Happens(e, z, candles, rules, m, i) && e.state !in {FakeBreak, Reclaimed}
    ensures e in EventsOf(z, candles[m..], rules)
  {
    hide First, Confirms, BodyFraction, VolumeRatio, Quantize, TakenAt, DippedAt, BrokenAt, LapsedAt, ReturnedAt, EventsOf;
    var s := candles[m..];
    assert s[i - m] == candles[i];
    Members(z, s, rules, e);
    TakenExactly(z, candles, rules, m, i, e);
    BreaksMatch(z, candles, rules, m, i - m);
    if e.state == PendingBreak {
      DipsMatch(z, candles, rules, m, i - m);
    } else if e.state == ConfirmedBreak {
      BreakIsUnique(z, s, rules, i - m);
      BreakConfirms(z, s, rules, i - m);
    } else {
      ExpiryIsUnique(z, s, rules, i - m);
    }
  }

  lemma BreakConfirms(z: Zone, s: seq<Candle>, rules: EventRules, b: int)
    requires BreaksAt(z, s, rules, b)
    ensures 0 <= b < |s| && Confirms(z, rules, s[b])
  {
  }

  lemma ReturnIsEvent(z: Zone, candles: seq<Candle>, rules: EventRules, m: nat, b: int, e: RawEvent, i: nat)
    requires BrokenAt(z, candles, rules, m, b) && ReturnedAt(z, candles, b, i) && Closes(e, z, candles, b, i)
    requires m <= i < |candles| && e.state in {FakeBreak, Reclaimed} && (e.state == FakeBreak <==> i - b <= rules.fakeBreakMaxBars)
    requires TakenAt(e, z, candles, rules, m, i)
    ensures e in EventsOf(z, candles[m..], rules)
  {
    hide First, Confirms, ClosingAt, ConfirmedAt, InvalidatedAt, PendingAt, TakenAt, EventsOf, BrokenAt, ReturnedAt, Closes;
    Members(z, candles[m..], rules, e);
    ReturnIsFound(z, candles, rules, m, b, i);
    ClosingIsMade(z, candles, rules, m, b, e, i);
  }

  /** The break and the return are where the machine's searches end. */
  lemma ReturnIsFound(z: Zone, candles: seq<Candle>, rules: EventRules, m: nat, b: int, i: nat)
    requires BrokenAt(z, candles, rules, m, b) && ReturnedAt(z, candles, b, i)
    ensures var s := candles[m..];
            && m <= b < i < |candles| && First(s, Settles(z, rules), 0) == b - m && Confirms(z, rules, s[b - m])
            && First(s, ClosesAbove(z), b - m + 1) == i - m
  {
    hide First, Confirms, OpenUntil, BreakCandle;
    var s := candles[m..];
    BreaksMatch(z, candles, rules, m, b - m);
    BreakIsUnique(z, s, rules, b - m);
    BreakConfirms(z, s, rules, b - m);
    ReturnsMatch(z, candles, m, b - m, i - m);
    ReturnIsUnique(z, s, b - m, i - m);
  }

  lemma ClosingIsMade(z: Zone, candles: seq<Candle>, rules: EventRules, m: nat, b: int, e: RawEvent, i: nat)
    requires m <= b < i < |candles| && TakenAt(e, z, candles, rules, m, i) && Closes(e, z, candles, b, i)
    requires e.state in {FakeBreak, Reclaimed} && (e.state == FakeBreak <==> i - b <= rules.fakeBreakMaxBars)
    ensures e == ClosingAt(z, candles[m..], rules, b - m, i - m)
  {
    hide MakeEvent, ConfirmedAt, TakenAt;
    var s := candles[m..];
    TakenExactly(z, candles, rules, m, i, e);
    assert s[b - m] == candles[b] && s[i - m] == candles[i];
    BreakId(z, s, rules, b - m);
  }

  lemma BreakId(z: Zone, s: seq<Candle>, rules: EventRules, b: nat)
    requires b < |s|
    ensures ConfirmedAt(z, s, rules, b).id == EventId(z.id, s[b].openTime, s[b].openTime + Duration(s[b].interval), ConfirmedBreak)
  {
  }

  /** The events of a zone, in full: an event is in the list exactly when it happens at some candle
      at or after the start, and the list is in time order. */
  lemma EventsExactly(z: Zone, candles: seq<Candle>, rules: EventRules, m: nat)
    requires StartsAt(z, candles, m) && BuildStructureEvents(z, candles, rules).Ok?
    ensures var events := BuildStructureEvents(z, candles, rules).value;
            && (forall e: Event :: e in events <==> exists i :: Happens(e, z, candles, rules, m, i))
            && (forall j, k :: 0 <= j < k < |events| ==> events[j].observedAt < events[k].observedAt)
  {
    hide EventsOf, Happens, Filter;
    RunsFrom(z, candles, rules, m);
    var events := BuildStructureEvents(z, candles, rules).value;
    FilterStream(candles, Since(z), z.source, z.symbol, z.interval);
    forall e: Event ensures e in events <==> exists i :: Happens(e, z, candles, rules, m, i) {
      if e in events {
        var i := EventHappens(z, candles, rules, m, e);
      }
      if exists i :: Happens(e, z, candles, rules, m, i) {
        var i :| Happens(e, z, candles, rules, m, i);
        HappensWithin(e, z, candles, rules, m, i);
        HappeningIsEvent(z, candles, rules, m, e, i);
      }
    }
    forall j, k | 0 <= j < k < |events| ensures events[j].observedAt < events[k].observedAt {
      EventTimesRise(z, candles[m..], rules, j, k);
    }
  }

  lemma HappensWithin(e: RawEvent, z: Zone, candles: seq<Candle>, rules: EventRules, m: int, i: int)
    requires Happens(e, z, candles, rules, m, i)
    ensures 0 <= m <= i < |candles|
  {
  }

  // ----- How the list ends

  /** Neither broken nor aged out by the end of the stream. */
  ghost predicate StillOpen(z: Zone, candles: seq<Candle>, rules: EventRules, m: int) {
    0 <= m <= |candles| && OpenUntil(z, candles, rules, m, |candles|)
  }

  ghost predicate Dipped(z: Zone, candles: seq<Candle>, m: int) {
    exists d :: 0 <= m <= d < |candles| && candles[d].close < z.low
  }

  /** What the last state of a zone says about the candles. */
  ghost predicate EndsAs(ending: Option<EventState>, z: Zone, candles: seq<Candle>, rules: EventRules, m: int) {
    match ending
    case None => StillOpen(z, candles, rules, m) && !Dipped(z, candles, m)
    case Some(PendingBreak) => StillOpen(z, candles, rules, m) && Dipped(z, candles, m)
    case Some(ConfirmedBreak) => exists b :: BrokenAt(z, candles, rules, m, b) && NeverReturned(z, candles, b)
    case Some(Invalidated) => exists i :: LapsedAt(z, candles, rules, m, i)
    case Some(FakeBreak) => exists b, i :: BrokenAt(z, candles, rules, m, b) && ReturnedAt(z, candles, b, i) && i - b <= rules.fakeBreakMaxBars
    case Some(Reclaimed) => exists b, i :: BrokenAt(z, candles, rules, m, b) && ReturnedAt(z, candles, b, i) && i - b > rules.fakeBreakMaxBars
  }

  lemma EndingFits(z: Zone, candles: seq<Candle>, rules: EventRules, m: nat)
    requires m <= |candles|
    ensures EndsAs(Ending(EventsOf(z, candles[m..], rules)), z, candles, rules, m)
  {
    hide EventsOf, First, Confirms, BrokenAt, LapsedAt, ReturnedAt, NeverReturned, OpenUntil, StaysBelow, ReturnsAt, Ending;
    var s := candles[m..];
    var k := First(s, Settles(z, rules), 0);
    SettledMeaning(z, s, rules);
    if k == |s| {
      UnsettledEnding(z, s, rules);
      OpenMatches(z, candles, rules, m, |s|);
      DippedMatches(z, candles, m);
    } else if Confirms(z, rules, s[k]) {
      BreaksMatch(z, candles, rules, m, k);
      BrokenEnding(z, s, rules, k);
      ReturnMeaning(z, s, k);
      ReturnsMatch(z, candles, m, k, First(s, ClosesAbove(z), k + 1));
      BrokenFits(z, candles, rules, m, k);
    } else {
      BreaksMatch(z, candles, rules, m, k);
      ExpiredEnding(z, s, rules, k);
    }
  }

  lemma DippedMatches(z: Zone, candles: seq<Candle>, m: nat)
    requires m <= |candles|
    ensures (exists i :: 0 <= i < |candles[m..]| && Under(z, candles[m..][i])) <==> Dipped(z, candles, m)
  {
    var s := candles[m..];
    if Dipped(z, candles, m) {
      var d :| m <= d < |candles| && candles[d].close < z.low;
      assert Under(z, s[d - m]);
    }
  }

  lemma BrokenFits(z: Zone, candles: seq<Candle>, rules: EventRules, m: nat, k: nat)
    requires m + k < |candles| && BreaksAt(z, candles[m..], rules, k) && BrokenAt(z, candles, rules, m, m + k)
    ensures EndsAs(Ending(EventsOf(z, candles[m..], rules)), z, candles, rules, m)
  {
    hide EventsOf, First, BreaksAt, BrokenAt, ReturnedAt, NeverReturned, StaysBelow, ReturnsAt;
    var s := candles[m..];
    BrokenEnding(z, s, rules, k);
    ReturnMeaning(z, s, k);
    var back := First(s, ClosesAbove(z), k + 1);
    ReturnsMatch(z, candles, m, k, back);
    if back < |s| {
      assert ReturnsAt(z, s, k, back) && ReturnedAt(z, candles, m + k, m + back);
      assert (m + back) - (m + k) == back - k;
    }
  }

  /** A stream ends in one way only. */
  lemma EndingIsUnique(x: Option<EventState>, y: Option<EventState>, z: Zone, candles: seq<Candle>, rules: EventRules, m: nat)
    requires EndsAs(x, z, candles, rules, m) && EndsAs(y, z, candles, rules, m)
    ensures x == y
  {
    hide BreakCandle;
    forall i, j | (BrokenAt(z, candles, rules, m, i) || LapsedAt(z, candles, rules, m, i))
                  && (BrokenAt(z, candles, rules, m, j) || LapsedAt(z, candles, rules, m, j))
      ensures i == j
    {
    }
    forall i | BrokenAt(z, candles, rules, m, i) ensures !LapsedAt(z, candles, rules, m, i) {
      BreakIsUnder(z, rules, candles[i]);
    }
  }

  lemma BreakIsUnder(z: Zone, rules: EventRules, c: Candle)
    ensures BreakCandle(z, rules, c) ==> c.close < z.low
  {
  }

  /** The last state of a zone's events, exactly. */
  lemma EndingExactly(z: Zone, candles: seq<Candle>, rules: EventRules, m: nat, ending: Option<EventState>)
    requires m <= |candles|
    ensures Ending(EventsOf(z, candles[m..], rules)) == ending <==> EndsAs(ending, z, candles, rules, m)
  {
    hide EventsOf, EndsAs, Ending;
    EndingFits(z, candles, rules, m);
    if EndsAs(ending, z, candles, rules, m) {
      EndingIsUnique(ending, Ending(EventsOf(z, candles[m..], rules)), z, candles, rules, m);
    }
  }

  /** Damage, read as a statement about the candles alone: the zone broke after its confirmation and
      no later candle of the stream closed above it. */
  lemma DamageMeaning(z: Zone, candles: seq<Candle>, rules: EventRules, m: nat)
    requires StartsAt(z, candles, m) && BuildStructureEvents(z, candles, rules).Ok?
    ensures Ending(BuildStructureEvents(z, candles, rules).value) == Some(ConfirmedBreak) <==>
              exists b :: BrokenAt(z, candles, rules, m, b) && NeverReturned(z, candles, b)
  {
    hide EventsOf, BrokenAt, NeverReturned;
    RunsFrom(z, candles, rules, m);
    EndingExactly(z, candles, rules, m, Some(ConfirmedBreak));
  }
}
