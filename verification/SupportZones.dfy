/** Support zones from clusters of pivots (support_zones.py, lines 55-96 and 157-222, and the
    `SupportZone` record of app/structure/htf_models.py, lines 63-116). */
module SupportZones {
  import opened Basics
  import opened Candles
  import opened Clusters
  import opened Ordering
  import opened Pivots
  import opened Reals
  import opened Rounding
  import opened Streams

  /** The digest of a zone, as the injective tuple it is computed from. */
  datatype ZoneId = ZoneId(
    source: Source, symbol: string, interval: Interval, low: real, high: real,
    confirmedAt: int, evidence: seq<int>)

  datatype RawZone = RawZone(
    id: ZoneId, source: Source, symbol: string, interval: Interval, low: real, high: real,
    createdAt: int, confirmedAt: int, lastTestAt: int, touches: int, rejections: int,
    strength: real, evidence: seq<int>)
  {
    /** What the constructor demands. */
    predicate Valid() {
      && symbol != ""
      && interval in {D1, H4}
      && FLOOR <= low < high
      && createdAt <= confirmedAt && createdAt <= lastTestAt
      && touches >= 2 && 0 <= rejections <= touches
      && 0.0 <= strength <= 100.0
      && |evidence| == touches
      && Increasing(evidence)
    }
  }

  /** A zone the constructor accepted. */
  type Zone = z: RawZone | z.Valid()
    witness RawZone(
      ZoneId(Bybit, "X", D1, 1.0, 2.0, 2, [0, 1]), Bybit, "X", D1, 1.0, 2.0, 1, 2, 2, 2, 0, 49.0, [0, 1])

  predicate Increasing(times: seq<int>) {
    forall i, j :: 0 <= i < j < |times| ==> times[i] < times[j]
  }

  predicate Earlier(a: Pivot, b: Pivot) { a.candle.openTime <= b.candle.openTime }

  function MinPrice(c: seq<Pivot>): real
    requires c != []
  {
    if |c| == 1 then c[0].Price()
    else
      var m := MinPrice(c[1..]);
      if c[0].Price() <= m then c[0].Price() else m
  }

  function MaxPrice(c: seq<Pivot>): real
    requires c != []
  {
    if |c| == 1 then c[0].Price()
    else
      var m := MaxPrice(c[1..]);
      if c[0].Price() >= m then c[0].Price() else m
  }

  lemma {:induction false} PriceBounds(c: seq<Pivot>)
    requires c != []
    ensures forall p :: p in c ==> MinPrice(c) <= p.Price() <= MaxPrice(c)
    ensures exists p :: p in c && p.Price() == MinPrice(c)
    ensures exists p :: p in c && p.Price() == MaxPrice(c)
    ensures 0.0 < MinPrice(c) <= MaxPrice(c)
  {
    assert c == [c[0]] + c[1..];
    assert c[0] in c;
    if |c| > 1 {
      PriceBounds(c[1..]);
    }
  }

  /** The pivots of a cluster come from the stream and their right windows are inside it. */
  predicate FromStream(c: seq<Pivot>, s: seq<Candle>, rules: ZoneRules) {
    && c != []
    && forall k :: 0 <= k < |c| ==>
         c[k].index + rules.pivotRight < |s| && c[k].candle == s[c[k].index]
  }

  function Padding(rules: ZoneRules): real { rules.zonePaddingBps / BPS }

  function Padded(low: real, rules: ZoneRules): real { low * (1.0 - Padding(rules)) }

  lemma PaddedIsBelow(low: real, rules: ZoneRules)
    requires low > 0.0
    ensures Padded(low, rules) <= low
  {
    var p := Padding(rules);
    MulMonotone(0.0, p, low);
    assert low * (1.0 - p) == low - p * low;
  }

  function LowEdge(c: seq<Pivot>, rules: ZoneRules): real
    requires c != []
  {
    Padded(MinPrice(c), rules)
  }

  function HighEdge(c: seq<Pivot>, rules: ZoneRules): real
    requires c != []
  {
    MaxPrice(c) * (1.0 + Padding(rules))
  }

  /** Padding widens the range of the lows on both sides and keeps its midpoint positive. */
  lemma EdgeFacts(c: seq<Pivot>, rules: ZoneRules)
    requires c != []
    ensures LowEdge(c, rules) <= MinPrice(c) <= MaxPrice(c) <= HighEdge(c, rules)
    ensures LowEdge(c, rules) + HighEdge(c, rules) > 0.0
    ensures LowEdge(c, rules) == HighEdge(c, rules) <==> rules.zonePaddingBps == 0.0 && MinPrice(c) == MaxPrice(c)
  {
    hide MinPrice, MaxPrice;
    PriceBounds(c);
    PaddedRange(MinPrice(c), MaxPrice(c), Padding(rules));
  }

  lemma PaddedRange(lo: real, hi: real, p: real)
    requires 0.0 < lo <= hi && p >= 0.0
    ensures lo * (1.0 - p) <= lo && hi <= hi * (1.0 + p)
    ensures lo * (1.0 - p) + hi * (1.0 + p) > 0.0
    ensures lo * (1.0 - p) == hi * (1.0 + p) <==> p == 0.0 && lo == hi
  {
    var lp, hp := lo * p, hi * p;
    assert lo * (1.0 - p) == lo - lp && hi * (1.0 + p) == hi + hp;
    MulMonotone(lo, hi, p);
    if p > 0.0 {
      MulStrict(0.0, lo, p);
    }
  }

  function WidthBps(low: real, high: real): real
    requires low + high > 0.0
  {
    (high - low) / ((low + high) / 2.0) * BPS
  }

  function Rejects(rules: ZoneRules): Pivot -> bool {
    (p: Pivot) => (p.candle.close - p.Price()) / p.Price() * BPS >= rules.minimumRejectionBps
  }

  function Strength(touches: nat, rejections: nat, lastIndex: nat, total: nat): real
    requires total > 0
  {
    var recency := (lastIndex + 1) as real / total as real;
    var score := 25.0 + 12.0 * touches as real + 6.0 * rejections as real + recency * 15.0;
    Quantize(if score < 100.0 then score else 100.0, 100.0)
  }

  lemma StrengthRange(touches: nat, rejections: nat, lastIndex: nat, total: nat)
    requires total > 0 && touches >= 2
    ensures 49.0 <= Strength(touches, rejections, lastIndex, total) <= 100.0
  {
    QuotientCompare((lastIndex + 1) as real, total as real, 0.0);
    var recency := (lastIndex + 1) as real / total as real;
    var score := 25.0 + 12.0 * touches as real + 6.0 * rejections as real + recency * 15.0;
    QuantizeBounds(if score < 100.0 then score else 100.0, 100.0, 4900, 10000);
  }

  function OpenTimes(c: seq<Pivot>): (r: seq<int>)
    ensures |r| == |c| && forall i :: 0 <= i < |c| ==> r[i] == c[i].candle.openTime
  {
    seq(|c|, i requires 0 <= i < |c| => c[i].candle.openTime)
  }

  /** The record built for a cluster, before the constructor checks it. */
  function MakeZone(c: seq<Pivot>, s: seq<Candle>, rules: ZoneRules): RawZone
    requires FromStream(c, s, rules)
  {
    var ordered := Sort(c, Earlier);
    SortedFromStream(c, s, rules);
    var first, last := ordered[0], ordered[|ordered| - 1];
    var low, high := LowEdge(c, rules), HighEdge(c, rules);
    var confirmedAt := s[last.index + rules.pivotRight].CloseTime();
    var rejections := Tally(ordered, Rejects(rules));
    RawZone(
      ZoneId(first.candle.source, first.candle.symbol, first.candle.interval, low, high,
             confirmedAt, OpenTimes(ordered)),
      first.candle.source, first.candle.symbol, first.candle.interval, low, high,
      first.candle.CloseTime(), confirmedAt, last.candle.CloseTime(), |ordered|, rejections,
      Strength(|ordered|, rejections, last.index, |s|), OpenTimes(ordered))
  }

  lemma SortedFromStream(c: seq<Pivot>, s: seq<Candle>, rules: ZoneRules)
    requires FromStream(c, s, rules)
    ensures FromStream(Sort(c, Earlier), s, rules)
  {
    var ordered := Sort(c, Earlier);
    SameElements(c, ordered);
    forall k | 0 <= k < |ordered|
      ensures ordered[k].index + rules.pivotRight < |s| && ordered[k].candle == s[ordered[k].index]
    {
      assert ordered[k] in ordered;
    }
  }

  /** The enclosing width test, and the constructor's checks on what passes it. */
  function ZoneFromCluster(c: seq<Pivot>, s: seq<Candle>, rules: ZoneRules): Result<Option<Zone>>
    requires FromStream(c, s, rules)
  {
    EdgeFacts(c, rules);
    if |c| < rules.minimumTouches then Ok(None)
    else if WidthBps(LowEdge(c, rules), HighEdge(c, rules)) > rules.maximumWidthBps then Ok(None)
    else if MakeZone(c, s, rules).Valid() then Ok(Some(MakeZone(c, s, rules)))
    else Err(InvalidZone)
  }

  lemma EarlierIsTotal()
    ensures TotalPreorder(Earlier)
  {
  }

  ghost predicate InStreamOrder(c: seq<Pivot>) {
    forall i, j :: 0 <= i < j < |c| ==>
      c[i].index < c[j].index && c[i].candle.openTime < c[j].candle.openTime
  }

  /** Sorting a cluster by time arranges its pivots in strict stream order. */
  lemma OrderedByTime(c: seq<Pivot>, s: seq<Candle>, rules: ZoneRules)
    requires FromStream(c, s, rules) && Chronological(s) && Distinct(c)
    ensures FromStream(Sort(c, Earlier), s, rules)
    ensures InStreamOrder(Sort(c, Earlier))
    ensures Increasing(OpenTimes(Sort(c, Earlier)))
  {
    hide Sort;
    var ordered := Sort(c, Earlier);
    EarlierIsTotal();
    SortSorts(c, Earlier);
    DistinctPermutes(c, ordered);
    SortedFromStream(c, s, rules);
    forall i, j | 0 <= i < j < |ordered|
      ensures ordered[i].index < ordered[j].index && ordered[i].candle.openTime < ordered[j].candle.openTime
    {
      var a, b := ordered[i], ordered[j];
      assert Earlier(a, b) && a != b;
      LaterOpenLaterIndex(s, a.index, b.index);
    }
  }

  lemma LaterOpenLaterIndex(s: seq<Candle>, i: nat, j: nat)
    requires Chronological(s) && i < |s| && j < |s| && s[i].openTime <= s[j].openTime
    ensures i <= j
  {
  }

  /** Apart from the two price edges, every field of the record passes the constructor. */
  lemma ZoneValidity(c: seq<Pivot>, s: seq<Candle>, rules: ZoneRules, source: Source, symbol: string, interval: Interval)
    requires FromStream(c, s, rules) && Stream(s, source, symbol, interval) && interval in {D1, H4}
    requires Distinct(c) && |c| >= rules.minimumTouches
    ensures var z := MakeZone(c, s, rules);
            && z.source == source && z.symbol == symbol && z.interval == interval
            && (z.Valid() <==> FLOOR <= LowEdge(c, rules) && LowEdge(c, rules) < HighEdge(c, rules))
            && 49.0 <= z.strength <= 100.0
  {
    hide LowEdge, HighEdge, Sort, Strength, Rejects;
    var ordered := Sort(c, Earlier);
    OrderedByTime(c, s, rules);
    var first, last := ordered[0], ordered[|ordered| - 1];
    assert s[first.index].Trades(source, symbol, interval);
    assert s[last.index].Trades(source, symbol, interval);
    assert s[last.index + rules.pivotRight].Trades(source, symbol, interval);
    assert s[last.index].openTime < s[last.index + rules.pivotRight].openTime;
    StrengthRange(|ordered|, Tally(ordered, Rejects(rules)), last.index, |s|);
  }

  /** The cluster has enough touches, is narrow enough in price, and its padded low edge is under
      the floor or the padding is zero on equal lows. */
  predicate Refused(c: seq<Pivot>, rules: ZoneRules) {
    && c != [] && |c| >= rules.minimumTouches
    && (EdgeFacts(c, rules); WidthBps(LowEdge(c, rules), HighEdge(c, rules)) <= rules.maximumWidthBps)
    && (Padded(MinPrice(c), rules) < FLOOR || (rules.zonePaddingBps == 0.0 && MinPrice(c) == MaxPrice(c)))
  }

  /** Building a zone raises exactly for such a cluster. */
  lemma ZoneRaisesExactly(c: seq<Pivot>, s: seq<Candle>, rules: ZoneRules, source: Source, symbol: string, interval: Interval)
    requires FromStream(c, s, rules) && Stream(s, source, symbol, interval) && interval in {D1, H4}
    requires Distinct(c)
    ensures ZoneFromCluster(c, s, rules).Err? <==> Refused(c, rules)
  {
    hide MakeZone;
    EdgeFacts(c, rules);
    if |c| >= rules.minimumTouches {
      ZoneValidity(c, s, rules, source, symbol, interval);
    }
  }

  /** Every evidence low lies inside the zone, and the right window of every evidence pivot
      had closed when the zone was confirmed. */
  ghost predicate Witnessed(z: RawZone, s: seq<Candle>, rules: ZoneRules) {
    forall k :: 0 <= k < |z.evidence| ==> EvidenceAt(z, s, rules, z.evidence[k])
  }

  ghost predicate EvidenceAt(z: RawZone, s: seq<Candle>, rules: ZoneRules, t: int) {
    exists i ::
      && 0 <= i && i + rules.pivotRight < |s|
      && s[i].openTime == t
      && z.low <= s[i].low <= z.high
      && s[i + rules.pivotRight].CloseTime() <= z.confirmedAt
  }

  lemma ZoneWitnessed(c: seq<Pivot>, s: seq<Candle>, rules: ZoneRules, source: Source, symbol: string, interval: Interval)
    requires FromStream(c, s, rules) && Stream(s, source, symbol, interval) && Distinct(c)
    ensures Witnessed(MakeZone(c, s, rules), s, rules)
  {
    hide *;
    var z := MakeZone(c, s, rules);
    forall k | 0 <= k < |z.evidence| ensures EvidenceAt(z, s, rules, z.evidence[k]) {
      EvidenceWitnessed(c, s, rules, source, symbol, interval, k);
    }
    WitnessedIfAll(z, s, rules);
  }

  lemma WitnessedIfAll(z: RawZone, s: seq<Candle>, rules: ZoneRules)
    requires forall k :: 0 <= k < |z.evidence| ==> EvidenceAt(z, s, rules, z.evidence[k])
    ensures Witnessed(z, s, rules)
  {
  }

  lemma EvidenceWitnessed(c: seq<Pivot>, s: seq<Candle>, rules: ZoneRules, source: Source, symbol: string, interval: Interval, k: nat)
    requires FromStream(c, s, rules) && Stream(s, source, symbol, interval) && Distinct(c)
    requires k < |MakeZone(c, s, rules).evidence|
    ensures EvidenceAt(MakeZone(c, s, rules), s, rules, MakeZone(c, s, rules).evidence[k])
  {
    hide LowEdge, HighEdge, Sort, Strength, Rejects, EvidenceAt;
    var z, ordered := MakeZone(c, s, rules), Sort(c, Earlier);
    OrderedByTime(c, s, rules);
    EdgeFacts(c, rules);
    var i := ordered[k].index;
    PricedInside(c, ordered, k);
    WindowsClose(s, source, symbol, interval, i + rules.pivotRight, ordered[|ordered| - 1].index + rules.pivotRight);
    EvidenceFound(z, s, rules, i, z.evidence[k]);
  }

  lemma EvidenceFound(z: RawZone, s: seq<Candle>, rules: ZoneRules, i: nat, t: int)
    requires i + rules.pivotRight < |s| && s[i].openTime == t && z.low <= s[i].low <= z.high
    requires s[i + rules.pivotRight].CloseTime() <= z.confirmedAt
    ensures EvidenceAt(z, s, rules, t)
  {
  }

  lemma PricedInside(c: seq<Pivot>, ordered: seq<Pivot>, k: nat)
    requires multiset(c) == multiset(ordered) && k < |ordered| && c != []
    ensures MinPrice(c) <= ordered[k].Price() <= MaxPrice(c)
  {
    SameElements(c, ordered);
    PriceBounds(c);
    assert ordered[k] in c;
  }

  lemma WindowsClose(s: seq<Candle>, source: Source, symbol: string, interval: Interval, i: nat, j: nat)
    requires Stream(s, source, symbol, interval) && i <= j < |s|
    ensures s[i].CloseTime() <= s[j].CloseTime()
  {
  }

  /** The zones of the clusters in order; one rejected record fails the whole derivation. */
  function ZonesOf(clusters: seq<seq<Pivot>>, s: seq<Candle>, rules: ZoneRules): Result<seq<Zone>>
    requires forall i :: 0 <= i < |clusters| ==> FromStream(clusters[i], s, rules)
  {
    if clusters == [] then Ok([])
    else
      var before := ZonesOf(clusters[..|clusters| - 1], s, rules);
      if before.Err? then before
      else
        match ZoneFromCluster(clusters[|clusters| - 1], s, rules)
        case Err(fault) => Err(fault)
        case Ok(None) => before
        case Ok(Some(zone)) => Ok(before.value + [zone])
  }

  /** The descending key `(strength, last_test_at, high, zone_id)`; `rank` orders the digests. */
  predicate Precedes(rank: ZoneId -> int, a: Zone, b: Zone) {
    || a.strength > b.strength
    || (a.strength == b.strength && a.lastTestAt > b.lastTestAt)
    || (a.strength == b.strength && a.lastTestAt == b.lastTestAt && a.high > b.high)
    || (a.strength == b.strength && a.lastTestAt == b.lastTestAt && a.high == b.high && rank(a.id) >= rank(b.id))
  }

  function Ranking(rank: ZoneId -> int): (Zone, Zone) -> bool {
    (a: Zone, b: Zone) => Precedes(rank, a, b)
  }

  lemma RankingIsTotal(rank: ZoneId -> int)
    ensures TotalPreorder(Ranking(rank))
  {
  }

  ghost predicate InRankOrder(zones: seq<Zone>, rank: ZoneId -> int) {
    forall i, j :: 0 <= i < j < |zones| ==> Precedes(rank, zones[i], zones[j])
  }

  function DeriveSupportZones(s: seq<Candle>, rules: ZoneRules, rank: ZoneId -> int): Result<seq<Zone>> {
    if s == [] then Ok([])
    else if s[0].interval !in {D1, H4} then Err(UnsupportedInterval)
    else if !Stream(s, s[0].source, s[0].symbol, s[0].interval) then Err(InvalidStream)
    else
      ClustersFromStream(s, rules);
      match ZonesOf(Clustered(AllPivots(s, rules), rules), s, rules)
      case Err(fault) => Err(fault)
      case Ok(zones) => Ok(Take(Sort(zones, Ranking(rank)), rules.maximumZones))
  }

  lemma {:induction false} FlattenMember(clusters: seq<seq<Pivot>>, i: nat, p: Pivot)
    requires i < |clusters| && p in clusters[i]
    ensures p in Flatten(clusters)
  {
    if i < |clusters| - 1 {
      FlattenMember(clusters[..|clusters| - 1], i, p);
    }
  }

  lemma PivotsDistinct(s: seq<Candle>, rules: ZoneRules)
    ensures Distinct(AllPivots(s, rules))
  {
    var pivots := AllPivots(s, rules);
    PivotsThinned(s, rules);
    forall i, j | 0 <= i < j < |pivots| ensures pivots[i] != pivots[j] {
      PivotsIncrease(s, rules, |s| - rules.pivotRight, pivots, i, j);
    }
  }

  /** The clusters of a stream's pivots consist of that stream's candles. */
  lemma ClustersFromStream(s: seq<Candle>, rules: ZoneRules)
    ensures var clusters := Clustered(AllPivots(s, rules), rules);
            && WellClustered(clusters, rules.clusterToleranceBps)
            && forall i :: 0 <= i < |clusters| ==> FromStream(clusters[i], s, rules)
  {
    hide Qualifies, Joins, Apart, Sort;
    var pivots := AllPivots(s, rules);
    var clusters := Clustered(pivots, rules);
    PivotsDistinct(s, rules);
    PivotsThinned(s, rules);
    ClusteringTheorem(pivots, rules);
    SameElements(Flatten(clusters), pivots);
    forall i | 0 <= i < |clusters| ensures FromStream(clusters[i], s, rules) {
      assert Tight(clusters[i], rules.clusterToleranceBps);
      forall k | 0 <= k < |clusters[i]|
        ensures clusters[i][k].index + rules.pivotRight < |s| && clusters[i][k].candle == s[clusters[i][k].index]
      {
        FlattenMember(clusters, i, clusters[i][k]);
        var p :| 0 <= p < |pivots| && pivots[p] == clusters[i][k];
      }
    }
  }

  /** Zone `z` was built from cluster number `k`. */
  ghost predicate BuiltFrom(z: Zone, clusters: seq<seq<Pivot>>, s: seq<Candle>, rules: ZoneRules, k: int) {
    && 0 <= k < |clusters|
    && FromStream(clusters[k], s, rules)
    && ZoneFromCluster(clusters[k], s, rules) == Ok(Some(z))
  }

  lemma {:induction false} ZonesBuilt(clusters: seq<seq<Pivot>>, s: seq<Candle>, rules: ZoneRules, z: Zone) returns (k: int)
    requires forall i :: 0 <= i < |clusters| ==> FromStream(clusters[i], s, rules)
    requires ZonesOf(clusters, s, rules).Ok? && z in ZonesOf(clusters, s, rules).value
    ensures BuiltFrom(z, clusters, s, rules, k)
  {
    hide ZoneFromCluster, FromStream;
    var n := |clusters|;
    if ZoneFromCluster(clusters[n - 1], s, rules) == Ok(Some(z)) {
      k := n - 1;
    } else {
      k := ZonesBuilt(clusters[..n - 1], s, rules, z);
    }
  }

  /** The derivation fails exactly when some cluster's record is refused. */
  lemma {:induction false} ZonesRaiseExactly(clusters: seq<seq<Pivot>>, s: seq<Candle>, rules: ZoneRules)
    requires forall i :: 0 <= i < |clusters| ==> FromStream(clusters[i], s, rules)
    ensures ZonesOf(clusters, s, rules).Err? <==>
              exists i :: 0 <= i < |clusters| && ZoneFromCluster(clusters[i], s, rules).Err?
    ensures ZonesOf(clusters, s, rules).Err? ==> ZonesOf(clusters, s, rules).fault == InvalidZone
  {
    hide FromStream, MakeZone, LowEdge, HighEdge, WidthBps;
    if clusters != [] {
      var n := |clusters|;
      var front := clusters[..n - 1];
      ZonesRaiseExactly(front, s, rules);
      assert forall i :: 0 <= i < n - 1 ==> front[i] == clusters[i];
      if ZonesOf(front, s, rules).Err? {
        var i :| 0 <= i < n - 1 && ZoneFromCluster(front[i], s, rules).Err?;
        assert ZoneFromCluster(clusters[i], s, rules).Err?;
      }
    }
  }

  /** Some cluster of the stream's pivots is refused. */
  ghost predicate HasRefusedCluster(s: seq<Candle>, rules: ZoneRules) {
    var clusters := Clustered(AllPivots(s, rules), rules);
    exists i :: 0 <= i < |clusters| && Refused(clusters[i], rules)
  }

  /** Exactly when deriving zones raises, and what: the interval of the first candle, the order or
      market of the stream, or a refused cluster. */
  lemma DerivationRaisesExactly(s: seq<Candle>, rules: ZoneRules, rank: ZoneId -> int)
    ensures var r := DeriveSupportZones(s, rules, rank);
            r.Err? <==> s != [] && (|| s[0].interval !in {D1, H4}
                                    || !Stream(s, s[0].source, s[0].symbol, s[0].interval)
                                    || HasRefusedCluster(s, rules))
    ensures var r := DeriveSupportZones(s, rules, rank);
            r.Err? ==> r.fault == if s[0].interval !in {D1, H4} then UnsupportedInterval
                                  else if !Stream(s, s[0].source, s[0].symbol, s[0].interval) then InvalidStream
                                  else InvalidZone
  {
    hide FromStream, ZoneFromCluster, Sort, Qualifies, Sorted, Joins, Apart, Refused, Stream;
    if s != [] && s[0].interval in {D1, H4} && Stream(s, s[0].source, s[0].symbol, s[0].interval) {
      var clusters := Clustered(AllPivots(s, rules), rules);
      ClustersFromStream(s, rules);
      forall i | 0 <= i < |clusters| ensures ZoneFromCluster(clusters[i], s, rules).Err? <==> Refused(clusters[i], rules) {
        assert Tight(clusters[i], rules.clusterToleranceBps);
        ZoneRaisesExactly(clusters[i], s, rules, s[0].source, s[0].symbol, s[0].interval);
      }
      ZonesRaiseExactly(clusters, s, rules);
    }
  }

  const UNPADDED: ZoneRules := RawZoneRules(1, 1, 2, 2, 75.0, 0.0, 180.0, 25.0, 5)

  function TwinCandle(i: nat): Candle {
    var price := if i % 2 == 0 then 11.0 else 10.0;
    RawCandle(Bybit, "X", H4, i * 14400, price, price, price, price, 0.0)
  }

  /** Five candles with two equal lows. */
  const TWIN_LOWS: seq<Candle> := [TwinCandle(0), TwinCandle(1), TwinCandle(2), TwinCandle(3), TwinCandle(4)]

  lemma TwinPivots()
    ensures AllPivots(TWIN_LOWS, UNPADDED) == [Pivot(1, TwinCandle(1)), Pivot(3, TwinCandle(3))]
  {
    var s := TWIN_LOWS;
    assert !Qualifies(s, UNPADDED, 0) && Qualifies(s, UNPADDED, 1) && !Qualifies(s, UNPADDED, 2) && Qualifies(s, UNPADDED, 3);
    hide Qualifies;
    assert PivotsBelow(s, UNPADDED, 0) == [];
    assert PivotsBelow(s, UNPADDED, 1) == [];
    assert PivotsBelow(s, UNPADDED, 2) == [Pivot(1, s[1])];
    assert PivotsBelow(s, UNPADDED, 3) == [Pivot(1, s[1])];
  }

  lemma JoinedPair(a: Pivot, b: Pivot, tolerance: real)
    requires Joins([a], b, tolerance)
    ensures AddPivot(AddPivot([], a, tolerance), b, tolerance) == [[a, b]]
  {
    hide Joins;
    assert [] + [[a]] == [[a]];
    assert [a] + [b] == [a, b];
    assert [[a]][..0] + [[a, b]] == [[a, b]];
  }

  /** Two pivots of one price, in time order, form one cluster. */
  lemma TwinCluster(a: Pivot, b: Pivot, rules: ZoneRules)
    requires a.Price() == b.Price() && a.candle.openTime < b.candle.openTime
    ensures Clustered([a, b], rules) == [[a, b]]
  {
    hide Sort, Joins, Tight, AddPivot;
    var tolerance := rules.clusterToleranceBps;
    SortFixes([a, b], CheaperThenEarlier);
    SingletonTight(a, tolerance);
    EqualPriceJoins([a], b, tolerance);
    JoinedPair(a, b, tolerance);
    assert [a, b][..1] == [a] && [a][..0] == [];
    assert Grouped([a], tolerance) == AddPivot([], a, tolerance);
  }

  /** Without padding that cluster is refused. */
  lemma TwinRefused(a: Pivot, b: Pivot, rules: ZoneRules)
    requires a.Price() == b.Price() && rules.zonePaddingBps == 0.0 && rules.minimumTouches == 2
    ensures Refused([a, b], rules)
  {
    var c := [a, b];
    assert c[1..] == [b];
    assert MinPrice(c) == MaxPrice(c) == a.Price();
    EdgeFacts(c, rules);
    hide MinPrice, MaxPrice;
    assert LowEdge(c, rules) == HighEdge(c, rules);
  }

  /** Two equal lows without padding make the derivation raise. */
  lemma TwinLowsRaise(rank: ZoneId -> int)
    ensures DeriveSupportZones(TWIN_LOWS, UNPADDED, rank) == Err(InvalidZone)
  {
    hide AllPivots, Clustered, Refused, DeriveSupportZones;
    var a, b := Pivot(1, TwinCandle(1)), Pivot(3, TwinCandle(3));
    TwinPivots();
    TwinCluster(a, b, UNPADDED);
    TwinRefused(a, b, UNPADDED);
    assert Clustered(AllPivots(TWIN_LOWS, UNPADDED), UNPADDED)[0] == [a, b];
    DerivationRaisesExactly(TWIN_LOWS, UNPADDED, rank);
  }

  /** Padding strictly inside (0, 100%) and lows that clear the floor once padded. */
  ghost predicate Buildable(s: seq<Candle>, rules: ZoneRules) {
    && 0.0 < rules.zonePaddingBps < BPS
    && forall i :: 0 <= i < |s| ==> Padded(s[i].low, rules) >= FLOOR
  }

  lemma BuildableCluster(c: seq<Pivot>, s: seq<Candle>, rules: ZoneRules, source: Source, symbol: string, interval: Interval)
    requires FromStream(c, s, rules) && Stream(s, source, symbol, interval) && interval in {D1, H4}
    requires Distinct(c) && Buildable(s, rules)
    ensures ZoneFromCluster(c, s, rules).Ok?
  {
    hide ZoneFromCluster, MinPrice, MaxPrice, WidthBps, LowEdge, HighEdge;
    ZoneRaisesExactly(c, s, rules, source, symbol, interval);
    PriceBounds(c);
    var p :| p in c && p.Price() == MinPrice(c);
    var k :| 0 <= k < |c| && c[k] == p;
    assert p.Price() == s[p.index].low;
  }

  /** What a caller may rely on for each derived zone. */
  ghost predicate SoundZone(z: Zone, s: seq<Candle>, rules: ZoneRules, source: Source, symbol: string, interval: Interval) {
    && z.Valid()
    && z.source == source && z.symbol == symbol && z.interval == interval
    && Witnessed(z, s, rules)
    && z.low + z.high > 0.0 && WidthBps(z.low, z.high) <= rules.maximumWidthBps
    && 49.0 <= z.strength <= 100.0
    && |z.evidence| >= rules.minimumTouches
    && z.id == ZoneId(source, symbol, interval, z.low, z.high, z.confirmedAt, z.evidence)
  }

  lemma BuiltZoneIsSound(c: seq<Pivot>, s: seq<Candle>, rules: ZoneRules, source: Source, symbol: string, interval: Interval, z: Zone)
    requires FromStream(c, s, rules) && Stream(s, source, symbol, interval) && interval in {D1, H4}
    requires Distinct(c) && ZoneFromCluster(c, s, rules) == Ok(Some(z))
    ensures SoundZone(z, s, rules, source, symbol, interval)
  {
    hide Sort, Strength, Rejects, Witnessed, WidthBps;
    EdgeFacts(c, rules);
    ZoneValidity(c, s, rules, source, symbol, interval);
    ZoneWitnessed(c, s, rules, source, symbol, interval);
  }

  /** Digests identify zones: clusters with equal evidence share a pivot, hence are the same. */
  lemma SameIdSameZone(clusters: seq<seq<Pivot>>, s: seq<Candle>, rules: ZoneRules, i: nat, j: nat, a: Zone, b: Zone)
    requires WellClustered(clusters, rules.clusterToleranceBps) && Chronological(s)
    requires BuiltFrom(a, clusters, s, rules, i) && BuiltFrom(b, clusters, s, rules, j)
    requires a.id == b.id
    ensures a == b
  {
    hide Sort, Strength, Rejects, WidthBps, LowEdge, HighEdge, Joins, Apart, Sorted;
    var p, q := Sort(clusters[i], Earlier)[0], Sort(clusters[j], Earlier)[0];
    assert a.id.evidence[0] == b.id.evidence[0];
    FirstMember(clusters[i], s, rules);
    FirstMember(clusters[j], s, rules);
    SameOpenSameIndex(s, p.index, q.index);
    if i < j {
      PriceRangesSeparate(clusters, rules.clusterToleranceBps, i, j, p, q);
    } else if j < i {
      PriceRangesSeparate(clusters, rules.clusterToleranceBps, j, i, q, p);
    }
  }

  lemma FirstMember(c: seq<Pivot>, s: seq<Candle>, rules: ZoneRules)
    requires FromStream(c, s, rules)
    ensures var p := Sort(c, Earlier)[0];
            p in c && p.index < |s| && p.candle == s[p.index]
  {
  }

  /** Whatever the rules, every zone that is returned is sound and identified by its digest. */
  lemma DerivedZonesSound(s: seq<Candle>, rules: ZoneRules, rank: ZoneId -> int, source: Source, symbol: string, interval: Interval)
    requires Stream(s, source, symbol, interval) && DeriveSupportZones(s, rules, rank).Ok?
    ensures var zones := DeriveSupportZones(s, rules, rank).value;
            && |zones| <= rules.maximumZones
            && (forall z :: z in zones ==> SoundZone(z, s, rules, source, symbol, interval))
            && (forall a, b :: a in zones && b in zones && a.id == b.id ==> a == b)
  {
    hide FromStream, ZoneFromCluster, Sort, SoundZone, Qualifies, Sorted, Joins, Apart;
    if s != [] {
      assert s[0].Trades(source, symbol, interval);
      var clusters := Clustered(AllPivots(s, rules), rules);
      ClustersFromStream(s, rules);
      var all := ZonesOf(clusters, s, rules).value;
      var zones := DeriveSupportZones(s, rules, rank).value;
      SameElements(all, Sort(all, Ranking(rank)));
      assert forall z :: z in zones ==> z in all;
      forall z | z in zones ensures SoundZone(z, s, rules, source, symbol, interval) {
        var k := ZonesBuilt(clusters, s, rules, z);
        assert Tight(clusters[k], rules.clusterToleranceBps);
        BuiltZoneIsSound(clusters[k], s, rules, source, symbol, interval, z);
      }
      forall a, b | a in zones && b in zones && a.id == b.id ensures a == b {
        var i := ZonesBuilt(clusters, s, rules, a);
        var j := ZonesBuilt(clusters, s, rules, b);
        SameIdSameZone(clusters, s, rules, i, j, a, b);
      }
    }
  }

  /** With padding inside (0, 100%) and lows that clear the floor, nothing is raised. */
  lemma DerivationNeverRaises(s: seq<Candle>, rules: ZoneRules, rank: ZoneId -> int, source: Source, symbol: string, interval: Interval)
    requires Stream(s, source, symbol, interval) && interval in {D1, H4} && Buildable(s, rules)
    ensures DeriveSupportZones(s, rules, rank).Ok?
  {
    hide FromStream, ZoneFromCluster, Sort, Qualifies, Sorted, Joins, Apart;
    if s != [] {
      assert s[0].Trades(source, symbol, interval);
      var clusters := Clustered(AllPivots(s, rules), rules);
      ClustersFromStream(s, rules);
      forall i | 0 <= i < |clusters| ensures ZoneFromCluster(clusters[i], s, rules).Ok? {
        assert Tight(clusters[i], rules.clusterToleranceBps);
        BuildableCluster(clusters[i], s, rules, source, symbol, interval);
      }
      ZonesRaiseExactly(clusters, s, rules);
    }
  }

  /** The returned list is the top of the ranking: in order, and nothing left out precedes it. */
  lemma TopRanked(s: seq<Candle>, rules: ZoneRules, rank: ZoneId -> int)
    requires s != [] && DeriveSupportZones(s, rules, rank).Ok?
    ensures forall i :: 0 <= i < |Clustered(AllPivots(s, rules), rules)| ==>
              FromStream(Clustered(AllPivots(s, rules), rules)[i], s, rules)
    ensures ZonesOf(Clustered(AllPivots(s, rules), rules), s, rules).Ok?
    ensures var all := ZonesOf(Clustered(AllPivots(s, rules), rules), s, rules).value;
            var top := DeriveSupportZones(s, rules, rank).value;
            && |top| == (if |all| < rules.maximumZones then |all| else rules.maximumZones)
            && InRankOrder(top, rank)
            && multiset(top) <= multiset(all)
            && (forall a, b :: a in top && b in multiset(all) - multiset(top) ==> Precedes(rank, a, b))
  {
    hide FromStream, Precedes, Qualifies, Joins, Apart, Tight, Sort;
    ClustersFromStream(s, rules);
    var all := ZonesOf(Clustered(AllPivots(s, rules), rules), s, rules).value;
    PrefixOfRanking(all, rules.maximumZones, rank);
  }

  lemma PrefixOfRanking(all: seq<Zone>, n: nat, rank: ZoneId -> int)
    ensures var top := Take(Sort(all, Ranking(rank)), n);
            && InRankOrder(top, rank)
            && multiset(top) <= multiset(all)
            && (forall a, b :: a in top && b in multiset(all) - multiset(top) ==> Precedes(rank, a, b))
  {
    hide Precedes, Sort;
    var sorted := Sort(all, Ranking(rank));
    var top := Take(sorted, n);
    SortByRanking(all, rank);
    SplitRanking(sorted, |top|, rank);
    Remainder(all, sorted, |top|);
    assert top == sorted[..|top|];
  }

  lemma Remainder<T>(all: seq<T>, sorted: seq<T>, k: nat)
    requires multiset(all) == multiset(sorted) && k <= |sorted|
    ensures multiset(sorted[..k]) <= multiset(all)
    ensures forall b :: b in multiset(all) - multiset(sorted[..k]) <==> b in sorted[k..]
  {
    assert sorted == sorted[..k] + sorted[k..];
    assert multiset(all) - multiset(sorted[..k]) == multiset(sorted[k..]);
  }

  lemma SplitRanking(sorted: seq<Zone>, k: nat, rank: ZoneId -> int)
    requires k <= |sorted|
    requires InRankOrder(sorted, rank)
    ensures forall a, b :: a in sorted[..k] && b in sorted[k..] ==> Precedes(rank, a, b)
  {
  }

  lemma SortByRanking(all: seq<Zone>, rank: ZoneId -> int)
    ensures InRankOrder(Sort(all, Ranking(rank)), rank)
  {
    hide Sort;
    RankingIsTotal(rank);
    SortSorts(all, Ranking(rank));
    var sorted := Sort(all, Ranking(rank));
    forall i, j | 0 <= i < j < |sorted| ensures Precedes(rank, sorted[i], sorted[j]) {
      assert Ranking(rank)(sorted[i], sorted[j]);
    }
  }

  /** The engine end to end: the two loops, the record construction and the sort. */
  method DeriveZones(s: seq<Candle>, rules: ZoneRules, rank: ZoneId -> int) returns (r: Result<seq<Zone>>)
    ensures r == DeriveSupportZones(s, rules, rank)
  {
    hide FromStream, ZoneFromCluster, Sort, Qualifies, Joins, Apart, Tight;
    if s == [] {
      return Ok([]);
    }
    if s[0].interval !in {D1, H4} {
      return Err(UnsupportedInterval);
    }
    var ok := CheckStream(s, s[0].source, s[0].symbol, s[0].interval);
    if !ok {
      return Err(InvalidStream);
    }
    var pivots := FindPivots(s, rules);
    var clusters := ClusterPivots(pivots, rules);
    ClustersFromStream(s, rules);
    var zones := [];
    for n := 0 to |clusters|
      invariant ZonesOf(clusters[..n], s, rules) == Ok(zones)
    {
      assert clusters[..n + 1][..n] == clusters[..n];
      match ZoneFromCluster(clusters[n], s, rules) {
        case Err(fault) =>
          FaultSticks(clusters, s, rules, n + 1);
          return Err(fault);
        case Ok(None) =>
        case Ok(Some(zone)) => zones := zones + [zone];
      }
    }
    assert clusters[..|clusters|] == clusters;
    zones := Sort(zones, Ranking(rank));
    return Ok(Take(zones, rules.maximumZones));
  }

  lemma {:induction false} FaultSticks(clusters: seq<seq<Pivot>>, s: seq<Candle>, rules: ZoneRules, n: nat)
    requires n <= |clusters| && forall i :: 0 <= i < |clusters| ==> FromStream(clusters[i], s, rules)
    requires ZonesOf(clusters[..n], s, rules).Err?
    ensures ZonesOf(clusters, s, rules) == ZonesOf(clusters[..n], s, rules)
    decreases |clusters| - n
  {
    hide FromStream, ZoneFromCluster;
    if n == |clusters| {
      assert clusters[..n] == clusters;
    } else {
      assert clusters[..n + 1][..n] == clusters[..n];
      FaultSticks(clusters, s, rules, n + 1);
    }
  }
}
