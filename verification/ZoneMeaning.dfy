/** Which zones a stream has and what each of them records, in prices, times and counts. */
module ZoneMeaning {
  import opened Basics
  import opened Candles
  import opened Clusters
  import opened Ordering
  import opened Pivots
  import opened Reals
  import opened Rounding
  import opened Streams
  import opened SupportZones

  // ----- The price edges of a cluster

  /** `lo` and `hi` are the least and the greatest low of the cluster. */
  ghost predicate LowsSpan(c: seq<Pivot>, lo: real, hi: real) {
    && (exists p :: p in c && p.candle.low == lo) && (exists p :: p in c && p.candle.low == hi)
    && forall p :: p in c ==> lo <= p.candle.low <= hi
  }

  /** The edge ten thousand times over, to stay clear of quotients: the least low less the padding. */
  function LowTimes(lo: real, rules: ZoneRules): real { lo * (10000.0 - rules.zonePaddingBps) }

  function HighTimes(hi: real, rules: ZoneRules): real { hi * (10000.0 + rules.zonePaddingBps) }

  /** Enough touches, and a padded range within the width limit relative to its middle. */
  predicate Narrow(touches: nat, lo: real, hi: real, rules: ZoneRules) {
    && touches >= rules.minimumTouches
    && (HighTimes(hi, rules) - LowTimes(lo, rules)) * 20000.0 <= rules.maximumWidthBps * (HighTimes(hi, rules) + LowTimes(lo, rules))
  }

  lemma EdgesTimes(c: seq<Pivot>, rules: ZoneRules, lo: real, hi: real)
    requires c != [] && LowsSpan(c, lo, hi)
    ensures MinPrice(c) == lo && MaxPrice(c) == hi
    ensures LowEdge(c, rules) * 10000.0 == LowTimes(lo, rules) && HighEdge(c, rules) * 10000.0 == HighTimes(hi, rules)
  {
    hide MinPrice, MaxPrice;
    PriceBounds(c);
    EdgeArithmetic(lo, hi, rules.zonePaddingBps);
  }

  lemma EdgeArithmetic(lo: real, hi: real, padding: real)
    ensures lo * (1.0 - padding / 10000.0) * 10000.0 == lo * (10000.0 - padding)
    ensures hi * (1.0 + padding / 10000.0) * 10000.0 == hi * (10000.0 + padding)
  {
    var p := padding / 10000.0;
    assert padding == p * 10000.0;
    assert lo * (1.0 - p) * 10000.0 == lo * ((1.0 - p) * 10000.0);
    assert hi * (1.0 + p) * 10000.0 == hi * ((1.0 + p) * 10000.0);
  }

  lemma WidthCompare(low: real, high: real, limit: real)
    requires low + high > 0.0
    ensures WidthBps(low, high) <= limit <==> (high * 10000.0 - low * 10000.0) * 20000.0 <= limit * (high * 10000.0 + low * 10000.0)
  {
    var middle := (low + high) / 2.0;
    QuotientCompare(high - low, middle, limit / 10000.0);
    assert limit / 10000.0 * middle * 10000.0 == limit * middle;
    assert limit * (high * 10000.0 + low * 10000.0) == 20000.0 * (limit * middle);
  }

  lemma NarrowExactly(c: seq<Pivot>, rules: ZoneRules, lo: real, hi: real)
    requires c != [] && LowsSpan(c, lo, hi)
    ensures LowEdge(c, rules) + HighEdge(c, rules) > 0.0
    ensures |c| >= rules.minimumTouches && WidthBps(LowEdge(c, rules), HighEdge(c, rules)) <= rules.maximumWidthBps <==>
              Narrow(|c|, lo, hi, rules)
  {
    hide LowEdge, HighEdge, WidthBps, LowTimes, HighTimes;
    EdgeFacts(c, rules);
    EdgesTimes(c, rules, lo, hi);
    WidthCompare(LowEdge(c, rules), HighEdge(c, rules), rules.maximumWidthBps);
  }

  // ----- What a zone records

  /** `first` and `last` are the earliest and the latest pivot of the cluster. */
  ghost predicate TimesSpan(c: seq<Pivot>, first: Pivot, last: Pivot) {
    first in c && last in c && forall p :: p in c ==> first.candle.openTime <= p.candle.openTime <= last.candle.openTime
  }

  /** The candle closes far enough above its own low. */
  function Bounces(rules: ZoneRules): Pivot -> bool {
    (p: Pivot) => (p.candle.close - p.candle.low) * 10000.0 >= rules.minimumRejectionBps * p.candle.low
  }

  /** Twenty-five points, twelve for a touch, six for a bounce and up to fifteen for recency, capped
      at a hundred and rounded to cents. */
  ghost predicate StrengthIs(touches: nat, bounces: nat, lastIndex: nat, total: nat, strength: real)
    requires total > 0
  {
    var score := 25.0 + 12.0 * touches as real + 6.0 * bounces as real + 15.0 * ((lastIndex + 1) as real / total as real);
    Rounded(if score > 100.0 then 100.0 else score, 100.0, strength)
  }

  ghost predicate EvidenceIs(c: seq<Pivot>, times: seq<int>) {
    && |times| == |c| && (forall i, j :: 0 <= i < j < |times| ==> times[i] < times[j])
    && forall t :: t in times <==> exists p :: p in c && p.candle.openTime == t
  }

  /** The zone records the cluster: its padded price range, its earliest and latest pivot, the close
      of the latest pivot's right window, its touches and bounces, and their open times. */
  ghost predicate ZoneOf(z: RawZone, c: seq<Pivot>, s: seq<Candle>, rules: ZoneRules, lo: real, hi: real, first: Pivot, last: Pivot) {
    && LowsSpan(c, lo, hi) && TimesSpan(c, first, last) && last.index + rules.pivotRight < |s|
    && z.low * 10000.0 == LowTimes(lo, rules) && z.high * 10000.0 == HighTimes(hi, rules)
    && z.source == first.candle.source && z.symbol == first.candle.symbol && z.interval == first.candle.interval
    && z.createdAt == first.candle.CloseTime() && z.lastTestAt == last.candle.CloseTime()
    && z.confirmedAt == s[last.index + rules.pivotRight].CloseTime()
    && z.touches == |c| && z.rejections == Tally(c, Bounces(rules)) && EvidenceIs(c, z.evidence)
    && StrengthIs(|c|, Tally(c, Bounces(rules)), last.index, |s|, z.strength)
    && z.id == ZoneId(z.source, z.symbol, z.interval, z.low, z.high, z.confirmedAt, z.evidence)
  }

  ghost predicate Shows(z: RawZone, c: seq<Pivot>, s: seq<Candle>, rules: ZoneRules) {
    exists lo, hi, first, last :: ZoneOf(z, c, s, rules, lo, hi, first, last)
  }

  lemma {:induction false} TallySame<T>(s: seq<T>, p: T -> bool, q: T -> bool)
    requires forall x :: x in s ==> p(x) == q(x)
    ensures Tally(s, p) == Tally(s, q)
  {
    if s != [] {
      TallySame(s[1..], p, q);
    }
  }

  lemma {:induction false} TallyInsert<T>(x: T, s: seq<T>, le: (T, T) -> bool, p: T -> bool)
    ensures Tally(Insert(x, s, le), p) == Tally(s, p) + if p(x) then 1 else 0
  {
    if s == [] || le(x, s[0]) {
      assert ([x] + s)[1..] == s;
    } else {
      TallyInsert(x, s[1..], le, p);
      assert ([s[0]] + Insert(x, s[1..], le))[1..] == Insert(x, s[1..], le);
    }
  }

  lemma {:induction false} TallySorted<T>(s: seq<T>, le: (T, T) -> bool, p: T -> bool)
    ensures Tally(Sort(s, le), p) == Tally(s, p)
  {
    if s != [] {
      TallySorted(s[1..], le, p);
      TallyInsert(s[0], Sort(s[1..], le), le, p);
    }
  }

  lemma BouncesAreRejections(p: Pivot, rules: ZoneRules)
    ensures Rejects(rules)(p) == Bounces(rules)(p)
  {
    var low, gap := p.candle.low, p.candle.close - p.candle.low;
    QuotientCompare(gap, low, rules.minimumRejectionBps / 10000.0);
    assert rules.minimumRejectionBps / 10000.0 * low * 10000.0 == rules.minimumRejectionBps * low;
  }

  lemma RejectionsCount(c: seq<Pivot>, rules: ZoneRules)
    ensures Tally(Sort(c, Earlier), Rejects(rules)) == Tally(c, Bounces(rules))
  {
    hide Tally, Sort, Rejects, Bounces;
    TallySorted(c, Earlier, Rejects(rules));
    forall p | p in c ensures Rejects(rules)(p) == Bounces(rules)(p) { BouncesAreRejections(p, rules); }
    TallySame(c, Rejects(rules), Bounces(rules));
  }

  lemma StrengthMeaning(touches: nat, bounces: nat, lastIndex: nat, total: nat)
    requires total > 0
    ensures StrengthIs(touches, bounces, lastIndex, total, Strength(touches, bounces, lastIndex, total))
  {
    hide Quantize, Rounded;
    var score := 25.0 + 12.0 * touches as real + 6.0 * bounces as real + 15.0 * ((lastIndex + 1) as real / total as real);
    var capped := if score > 100.0 then 100.0 else score;
    QuantizeExact(capped, 100.0, Quantize(capped, 100.0));
  }

  lemma TimesMatch(c: seq<Pivot>, ordered: seq<Pivot>, t: int)
    requires multiset(c) == multiset(ordered)
    ensures t in OpenTimes(ordered) <==> exists p :: p in c && p.candle.openTime == t
  {
    SameElements(c, ordered);
    var times := OpenTimes(ordered);
    if t in times {
      var k :| 0 <= k < |times| && times[k] == t;
      assert ordered[k] in c && ordered[k].candle.openTime == t;
    }
    if exists p :: p in c && p.candle.openTime == t {
      var p :| p in c && p.candle.openTime == t;
      var k :| 0 <= k < |ordered| && ordered[k] == p;
      assert times[k] == t;
    }
  }

  lemma EvidenceMatches(c: seq<Pivot>, s: seq<Candle>, rules: ZoneRules)
    requires FromStream(c, s, rules) && Chronological(s) && Distinct(c)
    ensures EvidenceIs(c, OpenTimes(Sort(c, Earlier)))
  {
    hide Sort, InStreamOrder, FromStream;
    var ordered := Sort(c, Earlier);
    OrderedByTime(c, s, rules);
    forall t ensures t in OpenTimes(ordered) <==> exists p :: p in c && p.candle.openTime == t {
      TimesMatch(c, ordered, t);
    }
  }

  lemma EndsSpan(c: seq<Pivot>, s: seq<Candle>, rules: ZoneRules)
    requires FromStream(c, s, rules) && Chronological(s) && Distinct(c)
    ensures var ordered := Sort(c, Earlier); TimesSpan(c, ordered[0], ordered[|ordered| - 1])
  {
    hide Sort;
    var ordered := Sort(c, Earlier);
    OrderedByTime(c, s, rules);
    SameElements(c, ordered);
    assert ordered[0] in ordered && ordered[|ordered| - 1] in ordered;
    forall p | p in c ensures ordered[0].candle.openTime <= p.candle.openTime <= ordered[|ordered| - 1].candle.openTime {
      var k :| 0 <= k < |ordered| && ordered[k] == p;
    }
  }

  /** The record built for a cluster shows exactly that cluster. */
  lemma ZoneShows(c: seq<Pivot>, s: seq<Candle>, rules: ZoneRules)
    requires FromStream(c, s, rules) && Chronological(s) && Distinct(c)
    ensures Shows(MakeZone(c, s, rules), c, s, rules)
  {
    hide Sort, Strength, StrengthIs, Rejects, Bounces, Tally, LowEdge, HighEdge, LowTimes, HighTimes, EvidenceIs, TimesSpan, LowsSpan, MinPrice, MaxPrice;
    var ordered := Sort(c, Earlier);
    SortedFromStream(c, s, rules);
    var lo, hi := MinPrice(c), MaxPrice(c);
    PricesSpan(c);
    EdgesTimes(c, rules, lo, hi);
    EndsSpan(c, s, rules);
    EvidenceMatches(c, s, rules);
    RejectionsCount(c, rules);
    StrengthMeaning(|c|, Tally(c, Bounces(rules)), ordered[|ordered| - 1].index, |s|);
    assert ZoneOf(MakeZone(c, s, rules), c, s, rules, lo, hi, ordered[0], ordered[|ordered| - 1]);
  }

  lemma PricesSpan(c: seq<Pivot>)
    requires c != []
    ensures LowsSpan(c, MinPrice(c), MaxPrice(c))
  {
    hide MinPrice, MaxPrice;
    PriceBounds(c);
  }

  // ----- Which clusters become zones

  /** Exactly the clusters with enough touches and a narrow enough range become zones, unless their
      record is refused. */
  lemma ClusterYields(c: seq<Pivot>, s: seq<Candle>, rules: ZoneRules, lo: real, hi: real)
    requires FromStream(c, s, rules) && Chronological(s) && Distinct(c) && LowsSpan(c, lo, hi)
    requires ZoneFromCluster(c, s, rules).Ok?
    ensures ZoneFromCluster(c, s, rules).value.Some? <==> Narrow(|c|, lo, hi, rules)
    ensures ZoneFromCluster(c, s, rules).value.Some? ==> Shows(ZoneFromCluster(c, s, rules).value.value, c, s, rules)
  {
    hide MakeZone, Shows, Narrow, WidthBps, LowEdge, HighEdge;
    NarrowExactly(c, rules, lo, hi);
    ZoneShows(c, s, rules);
  }

  ghost predicate BecomesZone(c: seq<Pivot>, rules: ZoneRules) {
    exists lo, hi :: LowsSpan(c, lo, hi) && Narrow(|c|, lo, hi, rules)
  }

  lemma BecomesExactly(c: seq<Pivot>, s: seq<Candle>, rules: ZoneRules)
    requires FromStream(c, s, rules) && Chronological(s) && Distinct(c) && ZoneFromCluster(c, s, rules).Ok?
    ensures ZoneFromCluster(c, s, rules).value.Some? <==> BecomesZone(c, rules)
    ensures ZoneFromCluster(c, s, rules).value.Some? ==> Shows(ZoneFromCluster(c, s, rules).value.value, c, s, rules)
  {
    hide ZoneFromCluster, Shows, Narrow, LowsSpan, MinPrice, MaxPrice, FromStream, Chronological, Distinct;
    assert c != [] by { NotEmpty(c, s, rules); }
    PricesSpan(c);
    ClusterYields(c, s, rules, MinPrice(c), MaxPrice(c));
    forall lo, hi | LowsSpan(c, lo, hi) ensures lo == MinPrice(c) && hi == MaxPrice(c) {
      EdgesTimes(c, rules, lo, hi);
    }
  }

  lemma NotEmpty(c: seq<Pivot>, s: seq<Candle>, rules: ZoneRules)
    requires FromStream(c, s, rules)
    ensures c != []
  {
  }

  /** `picks` are the numbers of the clusters that become zones, in order, and `all` their zones. */
  ghost predicate Listed(all: seq<Zone>, picks: seq<nat>, clusters: seq<seq<Pivot>>, s: seq<Candle>, rules: ZoneRules) {
    && |all| == |picks| && (forall i, j :: 0 <= i < j < |picks| ==> picks[i] < picks[j])
    && (forall k :: 0 <= k < |clusters| ==> (k in picks <==> BecomesZone(clusters[k], rules)))
    && (forall j :: 0 <= j < |picks| ==> picks[j] < |clusters| && Shows(all[j], clusters[picks[j]], s, rules))
  }

  lemma {:induction false} ZonesListed(clusters: seq<seq<Pivot>>, s: seq<Candle>, rules: ZoneRules) returns (picks: seq<nat>)
    requires forall i :: 0 <= i < |clusters| ==> FromStream(clusters[i], s, rules) && Distinct(clusters[i])
    requires Chronological(s) && ZonesOf(clusters, s, rules).Ok?
    ensures Listed(ZonesOf(clusters, s, rules).value, picks, clusters, s, rules)
  {
    hide ZoneFromCluster, Shows, BecomesZone, FromStream, Distinct, Chronological, Listed;
    if clusters == [] {
      picks := [];
      ListedEmpty(s, rules);
    } else {
      var n := |clusters| - 1;
      var front, c := clusters[..n], clusters[n];
      picks := ZonesListed(front, s, rules);
      BecomesExactly(c, s, rules);
      var before := ZonesOf(front, s, rules).value;
      assert clusters == front + [c];
      match ZoneFromCluster(c, s, rules).value {
        case None => ListedSkips(before, picks, front, c, s, rules);
        case Some(zone) =>
          ListedTakes(before, picks, front, c, s, rules, zone);
          picks := picks + [n];
      }
    }
  }

  lemma ListedEmpty(s: seq<Candle>, rules: ZoneRules)
    ensures Listed([], [], [], s, rules)
  {
  }

  lemma ListedSkips(all: seq<Zone>, picks: seq<nat>, front: seq<seq<Pivot>>, c: seq<Pivot>, s: seq<Candle>, rules: ZoneRules)
    requires Listed(all, picks, front, s, rules) && !BecomesZone(c, rules)
    ensures Listed(all, picks, front + [c], s, rules)
  {
    hide Shows, BecomesZone;
  }

  lemma ListedTakes(all: seq<Zone>, picks: seq<nat>, front: seq<seq<Pivot>>, c: seq<Pivot>, s: seq<Candle>, rules: ZoneRules, z: Zone)
    requires Listed(all, picks, front, s, rules) && BecomesZone(c, rules) && Shows(z, c, s, rules)
    ensures Listed(all + [z], picks + [|front|], front + [c], s, rules)
  {
    hide Shows, BecomesZone;
    var more := picks + [|front|];
    assert more[|picks|] == |front|;
    forall k | 0 <= k < |front| + 1 ensures k in more <==> BecomesZone((front + [c])[k], rules) {
      assert k in more <==> k in picks || k == |front|;
    }
  }

  // ----- The ranked result

  /** Stronger first, then tested later, then higher, then by the order of the digests. */
  predicate Outranks(rank: ZoneId -> int, a: Zone, b: Zone) {
    if a.strength != b.strength then a.strength > b.strength
    else if a.lastTestAt != b.lastTestAt then a.lastTestAt > b.lastTestAt
    else if a.high != b.high then a.high > b.high
    else rank(a.id) >= rank(b.id)
  }

  /** `top` is the best of `all`, at most `n` of them, in order. */
  ghost predicate BestOf(top: seq<Zone>, all: seq<Zone>, n: nat, rank: ZoneId -> int) {
    && |top| == (if |all| < n then |all| else n) && multiset(top) <= multiset(all)
    && (forall i, j :: 0 <= i < j < |top| ==> Outranks(rank, top[i], top[j]))
    && (forall a, b :: a in top && b in multiset(all) - multiset(top) ==> Outranks(rank, a, b))
  }

  /** The whole derivation: the zones of exactly the clusters that qualify, one for each, of which
      the best are returned in order. */
  lemma DerivationExactly(s: seq<Candle>, rules: ZoneRules, rank: ZoneId -> int) returns (all: seq<Zone>, picks: seq<nat>)
    requires s != [] && DeriveSupportZones(s, rules, rank).Ok?
    ensures Listed(all, picks, Clustered(AllPivots(s, rules), rules), s, rules)
    ensures BestOf(DeriveSupportZones(s, rules, rank).value, all, rules.maximumZones, rank)
  {
    hide FromStream, Distinct, Listed, Clustered, AllPivots, ZonesOf, Tight, Apart, Precedes, Outranks, Sort;
    var clusters := Clustered(AllPivots(s, rules), rules);
    ClustersFromStream(s, rules);
    TopRanked(s, rules, rank);
    forall i | 0 <= i < |clusters| ensures Distinct(clusters[i]) { TightDistinct(clusters[i], rules.clusterToleranceBps); }
    all := ZonesOf(clusters, s, rules).value;
    picks := ZonesListed(clusters, s, rules);
    forall a: Zone, b: Zone ensures Precedes(rank, a, b) == Outranks(rank, a, b) { RankMeaning(rank, a, b); }
  }

  lemma TightDistinct(c: seq<Pivot>, tolerance: real)
    requires Tight(c, tolerance)
    ensures Distinct(c)
  {
  }

  lemma RankMeaning(rank: ZoneId -> int, a: Zone, b: Zone)
    ensures Precedes(rank, a, b) == Outranks(rank, a, b)
  {
  }

  /** A cluster is refused exactly when it is narrow enough and its padded low is under the floor or
      it has no width at all. */
  lemma RefusedExactly(c: seq<Pivot>, rules: ZoneRules, lo: real, hi: real)
    requires c != [] && LowsSpan(c, lo, hi)
    ensures Refused(c, rules) <==>
              Narrow(|c|, lo, hi, rules) && (LowTimes(lo, rules) < FLOOR * 10000.0 || (rules.zonePaddingBps == 0.0 && lo == hi))
  {
    hide LowTimes, HighTimes, HighEdge, WidthBps;
    NarrowExactly(c, rules, lo, hi);
    EdgesTimes(c, rules, lo, hi);
  }
}
