/** Grouping pivots by distance from a running median (support_zones.py, lines 128-154). */
module Clusters {
  import opened Candles
  import opened Ordering
  import opened Pivots
  import opened Reals

  /** The sort key `(price, open_time)`. */
  predicate CheaperThenEarlier(a: Pivot, b: Pivot) {
    || a.Price() < b.Price()
    || (a.Price() == b.Price() && a.candle.openTime <= b.candle.openTime)
  }

  function Prices(c: seq<Pivot>): (r: seq<real>)
    ensures |r| == |c| && forall i :: 0 <= i < |c| ==> r[i] == c[i].Price()
  {
    seq(|c|, i requires 0 <= i < |c| => c[i].Price())
  }

  function MedianPrice(c: seq<Pivot>): (m: real)
    requires c != []
    ensures m > 0.0
  {
    MedianPositive(c);
    Median(Prices(c))
  }

  lemma MedianPositive(c: seq<Pivot>)
    requires c != []
    ensures Median(Prices(c)) > 0.0
  {
    var t := Sort(Prices(c), Leq);
    SameElements(Prices(c), t);
    assert forall i :: 0 <= i < |t| ==> t[i] in t;
  }

  /** Distance of a price from a reference, in basis points of the reference. */
  function DistanceBps(price: real, reference: real): real
    requires reference > 0.0
  {
    (if price >= reference then price - reference else reference - price) / reference * BPS
  }

  predicate Joins(c: seq<Pivot>, p: Pivot, tolerance: real)
    requires c != []
  {
    DistanceBps(p.Price(), MedianPrice(c)) <= tolerance
  }

  function AddPivot(clusters: seq<seq<Pivot>>, p: Pivot, tolerance: real): seq<seq<Pivot>> {
    var n := |clusters|;
    if n > 0 && clusters[n - 1] != [] && Joins(clusters[n - 1], p, tolerance)
    then clusters[..n - 1] + [clusters[n - 1] + [p]]
    else clusters + [[p]]
  }

  function Grouped(ordered: seq<Pivot>, tolerance: real): seq<seq<Pivot>> {
    if ordered == [] then []
    else AddPivot(Grouped(ordered[..|ordered| - 1], tolerance), ordered[|ordered| - 1], tolerance)
  }

  function Clustered(pivots: seq<Pivot>, rules: ZoneRules): seq<seq<Pivot>> {
    Grouped(Sort(pivots, CheaperThenEarlier), rules.clusterToleranceBps)
  }

  function Flatten(clusters: seq<seq<Pivot>>): seq<Pivot> {
    if clusters == [] then [] else Flatten(clusters[..|clusters| - 1]) + clusters[|clusters| - 1]
  }

  /** A cluster is in strict `(price, open_time)` order and every member after the first was
      within the tolerance of the median of the members before it. */
  ghost predicate Tight(c: seq<Pivot>, tolerance: real) {
    && c != []
    && Sorted(c, CheaperThenEarlier)
    && Distinct(c)
    && forall k :: 0 < k < |c| ==> Joins(c[..k], c[k], tolerance)
  }

  /** The next cluster begins above every price of this one, and by more than the tolerance
      above its median. */
  ghost predicate Apart(a: seq<Pivot>, b: seq<Pivot>, tolerance: real)
    requires a != [] && b != []
  {
    && a[|a| - 1].Price() < b[0].Price()
    && MedianPrice(a) < b[0].Price()
    && DistanceBps(b[0].Price(), MedianPrice(a)) > tolerance
  }

  ghost predicate WellClustered(clusters: seq<seq<Pivot>>, tolerance: real) {
    && (forall i :: 0 <= i < |clusters| ==> Tight(clusters[i], tolerance))
    && (forall i :: 0 < i < |clusters| ==> Apart(clusters[i - 1], clusters[i], tolerance))
  }

  lemma TightPrices(c: seq<Pivot>)
    requires Sorted(c, CheaperThenEarlier)
    ensures Ascending(Prices(c))
  {
  }

  lemma RelativeGapShrinks(p: real, m: real, m': real)
    requires 0.0 < m <= m' <= p
    ensures DistanceBps(p, m') <= DistanceBps(p, m)
  {
    QuotientMonotone(p - m', p - m, m');
    QuotientAntitone(p - m, m, m');
  }

  /** Raising the reference towards a price keeps the price within the tolerance, so a pivot
      priced like the newest member always joins it. */
  lemma EqualPriceJoins(c: seq<Pivot>, p: Pivot, tolerance: real)
    requires Tight(c, tolerance) && tolerance >= 0.0 && p.Price() == c[|c| - 1].Price()
    ensures Joins(c, p, tolerance)
  {
    hide Sort, MidOf;
    var n := |c|;
    TightPrices(c);
    if n == 1 {
      MedianOfAscending(Prices(c));
      assert DistanceBps(p.Price(), p.Price()) == 0.0;
    } else {
      MedianWithNewest(c);
      assert Joins(c[..n - 1], c[n - 1], tolerance);
      RelativeGapShrinks(p.Price(), MedianPrice(c[..n - 1]), MedianPrice(c));
    }
  }

  lemma MedianWithNewest(c: seq<Pivot>)
    requires |c| > 1 && Ascending(Prices(c))
    ensures MedianPrice(c[..|c| - 1]) <= MedianPrice(c) <= c[|c| - 1].Price()
  {
    hide Sort, MidOf;
    var front, x := Prices(c[..|c| - 1]), c[|c| - 1].Price();
    assert Prices(c) == front + [x];
    MedianRises(front, x);
  }

  lemma JoinedIsTight(c: seq<Pivot>, p: Pivot, tolerance: real)
    requires Tight(c, tolerance) && Joins(c, p, tolerance)
    requires p !in c && forall k :: 0 <= k < |c| ==> CheaperThenEarlier(c[k], p)
    ensures Tight(c + [p], tolerance)
  {
    hide Joins;
    var d := c + [p];
    forall k | 0 < k < |d| ensures Joins(d[..k], d[k], tolerance) {
      assert d[..k] == c[..k];
      if k == |c| { assert c[..k] == c; }
    }
  }

  lemma RefusedIsApart(c: seq<Pivot>, p: Pivot, tolerance: real)
    requires Tight(c, tolerance) && tolerance >= 0.0 && !Joins(c, p, tolerance)
    requires CheaperThenEarlier(c[|c| - 1], p)
    ensures Apart(c, [p], tolerance)
  {
    if p.Price() == c[|c| - 1].Price() {
      EqualPriceJoins(c, p, tolerance);
    } else {
      TightPrices(c);
      MedianOfAscending(Prices(c));
    }
  }

  lemma AddPivotEnds(clusters: seq<seq<Pivot>>, p: Pivot, tolerance: real)
    requires forall i :: 0 <= i < |clusters| ==> clusters[i] != []
    ensures var next := AddPivot(clusters, p, tolerance);
            && next != []
            && (forall i :: 0 <= i < |next| ==> next[i] != [])
            && var last := next[|next| - 1];
               && last[|last| - 1] == p
               && forall q :: q in last ==> q == p || (clusters != [] && q in clusters[|clusters| - 1])
  {
  }

  /** No cluster is empty, and the last one ends with the pivot added last. */
  lemma {:induction false} GroupedEnds(ordered: seq<Pivot>, tolerance: real)
    ensures var clusters := Grouped(ordered, tolerance);
            && (forall i :: 0 <= i < |clusters| ==> clusters[i] != [])
            && (ordered != [] ==> clusters != [])
            && (clusters != [] ==> ordered != [] && forall p :: p in clusters[|clusters| - 1] ==> p in ordered)
  {
    hide AddPivot;
    if ordered != [] {
      var init, p := ordered[..|ordered| - 1], ordered[|ordered| - 1];
      GroupedEnds(init, tolerance);
      AddPivotEnds(Grouped(init, tolerance), p, tolerance);
      assert Grouped(ordered, tolerance) == AddPivot(Grouped(init, tolerance), p, tolerance);
      assert ordered == init + [p];
    }
  }

  lemma {:induction false} GroupedWell(ordered: seq<Pivot>, tolerance: real)
    requires tolerance >= 0.0 && Sorted(ordered, CheaperThenEarlier) && Distinct(ordered)
    ensures WellClustered(Grouped(ordered, tolerance), tolerance)
  {
    hide AddPivot, Tight, Apart;
    if ordered != [] {
      var init, p := ordered[..|ordered| - 1], ordered[|ordered| - 1];
      GroupedWell(init, tolerance);
      GroupedEnds(init, tolerance);
      assert p !in init;
      forall q | q in init ensures CheaperThenEarlier(q, p) {
        var k :| 0 <= k < |init| && init[k] == q;
        assert ordered[k] == q;
      }
      AddPivotWell(Grouped(init, tolerance), p, tolerance);
    }
  }

  lemma SingletonTight(p: Pivot, tolerance: real)
    ensures Tight([p], tolerance)
  {
  }

  lemma AddPivotWell(clusters: seq<seq<Pivot>>, p: Pivot, tolerance: real)
    requires tolerance >= 0.0 && WellClustered(clusters, tolerance)
    requires forall i :: 0 <= i < |clusters| ==> clusters[i] != []
    requires clusters != [] ==>
               && p !in clusters[|clusters| - 1]
               && forall q :: q in clusters[|clusters| - 1] ==> CheaperThenEarlier(q, p)
    ensures WellClustered(AddPivot(clusters, p, tolerance), tolerance)
  {
    hide Joins, Tight, Apart, CheaperThenEarlier;
    var n := |clusters|;
    SingletonTight(p, tolerance);
    if n > 0 {
      var last := clusters[n - 1];
      assert forall k :: 0 <= k < |last| ==> last[k] in last;
      if Joins(last, p, tolerance) {
        JoinedIsTight(last, p, tolerance);
        ReplaceLastWell(clusters, last + [p], tolerance);
      } else {
        RefusedIsApart(last, p, tolerance);
      }
    }
  }

  lemma ReplaceLastWell(clusters: seq<seq<Pivot>>, last: seq<Pivot>, tolerance: real)
    requires clusters != [] && WellClustered(clusters, tolerance) && Tight(last, tolerance)
    requires last[0] == clusters[|clusters| - 1][0]
    ensures WellClustered(clusters[..|clusters| - 1] + [last], tolerance)
  {
    hide Joins, Sorted, Distinct;
    var n := |clusters|;
    if n > 1 {
      assert Apart(clusters[n - 2], clusters[n - 1], tolerance);
    }
  }

  lemma {:induction false} FlattenAdd(clusters: seq<seq<Pivot>>, p: Pivot, tolerance: real)
    ensures Flatten(AddPivot(clusters, p, tolerance)) == Flatten(clusters) + [p]
  {
  }

  /** Reading the clusters in order gives back the sorted pivots: none lost, none repeated. */
  lemma {:induction false} FlattenGrouped(ordered: seq<Pivot>, tolerance: real)
    ensures Flatten(Grouped(ordered, tolerance)) == ordered
  {
    hide AddPivot;
    if ordered != [] {
      FlattenGrouped(ordered[..|ordered| - 1], tolerance);
      FlattenAdd(Grouped(ordered[..|ordered| - 1], tolerance), ordered[|ordered| - 1], tolerance);
    }
  }

  lemma SortKeyIsTotal()
    ensures TotalPreorder(CheaperThenEarlier)
  {
  }

  lemma ClusteringTheorem(pivots: seq<Pivot>, rules: ZoneRules)
    requires Distinct(pivots)
    ensures var clusters := Clustered(pivots, rules);
            && Flatten(clusters) == Sort(pivots, CheaperThenEarlier)
            && Sorted(Flatten(clusters), CheaperThenEarlier)
            && multiset(Flatten(clusters)) == multiset(pivots)
            && WellClustered(clusters, rules.clusterToleranceBps)
  {
    var ordered := Sort(pivots, CheaperThenEarlier);
    SortKeyIsTotal();
    SortSorts(pivots, CheaperThenEarlier);
    DistinctPermutes(pivots, ordered);
    FlattenGrouped(ordered, rules.clusterToleranceBps);
    GroupedWell(ordered, rules.clusterToleranceBps);
  }

  /** Any two clusters, not only neighbours, have disjoint price ranges. */
  lemma {:induction false} PriceRangesSeparate(clusters: seq<seq<Pivot>>, tolerance: real, i: nat, j: nat, p: Pivot, q: Pivot)
    requires WellClustered(clusters, tolerance) && i < j < |clusters|
    requires p in clusters[i] && q in clusters[j]
    ensures p.Price() < q.Price()
    decreases j
  {
    hide Joins, MedianPrice, DistanceBps, Sorted, Distinct;
    MembersBetweenEnds(clusters[i], p, tolerance);
    MembersBetweenEnds(clusters[j], q, tolerance);
    assert Apart(clusters[j - 1], clusters[j], tolerance);
    if i < j - 1 {
      var r := clusters[j - 1][|clusters[j - 1]| - 1];
      PriceRangesSeparate(clusters, tolerance, i, j - 1, p, r);
    }
  }

  lemma MembersBetweenEnds(c: seq<Pivot>, p: Pivot, tolerance: real)
    requires Tight(c, tolerance) && p in c
    ensures c[0].Price() <= p.Price() <= c[|c| - 1].Price()
  {
  }

  lemma GroupedStep(ordered: seq<Pivot>, n: nat, tolerance: real)
    requires n <= |ordered|
    ensures n == 0 ==> Grouped(ordered[..n], tolerance) == []
    ensures n < |ordered| ==> Grouped(ordered[..n + 1], tolerance) == AddPivot(Grouped(ordered[..n], tolerance), ordered[n], tolerance)
  {
    hide AddPivot;
    if n < |ordered| {
      assert ordered[..n + 1][..n] == ordered[..n];
    }
  }

  /** The loop of `_cluster_pivots`, growing a list of lists. */
  method ClusterPivots(pivots: seq<Pivot>, rules: ZoneRules) returns (clusters: seq<seq<Pivot>>)
    ensures clusters == Clustered(pivots, rules)
  {
    hide Joins, Grouped, Sort;
    var ordered := Sort(pivots, CheaperThenEarlier);
    clusters := [];
    GroupedStep(ordered, 0, rules.clusterToleranceBps);
    for n := 0 to |ordered|
      invariant clusters == Grouped(ordered[..n], rules.clusterToleranceBps)
      invariant forall i :: 0 <= i < |clusters| ==> clusters[i] != []
    {
      var p := ordered[n];
      GroupedStep(ordered, n, rules.clusterToleranceBps);
      if clusters == [] {
        clusters := [[p]];
      } else {
        var last := clusters[|clusters| - 1];
        if Joins(last, p, rules.clusterToleranceBps) {
          assert clusters[|clusters| - 1 := last + [p]] == clusters[..|clusters| - 1] + [last + [p]];
          clusters := clusters[|clusters| - 1 := last + [p]];
        } else {
          clusters := clusters + [[p]];
        }
      }
    }
    assert ordered[..|ordered|] == ordered;
  }

  // ----- The clusters in prices

  /** Twice the median price of a cluster in price order: the sum of its two middle prices. */
  function MiddleSum(c: seq<Pivot>): real
    requires c != []
  {
    c[(|c| - 1) / 2].candle.low + c[|c| / 2].candle.low
  }

  /** The pivot's low is within the tolerance of the cluster's median, in basis points of it. */
  predicate Near(c: seq<Pivot>, p: Pivot, tolerance: real)
    requires c != []
  {
    CloseTo(p.candle.low, MiddleSum(c), tolerance)
  }

  predicate CloseTo(price: real, twice: real, tolerance: real) {
    -tolerance * twice <= (2.0 * price - twice) * 10000.0 <= tolerance * twice
  }

  lemma GapCompare(price: real, m: real, tolerance: real)
    requires m > 0.0
    ensures DistanceBps(price, m) <= tolerance <==> CloseTo(price, 2.0 * m, tolerance)
  {
    var gap, x := if price >= m then price - m else m - price, tolerance * m;
    QuotientCompare(gap, m, tolerance / 10000.0);
    assert tolerance / 10000.0 * m * 10000.0 == x;
    assert tolerance * (2.0 * m) == 2.0 * x && -tolerance * (2.0 * m) == -2.0 * x;
  }

  lemma JoinsExactly(c: seq<Pivot>, p: Pivot, tolerance: real)
    requires c != [] && Ascending(Prices(c))
    ensures Joins(c, p, tolerance) <==> Near(c, p, tolerance)
  {
    hide Median, DistanceBps, CloseTo;
    MedianIsMiddle(Prices(c), Prices(c));
    assert 2.0 * MedianPrice(c) == MiddleSum(c);
    GapCompare(p.Price(), MedianPrice(c), tolerance);
  }

  /** Each cluster is in price order, equal prices in time order; every later member was near those
      before it, and the first of the next cluster is dearer and not near this one. */
  ghost predicate ClusteredInPrices(clusters: seq<seq<Pivot>>, tolerance: real) {
    && (forall i :: 0 <= i < |clusters| ==> clusters[i] != [] && GathersInPrices(clusters[i], tolerance))
    && (forall i :: 0 < i < |clusters| ==> SplitsInPrices(clusters, i, tolerance))
  }

  ghost predicate GathersInPrices(c: seq<Pivot>, tolerance: real) {
    && (forall j, k :: 0 <= j < k < |c| ==>
          c[j].candle.low < c[k].candle.low || (c[j].candle.low == c[k].candle.low && c[j].candle.openTime <= c[k].candle.openTime))
    && (forall k :: 0 < k < |c| ==> Near(c[..k], c[k], tolerance))
  }

  ghost predicate SplitsInPrices(clusters: seq<seq<Pivot>>, i: int, tolerance: real)
    requires 0 < i < |clusters|
  {
    var c, next := clusters[i - 1], clusters[i];
    c != [] && next != [] && c[|c| - 1].candle.low < next[0].candle.low && !Near(c, next[0], tolerance)
  }

  lemma TightInPrices(c: seq<Pivot>, tolerance: real)
    requires Tight(c, tolerance)
    ensures Ascending(Prices(c)) && GathersInPrices(c, tolerance)
  {
    hide Joins, Near;
    TightPrices(c);
    forall k | 0 < k < |c| ensures Near(c[..k], c[k], tolerance) {
      assert Ascending(Prices(c[..k]));
      JoinsExactly(c[..k], c[k], tolerance);
    }
  }

  /** The clustering of any distinct pivots, in prices: nothing is lost and the greedy rule decides
      every boundary. */
  lemma ClusteringInPrices(pivots: seq<Pivot>, rules: ZoneRules)
    requires Distinct(pivots)
    ensures multiset(Flatten(Clustered(pivots, rules))) == multiset(pivots)
    ensures ClusteredInPrices(Clustered(pivots, rules), rules.clusterToleranceBps)
  {
    hide Tight, Near, Clustered, Flatten, GathersInPrices, Apart, SplitsInPrices;
    ClusteringTheorem(pivots, rules);
    var clusters, tolerance := Clustered(pivots, rules), rules.clusterToleranceBps;
    forall i | 0 <= i < |clusters| ensures clusters[i] != [] && GathersInPrices(clusters[i], tolerance) {
      TightNotEmpty(clusters[i], tolerance);
      TightInPrices(clusters[i], tolerance);
    }
    forall i | 0 < i < |clusters| ensures SplitsInPrices(clusters, i, tolerance) {
      TightInPrices(clusters[i - 1], tolerance);
      ApartInPrices(clusters, i, tolerance);
    }
  }

  lemma TightNotEmpty(c: seq<Pivot>, tolerance: real)
    requires Tight(c, tolerance)
    ensures c != []
  {
  }

  lemma ApartInPrices(clusters: seq<seq<Pivot>>, i: nat, tolerance: real)
    requires 0 < i < |clusters| && clusters[i - 1] != [] && clusters[i] != []
    requires Ascending(Prices(clusters[i - 1])) && Apart(clusters[i - 1], clusters[i], tolerance)
    ensures SplitsInPrices(clusters, i, tolerance)
  {
    hide Near, MedianPrice;
    JoinsExactly(clusters[i - 1], clusters[i][0], tolerance);
  }
}
