/** Pivot lows and their thinning (app/structure/support_zones.py, lines 17-125). */
module Pivots {
  import opened Candles

  datatype RawZoneRules = RawZoneRules(
    pivotLeft: int, pivotRight: int, minimumTouches: int, minimumSeparation: int,
    clusterToleranceBps: real, zonePaddingBps: real, maximumWidthBps: real,
    minimumRejectionBps: real, maximumZones: int)
  {
    predicate Valid() {
      && pivotLeft >= 1 && pivotRight >= 1
      && minimumTouches >= 2 && minimumSeparation >= 1
      && clusterToleranceBps >= 0.0 && zonePaddingBps >= 0.0
      && maximumWidthBps >= 0.0 && minimumRejectionBps >= 0.0
      && 1 <= maximumZones <= 50
    }
  }

  type ZoneRules = r: RawZoneRules | r.Valid() witness DEFAULT_ZONE_RULES

  const DEFAULT_ZONE_RULES := RawZoneRules(2, 2, 2, 2, 75.0, 20.0, 180.0, 25.0, 5)

  datatype Pivot = Pivot(index: nat, candle: Candle) {
    function Price(): real { candle.low }
  }

  /** Index `i` has both windows inside the stream, none of their lows is under its low,
      and on at least one side every low is strictly above it. */
  predicate Qualifies(s: seq<Candle>, rules: ZoneRules, i: int) {
    && rules.pivotLeft <= i < |s| - rules.pivotRight
    && NoneUnder(s, i - rules.pivotLeft, i, s[i].low)
    && NoneUnder(s, i + 1, i + 1 + rules.pivotRight, s[i].low)
    && (AllOver(s, i - rules.pivotLeft, i, s[i].low)
        || AllOver(s, i + 1, i + 1 + rules.pivotRight, s[i].low))
  }

  predicate NoneUnder(s: seq<Candle>, lo: int, hi: int, x: real)
    requires 0 <= lo <= hi <= |s|
  {
    forall j :: lo <= j < hi ==> x <= s[j].low
  }

  predicate AllOver(s: seq<Candle>, lo: int, hi: int, x: real)
    requires 0 <= lo <= hi <= |s|
  {
    forall j :: lo <= j < hi ==> x < s[j].low
  }

  /** The windows in one sweep: no low from the left window to the right one is under this low, and
      not both windows hold an equal one. */
  lemma QualifiesExactly(s: seq<Candle>, rules: ZoneRules, i: int)
    ensures Qualifies(s, rules, i) <==>
              && rules.pivotLeft <= i < |s| - rules.pivotRight
              && (forall j :: i - rules.pivotLeft <= j <= i + rules.pivotRight ==> s[i].low <= s[j].low)
              && !exists a, b :: i - rules.pivotLeft <= a < i < b <= i + rules.pivotRight
                                 && s[a].low == s[i].low && s[b].low == s[i].low
  {
  }

  /** One thinning step: too close to the last pivot, a lower low takes its place and
      any other low is dropped; otherwise it is appended. */
  function Thin(kept: seq<Pivot>, p: Pivot, separation: int): seq<Pivot> {
    if kept != [] && p.index - kept[|kept| - 1].index < separation then
      if p.Price() < kept[|kept| - 1].Price() then kept[..|kept| - 1] + [p] else kept
    else kept + [p]
  }

  /** The pivots after the candidate indices below `stop` were examined. */
  function PivotsBelow(s: seq<Candle>, rules: ZoneRules, stop: int): seq<Pivot>
    requires stop <= |s|
    decreases stop
  {
    if stop <= 0 then []
    else
      var kept := PivotsBelow(s, rules, stop - 1);
      if Qualifies(s, rules, stop - 1) then
        Thin(kept, Pivot(stop - 1, s[stop - 1]), rules.minimumSeparation)
      else kept
  }

  function AllPivots(s: seq<Candle>, rules: ZoneRules): seq<Pivot> {
    PivotsBelow(s, rules, |s| - rules.pivotRight)
  }

  /** What thinning guarantees about the pivots kept below `stop`. */
  ghost predicate WellThinned(s: seq<Candle>, rules: ZoneRules, stop: int, kept: seq<Pivot>) {
    && (forall k :: 0 <= k < |kept| ==>
          && kept[k].index < stop && kept[k].index < |s|
          && kept[k].candle == s[kept[k].index]
          && Qualifies(s, rules, kept[k].index))
    && (forall k :: 0 < k < |kept| ==>
          kept[k].index - kept[k - 1].index >= rules.minimumSeparation)
  }

  /** Pivot `kept[k]` answers for the qualifying low at `i`: it is priced no higher, strictly lower
      if it came later, and it is the first kept pivot not a full separation older than `i`. */
  ghost predicate Covers(s: seq<Candle>, rules: ZoneRules, kept: seq<Pivot>, i: int, k: int) {
    && 0 <= k < |kept| && 0 <= i < |s|
    && kept[k].Price() <= s[i].low
    && (kept[k].index > i ==> kept[k].Price() < s[i].low)
    && kept[k].index > i - rules.minimumSeparation
    && (k > 0 ==> kept[k - 1].index <= i - rules.minimumSeparation)
  }

  ghost predicate Covered(s: seq<Candle>, rules: ZoneRules, kept: seq<Pivot>, i: int) {
    exists k :: Covers(s, rules, kept, i, k)
  }

  lemma ThinKeeps(s: seq<Candle>, rules: ZoneRules, kept: seq<Pivot>, p: Pivot)
    requires p.index < |s| && p.candle == s[p.index] && Qualifies(s, rules, p.index)
    requires WellThinned(s, rules, p.index, kept)
    ensures WellThinned(s, rules, p.index + 1, Thin(kept, p, rules.minimumSeparation))
  {
    hide Qualifies;
    var next := Thin(kept, p, rules.minimumSeparation);
    forall k | 0 < k < |next| ensures next[k].index - next[k - 1].index >= rules.minimumSeparation {
      assert next[k - 1] == kept[k - 1];
    }
  }

  lemma {:induction false} ThinningKept(s: seq<Candle>, rules: ZoneRules, stop: int)
    requires stop <= |s|
    ensures WellThinned(s, rules, stop, PivotsBelow(s, rules, stop))
    decreases stop
  {
    hide Qualifies, Thin;
    if stop > 0 {
      ThinningKept(s, rules, stop - 1);
      if Qualifies(s, rules, stop - 1) {
        ThinKeeps(s, rules, PivotsBelow(s, rules, stop - 1), Pivot(stop - 1, s[stop - 1]));
      }
    }
  }

  lemma ThinCovers(s: seq<Candle>, rules: ZoneRules, kept: seq<Pivot>, i: int, p: Pivot)
    requires WellThinned(s, rules, p.index, kept) && i < p.index
    requires Covered(s, rules, kept, i)
    ensures Covered(s, rules, Thin(kept, p, rules.minimumSeparation), i)
  {
    hide Qualifies;
    var next := Thin(kept, p, rules.minimumSeparation);
    var k :| Covers(s, rules, kept, i, k);
    assert Covers(s, rules, next, i, k);
  }

  lemma ThinCoversNew(s: seq<Candle>, rules: ZoneRules, kept: seq<Pivot>, p: Pivot)
    requires p.index < |s| && p.candle == s[p.index]
    requires WellThinned(s, rules, p.index, kept)
    ensures Covered(s, rules, Thin(kept, p, rules.minimumSeparation), p.index)
  {
    var next := Thin(kept, p, rules.minimumSeparation);
    assert Covers(s, rules, next, p.index, |next| - 1);
  }

  /** Every qualifying low is answered for by a kept pivot priced no higher. */
  lemma {:induction false} ThinningCovers(s: seq<Candle>, rules: ZoneRules, stop: int, i: int)
    requires 0 <= i < stop <= |s| && Qualifies(s, rules, i)
    ensures Covered(s, rules, PivotsBelow(s, rules, stop), i)
    decreases stop
  {
    hide Thin, Covers, WellThinned, NoneUnder, AllOver;
    var kept := PivotsBelow(s, rules, stop - 1);
    ThinningKept(s, rules, stop - 1);
    if i < stop - 1 {
      ThinningCovers(s, rules, stop - 1, i);
      if Qualifies(s, rules, stop - 1) {
        ThinCovers(s, rules, kept, i, Pivot(stop - 1, s[stop - 1]));
      }
    } else {
      ThinCoversNew(s, rules, kept, Pivot(i, s[i]));
    }
  }

  /** Later candles never change whether an index with a complete right window qualifies. */
  lemma {:induction false} QualifiesIsLocal(s: seq<Candle>, t: seq<Candle>, rules: ZoneRules, stop: int)
    requires s <= t && stop <= |s| - rules.pivotRight
    ensures PivotsBelow(s, rules, stop) == PivotsBelow(t, rules, stop)
    decreases stop
  {
    if stop > 0 {
      QualifiesIsLocal(s, t, rules, stop - 1);
      assert forall j :: 0 <= j < |s| ==> s[j] == t[j];
      assert Qualifies(s, rules, stop - 1) == Qualifies(t, rules, stop - 1);
    }
  }

  /** All but the last pivot are frozen; the last can only move later and lower. */
  ghost predicate FrozenButLast(a: seq<Pivot>, b: seq<Pivot>) {
    && |a| <= |b|
    && (a != [] ==>
          && a[..|a| - 1] == b[..|a| - 1]
          && a[|a| - 1].index <= b[|a| - 1].index
          && b[|a| - 1].Price() <= a[|a| - 1].Price())
  }

  lemma {:induction false} ThinningFreezes(s: seq<Candle>, rules: ZoneRules, stop: int, later: int)
    requires stop <= later <= |s|
    ensures FrozenButLast(PivotsBelow(s, rules, stop), PivotsBelow(s, rules, later))
    decreases later - stop
  {
    hide Qualifies;
    if stop < later {
      ThinningFreezes(s, rules, stop, later - 1);
      ThinningKept(s, rules, later - 1);
      var a, b, c := PivotsBelow(s, rules, stop), PivotsBelow(s, rules, later - 1), PivotsBelow(s, rules, later);
      if later > 0 && c != b && a != [] {
        assert a[..|a| - 1] == b[..|a| - 1] == c[..|a| - 1];
      }
    }
  }

  /** With a separation of at most `pivotRight + 1`, a qualifying low is never undercut by a
      close successor, so nothing is replaced and pivots only accumulate. */
  lemma {:induction false} NothingReplaced(s: seq<Candle>, rules: ZoneRules, stop: int, later: int)
    requires stop <= later <= |s|
    requires rules.minimumSeparation <= rules.pivotRight + 1
    ensures PivotsBelow(s, rules, stop) <= PivotsBelow(s, rules, later)
    decreases later - stop
  {
    if stop < later {
      NothingReplaced(s, rules, stop, later - 1);
      ThinningKept(s, rules, later - 1);
      var kept := PivotsBelow(s, rules, later - 1);
      if later > 0 && Qualifies(s, rules, later - 1) && kept != [] {
        var last := kept[|kept| - 1];
        assert Qualifies(s, rules, last.index);
        if later - 1 - last.index < rules.minimumSeparation {
          assert s[last.index].low <= s[later - 1].low;
        }
      }
    }
  }

  /** Spacing and coverage of the pivots of a whole stream. */
  lemma PivotsThinned(s: seq<Candle>, rules: ZoneRules)
    ensures WellThinned(s, rules, |s| - rules.pivotRight, AllPivots(s, rules))
    ensures forall i :: Qualifies(s, rules, i) ==> Covered(s, rules, AllPivots(s, rules), i)
  {
    var stop := |s| - rules.pivotRight;
    ThinningKept(s, rules, stop);
    forall i | Qualifies(s, rules, i) ensures Covered(s, rules, AllPivots(s, rules), i) {
      ThinningCovers(s, rules, stop, i);
    }
  }

  /** How the pivots of a prefix relate to those of the grown stream. */
  lemma PivotsGrow(s: seq<Candle>, t: seq<Candle>, rules: ZoneRules)
    requires s <= t
    ensures FrozenButLast(AllPivots(s, rules), AllPivots(t, rules))
    ensures rules.minimumSeparation <= rules.pivotRight + 1 ==> AllPivots(s, rules) <= AllPivots(t, rules)
  {
    var stop, later := |s| - rules.pivotRight, |t| - rules.pivotRight;
    QualifiesIsLocal(s, t, rules, stop);
    ThinningFreezes(t, rules, stop, later);
    if rules.minimumSeparation <= rules.pivotRight + 1 {
      NothingReplaced(t, rules, stop, later);
    }
  }

  function FlatCandle(openTime: int, low: real): Candle
    requires low > 0.0
  {
    RawCandle(Bybit, "X", D1, openTime, low, low, low, low, 0.0)
  }

  /** A pivot at `pivotLeft` that a deeper low undercuts right after its window closed. */
  function UndercutStream(rules: ZoneRules): (t: seq<Candle>)
    ensures |t| == rules.pivotLeft + 2 * rules.pivotRight + 2
  {
    var a, b := rules.pivotLeft, rules.pivotLeft + rules.pivotRight + 1;
    seq(b + rules.pivotRight + 1, i =>
      FlatCandle(i * Duration(D1), if i == a then 10.0 else if i == b then 9.0 else 11.0))
  }

  /** Between the two lows nothing qualifies: the deeper one is in every right window. */
  lemma {:induction false} UndercutQuiet(rules: ZoneRules, stop: int)
    requires rules.pivotLeft < stop <= rules.pivotLeft + rules.pivotRight + 1
    ensures var t := UndercutStream(rules);
            PivotsBelow(t, rules, stop) == [Pivot(rules.pivotLeft, t[rules.pivotLeft])]
    decreases stop
  {
    var t, a := UndercutStream(rules), rules.pivotLeft;
    var b := a + rules.pivotRight + 1;
    if stop == a + 1 {
      NoPivotsAtStart(t, rules, a);
      assert Qualifies(t, rules, a);
    } else {
      UndercutQuiet(rules, stop - 1);
      assert t[b].low < t[stop - 1].low;
      assert !NoneUnder(t, stop, stop + rules.pivotRight, t[stop - 1].low);
    }
  }

  lemma UndercutDeeperQualifies(rules: ZoneRules)
    ensures Qualifies(UndercutStream(rules), rules, rules.pivotLeft + rules.pivotRight + 1)
  {
  }

  lemma UndercutEnds(rules: ZoneRules)
    requires rules.minimumSeparation > rules.pivotRight + 1
    ensures var t, b := UndercutStream(rules), rules.pivotLeft + rules.pivotRight + 1;
            AllPivots(t, rules) == [Pivot(b, t[b])]
  {
    hide Qualifies;
    var t, a := UndercutStream(rules), rules.pivotLeft;
    var b := a + rules.pivotRight + 1;
    UndercutQuiet(rules, b);
    UndercutDeeperQualifies(rules);
    assert Thin([Pivot(a, t[a])], Pivot(b, t[b]), rules.minimumSeparation) == [Pivot(b, t[b])];
  }

  lemma UndercutReplaces(rules: ZoneRules)
    requires rules.minimumSeparation > rules.pivotRight + 1
    ensures var t := UndercutStream(rules);
            var s := t[..rules.pivotLeft + rules.pivotRight + 1];
            !(AllPivots(s, rules) <= AllPivots(t, rules))
  {
    hide Qualifies, Thin, UndercutStream;
    var t, a := UndercutStream(rules), rules.pivotLeft;
    UndercutEnds(rules);
    UndercutQuiet(rules, a + 1);
    var s := t[..a + rules.pivotRight + 1];
    QualifiesIsLocal(s, t, rules, a + 1);
    assert AllPivots(s, rules)[0].index < AllPivots(t, rules)[0].index;
  }

  ghost predicate PivotsOnlyAccumulate(rules: ZoneRules) {
    forall s: seq<Candle>, t: seq<Candle> :: s <= t ==> AllPivots(s, rules) <= AllPivots(t, rules)
  }

  /** Pivots of every prefix are a prefix of the pivots exactly when the separation is at most
      one more than the right window. */
  lemma AccumulationCondition(rules: ZoneRules)
    ensures PivotsOnlyAccumulate(rules) <==> rules.minimumSeparation <= rules.pivotRight + 1
  {
    if rules.minimumSeparation <= rules.pivotRight + 1 {
      forall s: seq<Candle>, t: seq<Candle> | s <= t ensures AllPivots(s, rules) <= AllPivots(t, rules) {
        PivotsGrow(s, t, rules);
      }
    } else {
      UndercutReplaces(rules);
      var t := UndercutStream(rules);
      assert t[..rules.pivotLeft + rules.pivotRight + 1] <= t;
    }
  }

  /** Pivots are in strictly increasing stream order, so no two share a candle. */
  lemma {:induction false} PivotsIncrease(s: seq<Candle>, rules: ZoneRules, stop: int, kept: seq<Pivot>, a: int, b: int)
    requires WellThinned(s, rules, stop, kept) && 0 <= a < b < |kept|
    ensures kept[a].index < kept[b].index
    decreases b
  {
    if a < b - 1 {
      PivotsIncrease(s, rules, stop, kept, a, b - 1);
    }
  }

  /** Comparing with the minimum of a window is comparing with each of its lows. */
  lemma WindowMinimum(s: seq<Candle>, lo: nat, hi: nat, x: real)
    requires lo < hi <= |s|
    ensures x <= LowestLow(s[lo..hi]) <==> NoneUnder(s, lo, hi, x)
    ensures x < LowestLow(s[lo..hi]) <==> AllOver(s, lo, hi, x)
  {
    var w := s[lo..hi];
    LowestLowIsMinimum(w);
    forall j | lo <= j < hi ensures LowestLow(w) <= s[j].low {
      assert s[j] == w[j - lo];
    }
    var k :| 0 <= k < |w| && w[k].low == LowestLow(w);
    assert s[lo + k].low == LowestLow(w);
  }

  /** The check as written: the low against the minimum of each window. */
  method IsPivotLow(s: seq<Candle>, rules: ZoneRules, i: int) returns (qualifies: bool)
    requires rules.pivotLeft <= i < |s| - rules.pivotRight
    ensures qualifies == Qualifies(s, rules, i)
  {
    var low := s[i].low;
    var leftMin := LowestLow(s[i - rules.pivotLeft..i]);
    var rightMin := LowestLow(s[i + 1..i + 1 + rules.pivotRight]);
    WindowMinimum(s, i - rules.pivotLeft, i, low);
    WindowMinimum(s, i + 1, i + 1 + rules.pivotRight, low);
    qualifies := low <= leftMin && low <= rightMin && (low < leftMin || low < rightMin);
  }

  /** The loop of `_find_pivots`, appending to and overwriting the end of its list. */
  method FindPivots(s: seq<Candle>, rules: ZoneRules) returns (pivots: seq<Pivot>)
    ensures pivots == AllPivots(s, rules)
  {
    hide Qualifies;
    pivots := [];
    if |s| < rules.pivotLeft + rules.pivotRight + 1 {
      NoPivotsAtStart(s, rules, |s| - rules.pivotRight);
      return;
    }
    NoPivotsAtStart(s, rules, rules.pivotLeft);
    for index := rules.pivotLeft to |s| - rules.pivotRight
      invariant pivots == PivotsBelow(s, rules, index)
    {
      var qualifies := IsPivotLow(s, rules, index);
      if qualifies {
        var current := Pivot(index, s[index]);
        if pivots != [] && index - pivots[|pivots| - 1].index < rules.minimumSeparation {
          if current.Price() < pivots[|pivots| - 1].Price() {
            assert pivots[|pivots| - 1 := current] == pivots[..|pivots| - 1] + [current];
            pivots := pivots[|pivots| - 1 := current];
          }
        } else {
          pivots := pivots + [current];
        }
      }
    }
  }

  lemma {:induction false} NoPivotsAtStart(s: seq<Candle>, rules: ZoneRules, stop: int)
    requires stop <= |s| && stop <= rules.pivotLeft
    ensures PivotsBelow(s, rules, stop) == []
    decreases stop
  {
    if stop > 0 {
      NoPivotsAtStart(s, rules, stop - 1);
    }
  }
}
