/** Evaluation of a short plan over historical bars (app/backtest/runner.py). */
module Backtest {
  import opened Basics
  import opened Planning
  import opened Reals
  import opened Streams

  datatype Bar = Bar(timestamp: int, open: real, high: real, low: real, close: real) {
    predicate Consistent() {
      && open > 0.0 && high > 0.0 && low > 0.0 && close > 0.0
      && low <= open && low <= close && open <= high && close <= high
    }
  }

  datatype Policy = Conservative | Optimistic

  datatype Verdict = Target | Stop | Expired

  datatype Outcome = Outcome(symbol: string, verdict: Verdict, exitAt: int, exitValue: real, barsProcessed: nat,
                             priceReturn: real, leveragedReturn: real, conflict: bool)

  predicate PlanAccepted(p: Plan) {
    && p.Ready? && p.symbol != ""
    && 0.0 < p.objective < p.entry < p.boundary
    && 1 <= p.multiplier <= 5
  }

  predicate BarsAccepted(bars: seq<Bar>) {
    && bars != []
    && (forall i :: 0 <= i < |bars| ==>
          0.0 < bars[i].low && bars[i].low <= bars[i].open <= bars[i].high && bars[i].low <= bars[i].close <= bars[i].high)
    && (forall i, j :: 0 <= i < j < |bars| ==> bars[i].timestamp < bars[j].timestamp)
  }

  method CheckBars(bars: seq<Bar>) returns (ok: bool)
    ensures ok == BarsAccepted(bars)
  {
    if bars == [] {
      return false;
    }
    var previous: Option<int> := None;
    for n := 0 to |bars|
      invariant if n == 0 then previous == None else previous == Some(bars[n - 1].timestamp)
      invariant forall i :: 0 <= i < n ==> bars[i].Consistent()
      invariant forall i, j :: 0 <= i < j < n ==> bars[i].timestamp < bars[j].timestamp
    {
      if previous.Some? && bars[n].timestamp <= previous.value {
        return false;
      }
      previous := Some(bars[n].timestamp);
      if !bars[n].Consistent() {
        return false;
      }
    }
    return true;
  }

  predicate HitsStop(p: Plan, b: Bar)
    requires p.Ready?
  {
    b.high >= p.boundary
  }

  predicate HitsTarget(p: Plan, b: Bar)
    requires p.Ready?
  {
    b.low <= p.objective
  }

  function Touches(boundary: real, objective: real): (Bar, int) -> bool {
    (b: Bar, i: int) => b.high >= boundary || b.low <= objective
  }

  function BuildResult(p: Plan, verdict: Verdict, exitAt: int, exitValue: real, processed: nat, conflict: bool): Outcome
    requires PlanAccepted(p)
  {
    var priceReturn := (p.entry - exitValue) / p.entry * 100.0;
    Outcome(p.symbol, verdict, exitAt, exitValue, processed, priceReturn, priceReturn * p.multiplier as real, conflict)
  }

  /** The exit on a bar that touches the stop, the target, or both. */
  function ExitOn(p: Plan, b: Bar, processed: nat, policy: Policy): Outcome
    requires PlanAccepted(p) && (HitsStop(p, b) || HitsTarget(p, b))
  {
    var conflict := HitsStop(p, b) && HitsTarget(p, b);
    if HitsTarget(p, b) && (!HitsStop(p, b) || policy == Optimistic)
    then BuildResult(p, Target, b.timestamp, p.objective, processed, conflict)
    else BuildResult(p, Stop, b.timestamp, p.boundary, processed, conflict)
  }

  /** The first bar that touches either level decides; otherwise the last close does. */
  function Evaluate(p: Plan, bars: seq<Bar>, policy: Policy): Outcome
    requires PlanAccepted(p) && bars != []
  {
    var k := First(bars, Touches(p.boundary, p.objective), 0);
    if k < |bars| then ExitOn(p, bars[k], k + 1, policy)
    else BuildResult(p, Expired, bars[|bars| - 1].timestamp, bars[|bars| - 1].close, |bars|, false)
  }

  /** The runner as written, with its checks and its early returns. */
  method RunBacktest(p: Plan, bars: seq<Bar>, policy: Policy) returns (r: Result<Outcome>)
    ensures r == Err(InvalidPlan) <==>
              !(p.Ready? && p.symbol != "" && 0.0 < p.objective < p.entry < p.boundary && 1 <= p.multiplier <= 5)
    ensures PlanAccepted(p) ==> (r == Err(InvalidBars) <==> !BarsAccepted(bars))
    ensures PlanAccepted(p) && BarsAccepted(bars) ==> r == Ok(Evaluate(p, bars, policy))
  {
    hide BuildResult;
    if !PlanAccepted(p) {
      return Err(InvalidPlan);
    }
    var ok := CheckBars(bars);
    if !ok {
      return Err(InvalidBars);
    }
    for n := 0 to |bars|
      invariant forall i :: 0 <= i < n ==> !HitsStop(p, bars[i]) && !HitsTarget(p, bars[i])
    {
      var stop, target := HitsStop(p, bars[n]), HitsTarget(p, bars[n]);
      if stop || target {
        FirstTouch(p, bars, n);
      }
      if stop && target {
        if policy == Optimistic {
          return Ok(BuildResult(p, Target, bars[n].timestamp, p.objective, n + 1, true));
        }
        return Ok(BuildResult(p, Stop, bars[n].timestamp, p.boundary, n + 1, true));
      }
      if stop {
        return Ok(BuildResult(p, Stop, bars[n].timestamp, p.boundary, n + 1, false));
      }
      if target {
        return Ok(BuildResult(p, Target, bars[n].timestamp, p.objective, n + 1, false));
      }
    }
    FirstTouch(p, bars, |bars|);
    var last := bars[|bars| - 1];
    return Ok(BuildResult(p, Expired, last.timestamp, last.close, |bars|, false));
  }

  lemma FirstTouch(p: Plan, bars: seq<Bar>, n: nat)
    requires p.Ready? && n <= |bars|
    requires forall i :: 0 <= i < n ==> !HitsStop(p, bars[i]) && !HitsTarget(p, bars[i])
    requires n < |bars| ==> HitsStop(p, bars[n]) || HitsTarget(p, bars[n])
    ensures First(bars, Touches(p.boundary, p.objective), 0) == n
  {
  }

  // ----- Returns

  /** The loss at the stop, as a leveraged percentage of the entry. */
  function Risk(p: Plan): real
    requires PlanAccepted(p)
  {
    (p.boundary - p.entry) / p.entry * 100.0 * p.multiplier as real
  }

  /** An exit between the two levels returns between minus the risk and the ratio times it. */
  lemma ReturnBetween(p: Plan, verdict: Verdict, exitAt: int, exitValue: real, processed: nat, conflict: bool)
    requires ShortPlan(p) && p.objective <= exitValue <= p.boundary
    ensures var r := BuildResult(p, verdict, exitAt, exitValue, processed, conflict).leveragedReturn;
            -Risk(p) <= r <= p.ratio * Risk(p)
  {
    var e, d, m := p.entry, p.boundary - p.entry, p.multiplier as real;
    var q, x := d / e, (e - exitValue) / e;
    QuotientTimes(d, e);
    QuotientTimes(e - exitValue, e);
    assert q * e == d && x * e == e - exitValue;
    QuotientCompare(e - exitValue, e, -q);
    assert -q * e == -d;
    assert (p.ratio * q) * e == p.ratio * (q * e);
    QuotientCompare(e - exitValue, e, p.ratio * q);
    Scaled(-q, x, p.ratio * q, m);
    assert Risk(p) == q * 100.0 * m;
    assert p.ratio * Risk(p) == p.ratio * q * 100.0 * m;
  }

  lemma Scaled(a: real, x: real, b: real, m: real)
    requires a <= x <= b && m >= 0.0
    ensures a * 100.0 * m <= x * 100.0 * m <= b * 100.0 * m
  {
    MulMonotone(a * 100.0, x * 100.0, m);
    MulMonotone(x * 100.0, b * 100.0, m);
  }

  /** Every backtest of a built plan returns within [-risk, ratio * risk]. */
  lemma ReturnRange(r: PlanRequest, bars: seq<Bar>, policy: Policy)
    requires BuildPlan(true, r).Ok? && BarsAccepted(bars)
    ensures var p := BuildPlan(true, r).value;
            && PlanAccepted(p)
            && -Risk(p) <= Evaluate(p, bars, policy).leveragedReturn <= p.ratio * Risk(p)
  {
    hide BuildResult, Risk, BuildPlan;
    BuiltPlanIsShort(r);
    var p := BuildPlan(true, r).value;
    var k := First(bars, Touches(p.boundary, p.objective), 0);
    if k == |bars| {
      var last := bars[|bars| - 1];
      assert !Touches(p.boundary, p.objective)(last, |bars| - 1);
      ReturnBetween(p, Expired, last.timestamp, last.close, |bars|, false);
    } else {
      var conflict := HitsStop(p, bars[k]) && HitsTarget(p, bars[k]);
      ReturnBetween(p, Target, bars[k].timestamp, p.objective, k + 1, conflict);
      ReturnBetween(p, Stop, bars[k].timestamp, p.boundary, k + 1, conflict);
    }
  }

  /** Bar `k` is the first whose range reaches the boundary or the objective. */
  ghost predicate FirstTouched(p: Plan, bars: seq<Bar>, k: int)
    requires p.Ready?
  {
    && 0 <= k < |bars| && (bars[k].high >= p.boundary || bars[k].low <= p.objective)
    && forall i :: 0 <= i < k ==> bars[i].high < p.boundary && bars[i].low > p.objective
  }

  /** What an exit at a price returns, on the entry and with leverage. */
  ghost predicate Returns(p: Plan, r: Outcome)
    requires p.Ready?
  {
    && r.symbol == p.symbol
    && r.priceReturn * p.entry == (p.entry - r.exitValue) * 100.0
    && r.leveragedReturn == r.priceReturn * p.multiplier as real
  }

  /** The bar that decides, at which level, and what it returns: a stop costs exactly the risk and a
      target of a built plan returns exactly the ratio times the risk. */
  lemma TouchedExit(p: Plan, bars: seq<Bar>, policy: Policy, k: nat)
    requires PlanAccepted(p) && FirstTouched(p, bars, k)
    ensures var r := Evaluate(p, bars, policy);
            var stopped := bars[k].high >= p.boundary && (bars[k].low > p.objective || policy == Conservative);
            && r.verdict == (if stopped then Stop else Target)
            && r.exitValue == (if stopped then p.boundary else p.objective)
            && r.exitAt == bars[k].timestamp && r.barsProcessed == k + 1
            && (r.conflict <==> bars[k].high >= p.boundary && bars[k].low <= p.objective)
            && Returns(p, r)
            && (stopped ==> r.leveragedReturn == -Risk(p))
            && (!stopped && ShortPlan(p) ==> r.leveragedReturn == p.ratio * Risk(p))
  {
    hide BuildResult, Risk;
    FirstTouch(p, bars, k);
    var conflict := HitsStop(p, bars[k]) && HitsTarget(p, bars[k]);
    ExitReturn(p, Stop, bars[k].timestamp, p.boundary, k + 1, conflict);
    ExitReturn(p, Target, bars[k].timestamp, p.objective, k + 1, conflict);
  }

  lemma ExitReturn(p: Plan, verdict: Verdict, exitAt: int, exitValue: real, processed: nat, conflict: bool)
    requires PlanAccepted(p)
    ensures var r := BuildResult(p, verdict, exitAt, exitValue, processed, conflict);
            && r.verdict == verdict && r.exitAt == exitAt && r.exitValue == exitValue
            && r.barsProcessed == processed && r.conflict == conflict && Returns(p, r)
            && (exitValue == p.boundary ==> r.leveragedReturn == -Risk(p))
            && (exitValue == p.objective && ShortPlan(p) ==> r.leveragedReturn == p.ratio * Risk(p))
  {
    var e, d, m := p.entry, p.boundary - p.entry, p.multiplier as real;
    var q, x := d / e, (e - exitValue) / e;
    QuotientTimes(d, e);
    QuotientTimes(e - exitValue, e);
    assert q * e == d && x * e == e - exitValue;
    assert (x * 100.0) * e == (x * e) * 100.0;
    if exitValue == p.boundary {
      assert (-q) * e == -(q * e);
      SameQuotient(x, -q, e);
    }
    if exitValue == p.objective && ShortPlan(p) {
      assert (p.ratio * q) * e == p.ratio * (q * e);
      SameQuotient(x, p.ratio * q, e);
      assert p.ratio * (q * 100.0 * m) == p.ratio * q * 100.0 * m;
    }
  }

  lemma SameQuotient(a: real, b: real, c: real)
    requires c > 0.0 && a * c == b * c
    ensures a == b
  {
    if a < b { MulStrict(a, b, c); }
    if b < a { MulStrict(b, a, c); }
  }

  /** With no such bar the plan expires at the last close. */
  lemma UntouchedExpires(p: Plan, bars: seq<Bar>, policy: Policy)
    requires PlanAccepted(p) && bars != []
    requires forall i :: 0 <= i < |bars| ==> bars[i].high < p.boundary && bars[i].low > p.objective
    ensures var r, last := Evaluate(p, bars, policy), bars[|bars| - 1];
            && r.verdict == Expired && r.exitValue == last.close && r.exitAt == last.timestamp
            && r.barsProcessed == |bars| && !r.conflict && Returns(p, r)
  {
    hide BuildResult;
    FirstTouch(p, bars, |bars|);
    var last := bars[|bars| - 1];
    ExitReturn(p, Expired, last.timestamp, last.close, |bars|, false);
  }

  /** A resolved result is not changed by later bars. */
  lemma ResolvedIsFinal(p: Plan, bars: seq<Bar>, more: seq<Bar>, policy: Policy)
    requires PlanAccepted(p) && bars != [] && bars <= more
    requires Evaluate(p, bars, policy).verdict != Expired
    ensures Evaluate(p, more, policy) == Evaluate(p, bars, policy)
  {
  }

  /** The optimistic policy exits on the same bar and never returns less. */
  lemma OptimismNeverHurts(p: Plan, bars: seq<Bar>)
    requires PlanAccepted(p) && bars != []
    ensures var c, o := Evaluate(p, bars, Conservative), Evaluate(p, bars, Optimistic);
            && c.exitAt == o.exitAt && c.barsProcessed == o.barsProcessed && c.conflict == o.conflict
            && c.leveragedReturn <= o.leveragedReturn
            && (c != o ==> c.conflict && c.verdict == Stop && o.verdict == Target)
  {
    QuotientMonotone(p.entry - p.boundary, p.entry - p.objective, p.entry);
    Scaled((p.entry - p.boundary) / p.entry, (p.entry - p.objective) / p.entry, (p.entry - p.objective) / p.entry,
           p.multiplier as real);
  }

  // ----- Drawdown

  /** Equity after the first `k` returns, starting from 100. */
  function Equity(pnl: seq<real>, k: nat): real
    requires k <= |pnl|
  {
    if k == 0 then 100.0 else Equity(pnl, k - 1) + pnl[k - 1]
  }

  function Sum(xs: seq<real>): real { if xs == [] then 0.0 else xs[0] + Sum(xs[1..]) }

  /** Equity is 100 plus the returns so far. */
  lemma {:induction false} EquityIsSum(pnl: seq<real>, k: nat)
    requires k <= |pnl|
    ensures Equity(pnl, k) == 100.0 + Sum(pnl[..k])
  {
    if k > 0 {
      EquityIsSum(pnl, k - 1);
      assert pnl[..k] == pnl[..k - 1] + [pnl[k - 1]];
      SumAppend(pnl[..k - 1], pnl[k - 1]);
    }
  }

  lemma {:induction false} SumAppend(xs: seq<real>, x: real)
    ensures Sum(xs + [x]) == Sum(xs) + x
  {
    if xs == [] {
      assert xs + [x] == [x];
    } else {
      assert (xs + [x])[1..] == xs[1..] + [x];
      SumAppend(xs[1..], x);
    }
  }

  function Peak(pnl: seq<real>, k: nat): (p: real)
    requires k <= |pnl|
    ensures p >= 100.0
  {
    if k == 0 then 100.0
    else if Equity(pnl, k) > Peak(pnl, k - 1) then Equity(pnl, k) else Peak(pnl, k - 1)
  }

  function DropFrom(high: real, low: real): real
    requires high > 0.0
  {
    (high - low) / high * 100.0
  }

  /** The running maximum of the drop from the running peak. */
  function MaxDrawdown(pnl: seq<real>, k: nat): real
    requires k <= |pnl|
  {
    if k == 0 then 0.0
    else
      var drop := DropFrom(Peak(pnl, k), Equity(pnl, k));
      if drop > MaxDrawdown(pnl, k - 1) then drop else MaxDrawdown(pnl, k - 1)
  }

  method ComputeMaxDrawdown(pnl: seq<real>) returns (maximum: real)
    ensures maximum == MaxDrawdown(pnl, |pnl|)
  {
    hide DropFrom;
    var equity, peak := 100.0, 100.0;
    maximum := 0.0;
    for n := 0 to |pnl|
      invariant equity == Equity(pnl, n) && peak == Peak(pnl, n) && maximum == MaxDrawdown(pnl, n)
    {
      equity := equity + pnl[n];
      peak := if equity > peak then equity else peak;
      if peak > 0.0 {
        var drop := DropFrom(peak, equity);
        maximum := if drop > maximum then drop else maximum;
      }
    }
  }

  lemma {:induction false} PeakIsMaximum(pnl: seq<real>, k: nat) returns (i: nat)
    requires k <= |pnl|
    ensures i <= k && Peak(pnl, k) == Equity(pnl, i)
    ensures forall j :: 0 <= j <= k ==> Equity(pnl, j) <= Peak(pnl, k)
  {
    if k == 0 {
      i := 0;
    } else {
      i := PeakIsMaximum(pnl, k - 1);
      if Equity(pnl, k) > Peak(pnl, k - 1) {
        i := k;
      }
    }
  }

  lemma HigherPeakDropsMore(high: real, higher: real, low: real)
    requires 0.0 < high <= higher && low >= 0.0
    ensures DropFrom(high, low) <= DropFrom(higher, low)
  {
    QuotientAntitone(low, high, higher);
    DropIsComplement(high, low);
    DropIsComplement(higher, low);
  }

  lemma DropIsComplement(high: real, low: real)
    requires high > 0.0
    ensures DropFrom(high, low) == (1.0 - low / high) * 100.0
  {
    var x := low / high;
    QuotientTimes(low, high);
    assert (1.0 - x) * high == high - low;
    QuotientCompare(high - low, high, 1.0 - x);
  }

  /** Equity is not negative after any of the first `k` returns. */
  ghost predicate Solvent(pnl: seq<real>, k: nat)
    requires k <= |pnl|
  {
    forall j :: 0 <= j <= k ==> Equity(pnl, j) >= 0.0
  }

  ghost predicate NeverNegative(pnl: seq<real>) { Solvent(pnl, |pnl|) }

  /** While equity stays non-negative, no earlier/later pair drops further than the maximum. */
  lemma {:induction false} NoPairDropsFurther(pnl: seq<real>, k: nat, i: nat, j: nat)
    requires NeverNegative(pnl) && i <= j <= k <= |pnl| && Equity(pnl, i) > 0.0
    ensures DropFrom(Equity(pnl, i), Equity(pnl, j)) <= MaxDrawdown(pnl, k)
    decreases k
  {
    hide DropFrom;
    if j < k {
      NoPairDropsFurther(pnl, k - 1, i, j);
    } else {
      var top := PeakIsMaximum(pnl, k);
      HigherPeakDropsMore(Equity(pnl, i), Peak(pnl, k), Equity(pnl, j));
      if k == 0 {
        DropIsComplement(100.0, 100.0);
      }
    }
  }

  /** The maximum is the drop from the running peak to some later equity, negative or not. */
  lemma {:induction false} PeakPairDrops(pnl: seq<real>, k: nat) returns (i: nat, j: nat)
    requires k <= |pnl|
    ensures i <= j <= k && Equity(pnl, i) == Peak(pnl, j)
    ensures DropFrom(Equity(pnl, i), Equity(pnl, j)) == MaxDrawdown(pnl, k)
    decreases k
  {
    hide DropFrom;
    if k == 0 {
      i, j := 0, 0;
      DropIsComplement(100.0, 100.0);
    } else {
      i, j := PeakPairDrops(pnl, k - 1);
      if DropFrom(Peak(pnl, k), Equity(pnl, k)) > MaxDrawdown(pnl, k - 1) {
        i := PeakIsMaximum(pnl, k);
        j := k;
      }
    }
  }

  /** No earlier/later pair of equities drops further than the computed maximum. */
  ghost predicate BoundsEveryPair(pnl: seq<real>) {
    forall i, j :: 0 <= i <= j <= |pnl| && Equity(pnl, i) > 0.0 ==>
      DropFrom(Equity(pnl, i), Equity(pnl, j)) <= MaxDrawdown(pnl, |pnl|)
  }

  /** The computed maximum is always the drop of some pair, so bounding every pair makes it the
      maximum over all pairs. */
  lemma DrawdownAttained(pnl: seq<real>)
    ensures exists i, j :: 0 <= i <= j <= |pnl| && Equity(pnl, i) > 0.0
              && DropFrom(Equity(pnl, i), Equity(pnl, j)) == MaxDrawdown(pnl, |pnl|)
  {
    hide DropFrom, MaxDrawdown;
    var i, j := PeakPairDrops(pnl, |pnl|);
  }

  /** While equity stays non-negative the running computation bounds every pair. */
  lemma SolventBounds(pnl: seq<real>)
    requires NeverNegative(pnl)
    ensures BoundsEveryPair(pnl)
  {
    hide DropFrom, MaxDrawdown;
    forall i, j | 0 <= i <= j <= |pnl| && Equity(pnl, i) > 0.0
      ensures DropFrom(Equity(pnl, i), Equity(pnl, j)) <= MaxDrawdown(pnl, |pnl|)
    {
      NoPairDropsFurther(pnl, |pnl|, i, j);
    }
  }

  /** The drawdown stays within 100 percent exactly when equity never goes negative. */
  lemma {:induction false} DrawdownCapped(pnl: seq<real>, k: nat)
    requires k <= |pnl|
    ensures MaxDrawdown(pnl, k) <= 100.0 <==> Solvent(pnl, k)
  {
    hide DropFrom;
    if k > 0 {
      DrawdownCapped(pnl, k - 1);
      var e, p := Equity(pnl, k), Peak(pnl, k);
      DropIsComplement(p, e);
      QuotientCompare(e, p, 0.0);
      assert DropFrom(p, e) <= 100.0 <==> e >= 0.0;
      assert Solvent(pnl, k) <==> Solvent(pnl, k - 1) && e >= 0.0;
    }
  }

  /** Equity went negative at `j` before any positive value other than the initial 100, and no
      negative equity is further, in proportion to any positive one before it, than that. */
  ghost predicate WorstFromStart(pnl: seq<real>, j: int) {
    && 0 <= j <= |pnl| && Equity(pnl, j) < 0.0
    && (forall i :: 0 <= i <= j && Equity(pnl, i) > 0.0 ==> Equity(pnl, i) == 100.0)
    && (forall a, b :: 0 <= a <= b <= |pnl| && Equity(pnl, a) > 0.0 && Equity(pnl, b) < 0.0 ==>
          -Equity(pnl, b) * 100.0 <= -Equity(pnl, j) * Equity(pnl, a))
  }

  /** Comparing two drops into negative equity is comparing cross products. */
  lemma DropsCompare(high: real, low: real, high': real, low': real)
    requires high > 0.0 && high' > 0.0
    ensures DropFrom(high, low) <= DropFrom(high', low') <==> -low * high' <= -low' * high
  {
    DropIsComplement(high, low);
    DropIsComplement(high', low');
    var x, x' := low / high, low' / high';
    QuotientTimes(low, high);
    QuotientTimes(low', high');
    assert DropFrom(high, low) <= DropFrom(high', low') <==> x' <= x;
    QuotientCompare(low, high, x');
    assert x' <= x <==> x' * high <= low;
    ProductCompare(x' * high, low, high');
    assert x' * high * high' == low' * high;
  }

  lemma ProductCompare(a: real, b: real, c: real)
    requires c > 0.0
    ensures a <= b <==> a * c <= b * c
  {
    if a > b {
      MulStrict(b, a, c);
    } else {
      MulMonotone(a, b, c);
    }
  }

  lemma {:induction false} DropCounted(pnl: seq<real>, k: nat, j: nat)
    requires j <= k <= |pnl|
    ensures DropFrom(Peak(pnl, j), Equity(pnl, j)) <= MaxDrawdown(pnl, k)
    decreases k
  {
    hide DropFrom;
    if j < k {
      DropCounted(pnl, k - 1, j);
    } else if k == 0 {
      DropIsComplement(100.0, 100.0);
    }
  }

  /** A fall to a value that is not negative is smaller than any fall into negative equity. */
  lemma SolventFallIsSmaller(high: real, low: real, high': real, low': real)
    requires high > 0.0 && low >= 0.0 && high' > 0.0 && low' < 0.0
    ensures DropFrom(high, low) <= DropFrom(high', low')
  {
    hide DropFrom;
    DropsCompare(high, low, high', low');
    MulMonotone(0.0, low, high');
    MulStrict(0.0, -low', high);
  }

  lemma WorstIsCounted(pnl: seq<real>, j: nat)
    requires WorstFromStart(pnl, j)
    ensures DropFrom(100.0, Equity(pnl, j)) <= MaxDrawdown(pnl, |pnl|)
  {
    hide DropFrom, MaxDrawdown, Peak, Equity;
    var top := PeakIsMaximum(pnl, j);
    DropCounted(pnl, |pnl|, j);
  }

  lemma WorstFromStartBounds(pnl: seq<real>, j: nat)
    requires WorstFromStart(pnl, j)
    ensures BoundsEveryPair(pnl)
  {
    hide DropFrom, MaxDrawdown, Equity;
    WorstIsCounted(pnl, j);
    forall a, b | 0 <= a <= b <= |pnl| && Equity(pnl, a) > 0.0
      ensures DropFrom(Equity(pnl, a), Equity(pnl, b)) <= MaxDrawdown(pnl, |pnl|)
    {
      if Equity(pnl, b) >= 0.0 {
        SolventFallIsSmaller(Equity(pnl, a), Equity(pnl, b), 100.0, Equity(pnl, j));
      } else {
        DropsCompare(Equity(pnl, a), Equity(pnl, b), 100.0, Equity(pnl, j));
      }
    }
  }

  /** Once equity has gone negative the computed maximum is a fall into negative equity. */
  lemma WorstIsNegative(pnl: seq<real>, i: nat, j: nat)
    requires !NeverNegative(pnl) && i <= j <= |pnl| && Equity(pnl, i) > 0.0
    requires DropFrom(Equity(pnl, i), Equity(pnl, j)) == MaxDrawdown(pnl, |pnl|)
    ensures Equity(pnl, j) < 0.0
  {
    hide DropFrom, MaxDrawdown, Equity;
    var p, e := Equity(pnl, i), Equity(pnl, j);
    DrawdownCapped(pnl, |pnl|);
    DropIsComplement(p, e);
    QuotientCompare(e, p, 0.0);
  }

  /** A fall into negative equity is larger from a smaller positive value. */
  lemma SmallerFallsFurther(high: real, p: real, low: real)
    requires 0.0 < high <= p && low < 0.0 && DropFrom(high, low) <= DropFrom(p, low)
    ensures high == p
  {
    hide DropFrom;
    DropsCompare(high, low, p, low);
    ProductCompare(p, high, -low);
  }

  lemma OnlyThePeak(pnl: seq<real>, i: nat, j: nat)
    requires BoundsEveryPair(pnl) && i <= j <= |pnl| && 0.0 < Equity(pnl, i) && Equity(pnl, j) < 0.0
    requires DropFrom(Peak(pnl, j), Equity(pnl, j)) == MaxDrawdown(pnl, |pnl|)
    ensures Equity(pnl, i) == Peak(pnl, j)
  {
    hide DropFrom, MaxDrawdown, Peak, Equity;
    var top := PeakIsMaximum(pnl, j);
    SmallerFallsFurther(Equity(pnl, i), Peak(pnl, j), Equity(pnl, j));
  }

  lemma BoundedIsWorstFromStart(pnl: seq<real>) returns (j: nat)
    requires BoundsEveryPair(pnl) && !NeverNegative(pnl)
    ensures WorstFromStart(pnl, j)
  {
    hide DropFrom, MaxDrawdown, Peak, NeverNegative;
    var top: nat;
    top, j := PeakPairDrops(pnl, |pnl|);
    var peak := PeakIsMaximum(pnl, j);
    WorstIsNegative(pnl, top, j);
    forall i | 0 <= i <= j && Equity(pnl, i) > 0.0 ensures Equity(pnl, i) == Peak(pnl, j) {
      OnlyThePeak(pnl, i, j);
    }
    assert Equity(pnl, 0) == 100.0;
    hide Equity;
    forall a, b | 0 <= a <= b <= |pnl| && Equity(pnl, a) > 0.0 && Equity(pnl, b) < 0.0
      ensures -Equity(pnl, b) * 100.0 <= -Equity(pnl, j) * Equity(pnl, a)
    {
      DropsCompare(Equity(pnl, a), Equity(pnl, b), 100.0, Equity(pnl, j));
    }
  }

  /** Exactly when the running-peak drawdown is the maximum over all earlier/later pairs: equity
      never goes negative, or its worst fall is from the initial 100 before it held any other
      positive value. */
  lemma DrawdownExact(pnl: seq<real>)
    ensures BoundsEveryPair(pnl) <==> NeverNegative(pnl) || exists j :: WorstFromStart(pnl, j)
  {
    hide BoundsEveryPair, NeverNegative, WorstFromStart;
    if NeverNegative(pnl) {
      SolventBounds(pnl);
    } else if BoundsEveryPair(pnl) {
      var j := BoundedIsWorstFromStart(pnl);
    } else if exists j :: WorstFromStart(pnl, j) {
      var j :| WorstFromStart(pnl, j);
      WorstRange(pnl, j);
      WorstFromStartBounds(pnl, j);
    }
  }

  lemma WorstRange(pnl: seq<real>, j: int)
    requires WorstFromStart(pnl, j)
    ensures j >= 0
  {
  }

  /** A fall through zero after a first loss: the pair drops further than the computed maximum. */
  lemma NegativeEquityMisses()
    ensures var pnl := [-50.0, -100.0];
            && MaxDrawdown(pnl, 2) < DropFrom(Equity(pnl, 1), Equity(pnl, 2))
            && !BoundsEveryPair(pnl)
  {
    var pnl := [-50.0, -100.0];
    assert Equity(pnl, 1) == 50.0 && Equity(pnl, 2) == -50.0;
  }
}
