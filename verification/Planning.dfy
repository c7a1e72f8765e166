/** Short plans (app/planning/service.py). */
module Planning {
  import opened Basics

  datatype PlanRequest = PlanRequest(symbol: string, entry: real, boundary: real, multiplier: int, ratio: real)

  datatype Plan =
    | Hold(symbol: string)
    | Ready(symbol: string, entry: real, boundary: real, objective: real, multiplier: int, ratio: real)

  function BuildPlan(flowReady: bool, r: PlanRequest): Result<Plan> {
    if !flowReady then Ok(Hold(r.symbol))
    else if r.symbol == "" then Err(InvalidPlan)
    else if r.entry <= 0.0 || r.boundary <= 0.0 then Err(InvalidPlan)
    else if r.boundary <= r.entry then Err(InvalidPlan)
    else if r.ratio <= 0.0 then Err(InvalidPlan)
    else if r.multiplier < 1 || r.multiplier > 5 then Err(InvalidPlan)
    else
      var objective := r.entry - (r.boundary - r.entry) * r.ratio;
      if objective <= 0.0 then Err(InvalidPlan)
      else Ok(Ready(r.symbol, r.entry, r.boundary, objective, r.multiplier, r.ratio))
  }

  /** A ready plan keeps the short ordering, and its target is `ratio` times its stop distance. */
  ghost predicate ShortPlan(p: Plan) {
    && p.Ready? && p.symbol != ""
    && 0.0 < p.objective < p.entry < p.boundary
    && p.entry - p.objective == p.ratio * (p.boundary - p.entry)
    && p.ratio > 0.0 && 1 <= p.multiplier <= 5
  }

  lemma BuiltPlanIsShort(r: PlanRequest)
    requires BuildPlan(true, r).Ok?
    ensures ShortPlan(BuildPlan(true, r).value) && BuildPlan(true, r).value.symbol == r.symbol
    ensures BuildPlan(true, r).value.entry == r.entry && BuildPlan(true, r).value.boundary == r.boundary
    ensures BuildPlan(true, r).value.multiplier == r.multiplier && BuildPlan(true, r).value.ratio == r.ratio
  {
    assert (r.boundary - r.entry) * r.ratio > 0.0;
  }

  /** Exactly when a plan is built for a ready flow: a positive entry under the boundary, leverage
      of one to five, and a target distance that stays above zero. */
  lemma PlanBuiltExactly(r: PlanRequest)
    ensures BuildPlan(true, r).Ok? <==>
              && r.symbol != "" && 0.0 < r.entry < r.boundary && r.ratio > 0.0 && 1 <= r.multiplier <= 5
              && r.ratio * (r.boundary - r.entry) < r.entry
    ensures BuildPlan(false, r) == Ok(Hold(r.symbol))
    ensures BuildPlan(true, r).Err? ==> BuildPlan(true, r).fault == InvalidPlan
  {
    assert (r.boundary - r.entry) * r.ratio == r.ratio * (r.boundary - r.entry);
  }
}
