/** Rules and records of the reclaim engine (app/setups/reclaim_models.py). */
module ReclaimModels {
  import opened Basics
  import opened Candles
  import opened StructureEvents
  import opened SupportZones

  datatype Outcome =
    | NoAttempt | Attempting | SuccessfulReclaim | FailedReclaim | FailedPullback
    | Continuation | Expired | PullbackExceeded

  datatype SetupType = NoSetup | BreakdownShort | FailedPullbackShort | ContinuationShort

  datatype Readiness = Watching | Qualified | Cancelled | OutOfTime | Void

  datatype RawReclaimRules = RawReclaimRules(
    successfulH4Closes: int, successfulM15Closes: int, minimumAttemptBps: real,
    maximumFailedBps: real, maximumVolumeRatio: real, minimumBodyFraction: real,
    minimumDistanceBps: real, maximumPullbackBars: int, maximumAgeBars: int,
    continuationMinimumBars: int)
  {
    predicate Valid() {
      && successfulH4Closes >= 1 && successfulM15Closes >= 1
      && minimumAttemptBps >= 0.0 && maximumFailedBps >= 0.0
      && 0.0 <= maximumVolumeRatio <= 10.0
      && 0.0 <= minimumBodyFraction <= 1.0 && minimumDistanceBps >= 0.0
      && 1 <= maximumPullbackBars <= maximumAgeBars
      && continuationMinimumBars >= 2
    }
  }

  type ReclaimRules = r: RawReclaimRules | r.Valid() witness DEFAULT_RECLAIM_RULES

  const DEFAULT_RECLAIM_RULES := RawReclaimRules(1, 2, 5.0, 100.0, 0.85, 0.25, 5.0, 12, 30, 3)

  datatype AttemptId = AttemptId(event: EventId, zone: ZoneId, interval: Interval, startedAt: int)

  datatype RawAttempt = RawAttempt(
    id: AttemptId, breakEventId: EventId, zoneId: ZoneId, source: Source, symbol: string,
    structureInterval: Interval, startedAt: int, observedAt: int, outcome: Outcome,
    setupType: SetupType, readiness: Readiness, zoneLow: real, zoneHigh: real,
    maximumPrice: real, maximumPenetrationBps: real, durationBars: int, closesAbove: int,
    barsAbove: int, bounceVolumeRatio: Option<real>, rejectionOpen: Option<int>,
    rejectionLow: Option<real>, triggerOpen: Option<int>, quality: real)
  {
    /** What the constructor demands. */
    predicate Valid() { FieldsInRange() && EvidencePaired() && StatesConsistent() }

    predicate FieldsInRange() {
      && symbol != "" && structureInterval in {D1, H4}
      && startedAt <= observedAt
      && FLOOR <= zoneLow < zoneHigh
      && maximumPrice >= FLOOR && maximumPenetrationBps >= 0.0
      && 0.0 <= quality <= 100.0
      && (bounceVolumeRatio.Some? ==> bounceVolumeRatio.value >= 0.0)
      && (rejectionLow.Some? ==> rejectionLow.value >= FLOOR)
      && durationBars >= 0 && 0 <= closesAbove <= barsAbove
    }

    predicate EvidencePaired() {
      && (rejectionOpen.Some? <==> rejectionLow.Some?)
      && (triggerOpen.Some? ==> rejectionOpen.Some? && rejectionOpen.value < triggerOpen.value)
    }

    predicate StatesConsistent() {
      && (outcome == SuccessfulReclaim ==> readiness == Cancelled && setupType == NoSetup)
      && (outcome == FailedPullback ==>
            setupType == FailedPullbackShort && readiness == Qualified && rejectionOpen.Some? && triggerOpen.Some?)
      && (readiness == Qualified ==> setupType != NoSetup)
      && (readiness in {Cancelled, OutOfTime, Void} ==> setupType == NoSetup)
    }
  }
}
